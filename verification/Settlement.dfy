// What a battle actor does with the engine (battle/battle/internal/actor.go): build and run.
module Settlement {
  import opened Common
  import opened Config
  import opened BattleModel
  import opened Engine
  import opened Outcomes

  // A valid setup always yields the result the model assigns to it, so everything proved
  // about the model's runs holds of what the imperative engine answers.
  method Settle(setup: Setup, digest: Result -> string) returns (result: Option<Result>, err: Option<Invalid>)
    ensures err.None? <==> Config.Valid(setup)
    ensures err.None? ==> result.Some? && result == BattleModel.Run(setup, digest)
    ensures err.Some? ==> result == None
  {
    hide Loop, Initial, Sealed, Concluded;
    var battle;
    battle, err := NewBattle(setup, digest);
    if battle == null {
      return None, err;
    }
    RunAlwaysAnswers(setup, digest);
    result := battle.Run();
  }
}
