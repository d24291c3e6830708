// The per-battle actor (battle/battle/internal/actor.go): one handler per message, each
// producing a new actor state and a list of effects on the outside, in order.
module BattleActors {
  import opened Common
  import opened BattleModel
  import opened Protocol

  datatype Mode = ModeRun | ModeRedeliver

  datatype Params = Params(
    battleId: string, uid: nat, source: Source, managerPid: nat, mode: Mode, report: Report, retryAttempts: int)

  // What the calls into configuration, engine and repository answer during OnInit:
  // whether a battle could be built, its result if Run succeeded, whether Save succeeded.
  datatype Answers = Answers(built: bool, result: Option<Result>, saved: bool)

  // Effects in the order they happen. A failed Notify is a message the network lost.
  datatype Effect =
    | Notify(to: Source, message: Message)
    | SaveReport(report: Report)
    | ConfirmReport(battleId: string)
    | TellManager(battleId: string)
    | StopSelf

  // `armed` is a running retry timer.
  datatype ActorState = ActorState(p: Params, report: Report, attempts: nat, released: bool, armed: bool)

  datatype Reaction = Reaction(state: ActorState, effects: seq<Effect>)

  function Fresh(p: Params): ActorState {
    ActorState(p, NO_REPORT, 0, false, false)
  }

  function Finish(a: ActorState): Reaction {
    if a.released then Reaction(a, [])
    else Reaction(a.(released := true, armed := false),
                  (if a.p.managerPid != 0 then [TellManager(a.p.battleId)] else []) + [StopSelf])
  }

  function ActionsOf(r: Report, n: nat): seq<Effect>
    requires n <= |r.result.events|
  {
    if n == 0 then []
    else ActionsOf(r, n - 1) + [Notify(r.source, Action(r.battleId, r.uid, r.result.events[n - 1]))]
  }

  function PushFinished(a: ActorState): Reaction {
    Reaction(a.(attempts := a.attempts + 1, armed := a.armed || !a.report.confirmed),
             [Notify(a.report.source, FinishedOf(a.report))])
  }

  function Retry(a: ActorState): Reaction {
    if a.attempts >= a.p.retryAttempts then Finish(a) else PushFinished(a)
  }

  function OnConfirm(a: ActorState, battleId: string): Reaction {
    if battleId != a.p.battleId then Reaction(a, []) else
      var r := Finish(a);
      Reaction(r.state, [ConfirmReport(battleId)] + r.effects)
  }

  function Before(effects: seq<Effect>, r: Reaction): Reaction {
    Reaction(r.state, effects + r.effects)
  }

  function CreatedEffect(p: Params): seq<Effect> {
    [Notify(p.source, Created(p.battleId, p.uid))]
  }

  function ReportFor(p: Params, result: Result): Report {
    Report(result.battleId, p.uid, p.source, result, false)
  }

  function RedeliveredReport(p: Params): Report {
    p.report.(uid := p.uid, source := p.source)
  }

  function Publish(a: ActorState): Reaction {
    Before(ActionsOf(a.report, |a.report.result.events|), PushFinished(a))
  }

  // OnInit: created, then (run) settle and save, then the action stream, then finished.
  function Begin(a: ActorState, answers: Answers): Reaction {
    if a.p.mode.ModeRun? then
      if !answers.built then Finish(a)
      else if answers.result.None? || !answers.saved then Before(CreatedEffect(a.p), Finish(a))
      else
        var report := ReportFor(a.p, answers.result.value);
        Before(CreatedEffect(a.p) + [SaveReport(report)], Publish(a.(report := report)))
    else
      var published := Publish(a.(report := RedeliveredReport(a.p)));
      var ended := if published.state.report.confirmed then Finish(published.state) else Reaction(published.state, []);
      Before(CreatedEffect(a.p) + published.effects, ended)
  }

  class BattleActor {
    const p: Params
    var report: Report
    var attempts: nat
    var released: bool
    var armed: bool
    var effects: seq<Effect>

    function State(): ActorState
      reads this
    {
      ActorState(p, report, attempts, released, armed)
    }

    // The handler turned state a into r.state and performed r.effects.
    twostate predicate Did(r: Reaction)
      reads this
    {
      State() == r.state && effects == old(effects) + r.effects
    }

    constructor (p: Params)
      ensures State() == Fresh(p) && effects == []
    {
      this.p := p;
      report, attempts, released, armed, effects := NO_REPORT, 0, false, false, [];
    }

    method Emit(e: Effect)
      modifies this`effects
      ensures effects == old(effects) + [e]
    {
      effects := effects + [e];
    }

    method StopTimer()
      modifies this`armed
      ensures !armed
    {
      if armed {
        armed := false;
      }
    }

    method ScheduleRetry()
      modifies this`armed
      ensures armed
    {
      StopTimer();
      armed := true;
    }

    method DoFinish()
      modifies this
      ensures Did(Finish(old(State())))
    {
      if released {
        return;
      }
      released := true;
      StopTimer();
      if p.managerPid != 0 {
        Emit(TellManager(p.battleId));
      }
      Emit(StopSelf);
    }

    method DoPushActions()
      modifies this`effects
      ensures effects == old(effects) + ActionsOf(report, |report.result.events|)
    {
      for n := 0 to |report.result.events|
        invariant effects == old(effects) + ActionsOf(report, n)
      {
        Emit(Notify(report.source, Action(report.battleId, report.uid, report.result.events[n])));
      }
    }

    method DoPushFinished()
      modifies this
      ensures Did(PushFinished(old(State())))
    {
      Emit(Notify(report.source, FinishedOf(report)));
      attempts := attempts + 1;
      if !report.confirmed {
        ScheduleRetry();
      }
    }

    method HandleTick()
      modifies this
      ensures Did(Retry(old(State())))
    {
      if attempts >= p.retryAttempts {
        DoFinish();
        return;
      }
      DoPushFinished();
    }

    method HandleConfirm(battleId: string)
      modifies this
      ensures Did(OnConfirm(old(State()), battleId))
    {
      if battleId != p.battleId {
        return;
      }
      Emit(ConfirmReport(battleId));
      DoFinish();
    }

    method HandleRetire()
      modifies this
      ensures Did(Finish(old(State())))
    {
      DoFinish();
    }

    method OnInit(answers: Answers)
      modifies this
      ensures Did(Begin(old(State()), answers))
    {
      hide ActionsOf;
      if p.mode.ModeRun? && !answers.built {
        DoFinish();
        return;
      }
      Emit(Notify(p.source, Created(p.battleId, p.uid)));
      if p.mode.ModeRun? {
        if answers.result.None? || !answers.saved {
          DoFinish();
          return;
        }
        report := ReportFor(p, answers.result.value);
        Emit(SaveReport(report));
      } else {
        report := p.report.(uid := p.uid, source := p.source);
      }
      DoPushActions();
      DoPushFinished();
      if p.mode.ModeRedeliver? && report.confirmed {
        DoFinish();
      }
    }
  }

  lemma {:induction false} ActionsAt(r: Report, n: nat, i: nat)
    requires n <= |r.result.events|
    ensures |ActionsOf(r, n)| == n
    ensures i < n ==> ActionsOf(r, n)[i] == Notify(r.source, Action(r.battleId, r.uid, r.result.events[i]))
  {
    if n > 0 {
      ActionsAt(r, n - 1, i);
    }
  }

  // ---- what each message makes an actor do ----

  // The farewell of an actor that was not released before.
  function Farewell(p: Params): seq<Effect> {
    if p.managerPid != 0 then [TellManager(p.battleId), StopSelf] else [StopSelf]
  }

  // A run-mode actor announces its battle, saves its result unconfirmed, and tells the asking
  // node every event in order and then the outcome; what fails before the save ends it.
  lemma RunsExactly(p: Params, answers: Answers, j: nat)
    requires p.mode.ModeRun?
    ensures var created := Notify(p.source, Created(p.battleId, p.uid));
            var r := Begin(Fresh(p), answers);
            if !answers.built then r.effects == Farewell(p) && r.state.released
            else if answers.result.None? || !answers.saved then r.effects == [created] + Farewell(p) && r.state.released
            else
              var result := answers.result.value;
              && |r.effects| == |result.events| + 3 && r.effects[0] == created
              && r.effects[1] == SaveReport(Report(battleId := result.battleId, uid := p.uid, source := p.source,
                                                   result := result, confirmed := false))
              && (j < |result.events| ==> r.effects[2 + j] == Notify(p.source, Action(result.battleId, p.uid, result.events[j])))
              && r.effects[2 + |result.events|]
                   == Notify(p.source, Finished(battleId := result.battleId, uid := p.uid, outcome := result.outcome,
                                                units := result.units, checksum := result.checksum))
              && r.state.attempts == 1 && r.state.armed && !r.state.released
  {
    hide ActionsOf;
    if answers.built && answers.result.Some? && answers.saved {
      var report := ReportFor(p, answers.result.value);
      ActionsAt(report, |report.result.events|, j);
    }
  }

  // A redelivering actor sends the stored report's stream to the node that asks now, saves
  // nothing, and stays for a confirmation only if there was none yet.
  lemma RedeliversExactly(p: Params, answers: Answers, j: nat)
    requires p.mode.ModeRedeliver?
    ensures var events, r := p.report.result.events, Begin(Fresh(p), answers);
            && |r.effects| == |events| + 2 + (if p.report.confirmed then |Farewell(p)| else 0)
            && r.effects[0] == Notify(p.source, Created(p.battleId, p.uid))
            && (j < |events| ==> r.effects[1 + j] == Notify(p.source, Action(p.report.battleId, p.uid, events[j])))
            && r.effects[1 + |events|]
                 == Notify(p.source, Finished(battleId := p.report.battleId, uid := p.uid, outcome := p.report.result.outcome,
                                              units := p.report.result.units, checksum := p.report.result.checksum))
            && r.state.released == p.report.confirmed
            && (p.report.confirmed ==> r.effects[2 + |events|..] == Farewell(p))
  {
    hide ActionsOf;
    var report := RedeliveredReport(p);
    ActionsAt(report, |report.result.events|, j);
    var published := CreatedEffect(p) + Publish(Fresh(p).(report := report)).effects;
    assert |published| == |report.result.events| + 2;
    assert p.report.confirmed ==> (published + Farewell(p))[|published|..] == Farewell(p);
  }

  // At any point of a life: a queued tick resends the saved outcome while attempts are left
  // and else releases the actor; its own confirmation is stored and releases it; so does
  // retirement; whoever is released says farewell once and stops its timer.
  lemma HandlesExactly(p: Params, inputs: seq<Input>, battleId: string)
    requires LifeAfter(p, inputs).begun
    ensures var l := LifeAfter(p, inputs);
            var report, farewell := l.state.report, if l.state.released then [] else Farewell(p);
            var again := Notify(report.source, Finished(battleId := report.battleId, uid := report.uid, outcome := report.result.outcome,
                                                        units := report.result.units, checksum := report.result.checksum));
            var due := if l.state.attempts < p.retryAttempts then [again] else farewell;
            && l.state.p == p
            && (l.ticks > 0 ==> LifeAfter(p, inputs + [Tick]).effects == l.effects + due)
            && LifeAfter(p, inputs + [ConfirmMsg(battleId)]).effects
                 == l.effects + (if battleId == p.battleId then [ConfirmReport(battleId)] + farewell else [])
            && (battleId == p.battleId ==> LifeAfter(p, inputs + [ConfirmMsg(battleId)]).state.released)
            && LifeAfter(p, inputs + [Retire]).effects == l.effects + farewell
            && LifeAfter(p, inputs + [Retire]).state.released
            && (!l.state.released ==>
                  && !LifeAfter(p, inputs + [Retire]).state.armed
                  && (battleId == p.battleId ==> !LifeAfter(p, inputs + [ConfirmMsg(battleId)]).state.armed))
  {
    LifeAppend(p, inputs, Tick);
    LifeAppend(p, inputs, ConfirmMsg(battleId));
    LifeAppend(p, inputs, Retire);
    ParamsAreKept(p, inputs);
    hide LifeAfter;
  }

  lemma LifeAppend(p: Params, inputs: seq<Input>, input: Input)
    ensures LifeAfter(p, inputs + [input]) == Lived(LifeAfter(p, inputs), input)
  {
    assert (inputs + [input])[..|inputs|] == inputs;
  }

  lemma {:induction false} ParamsAreKept(p: Params, inputs: seq<Input>)
    ensures LifeAfter(p, inputs).state.p == p
  {
    hide ActionsOf;
    if inputs != [] {
      ParamsAreKept(p, inputs[..|inputs| - 1]);
    }
  }

  // ---- bounded retry over every life of an actor ----

  datatype Input = Init(answers: Answers) | Fire | Tick | ConfirmMsg(battleId: string) | Retire

  // An actor with the ticks queued in its mailbox; Fire is the timer going off.
  datatype Life = Life(state: ActorState, ticks: nat, begun: bool, effects: seq<Effect>)

  function React(l: Life, r: Reaction): Life {
    l.(state := r.state, effects := l.effects + r.effects)
  }

  // OnInit comes first and once; a tick is handled only if one is queued, the timer goes
  // off only if it runs. Messages may still be handled after the actor asked to stop.
  function Lived(l: Life, input: Input): Life {
    match input
    case Init(answers) => if l.begun then l else React(l, Begin(l.state, answers)).(begun := true)
    case Fire => if l.state.armed then l.(ticks := l.ticks + 1, state := l.state.(armed := false)) else l
    case Tick => if l.begun && l.ticks > 0 then React(l, Retry(l.state)).(ticks := l.ticks - 1) else l
    case ConfirmMsg(battleId) => if l.begun then React(l, OnConfirm(l.state, battleId)) else l
    case Retire => if l.begun then React(l, Finish(l.state)) else l
  }

  function Newborn(p: Params): Life {
    Life(Fresh(p), 0, false, [])
  }

  function LifeAfter(p: Params, inputs: seq<Input>): Life {
    if inputs == [] then Newborn(p)
    else Lived(LifeAfter(p, inputs[..|inputs| - 1]), inputs[|inputs| - 1])
  }

  function FinishedSent(effects: seq<Effect>): nat {
    if effects == [] then 0 else
      var last := effects[|effects| - 1];
      FinishedSent(effects[..|effects| - 1]) + if last.Notify? && last.message.Finished? then 1 else 0
  }

  function StopsReported(effects: seq<Effect>): nat {
    if effects == [] then 0
    else StopsReported(effects[..|effects| - 1]) + if effects[|effects| - 1].TellManager? then 1 else 0
  }

  function Outstanding(l: Life): nat {
    l.ticks + if l.state.armed then 1 else 0
  }

  ghost predicate Sound(l: Life) {
    && (!l.begun ==> l.effects == [] && l.ticks == 0 && l.state == Fresh(l.state.p))
    && Outstanding(l) <= 1
    && (l.begun && !l.state.released ==> Outstanding(l) == 1)
    && FinishedSent(l.effects) == l.state.attempts <= Max(1, l.state.p.retryAttempts)
    && StopsReported(l.effects) == (if l.state.released && l.state.p.managerPid != 0 then 1 else 0)
    && (l.begun && !l.state.released ==> !l.state.report.confirmed)
  }

  lemma CountsAppend(effects: seq<Effect>, e: Effect)
    ensures FinishedSent(effects + [e]) == FinishedSent(effects) + (if e.Notify? && e.message.Finished? then 1 else 0)
    ensures StopsReported(effects + [e]) == StopsReported(effects) + (if e.TellManager? then 1 else 0)
  {
  }

  lemma {:induction false} CountsConcat(xs: seq<Effect>, ys: seq<Effect>)
    ensures FinishedSent(xs + ys) == FinishedSent(xs) + FinishedSent(ys)
    ensures StopsReported(xs + ys) == StopsReported(xs) + StopsReported(ys)
  {
    if ys == [] {
      assert xs + ys == xs;
    } else {
      var n := |ys| - 1;
      CountsConcat(xs, ys[..n]);
      assert xs + ys == (xs + ys[..n]) + [ys[n]];
      CountsAppend(xs + ys[..n], ys[n]);
    }
  }

  lemma {:induction false} ActionsAreNeither(r: Report, n: nat)
    requires n <= |r.result.events|
    ensures FinishedSent(ActionsOf(r, n)) == 0 && StopsReported(ActionsOf(r, n)) == 0
  {
    if n > 0 {
      ActionsAreNeither(r, n - 1);
      CountsAppend(ActionsOf(r, n - 1), Notify(r.source, Action(r.battleId, r.uid, r.result.events[n - 1])));
    }
  }

  lemma FinishCounts(a: ActorState)
    ensures FinishedSent(Finish(a).effects) == 0
    ensures StopsReported(Finish(a).effects) == if a.released || a.p.managerPid == 0 then 0 else 1
  {
    CountsAppend([], StopSelf);
    CountsAppend([], TellManager(a.p.battleId));
    CountsConcat([TellManager(a.p.battleId)], [StopSelf]);
  }

  lemma PublishCounts(a: ActorState)
    ensures FinishedSent(Publish(a).effects) == 1 && StopsReported(Publish(a).effects) == 0
  {
    ActionsAreNeither(a.report, |a.report.result.events|);
    CountsAppend(ActionsOf(a.report, |a.report.result.events|), Notify(a.report.source, FinishedOf(a.report)));
  }

  lemma BeginCounts(a: ActorState, answers: Answers)
    requires a == Fresh(a.p)
    ensures var r := Begin(a, answers);
            && FinishedSent(r.effects) == r.state.attempts <= 1
            && StopsReported(r.effects) == (if r.state.released && r.state.p.managerPid != 0 then 1 else 0)
            && (!r.state.released ==> r.state.armed && !r.state.report.confirmed)
            && r.state.p == a.p
  {
    hide FinishedSent, StopsReported;
    var created := CreatedEffect(a.p);
    CountsOfNothing();
    CountsAppend([], created[0]);
    assert [] + [created[0]] == created;
    FinishCounts(a);
    CountsConcat(created, Finish(a).effects);
    if answers.result.Some? {
      var report := ReportFor(a.p, answers.result.value);
      CountsAppend(created, SaveReport(report));
      PublishCounts(a.(report := report));
      CountsConcat(created + [SaveReport(report)], Publish(a.(report := report)).effects);
    }
    var again := Publish(a.(report := RedeliveredReport(a.p)));
    PublishCounts(a.(report := RedeliveredReport(a.p)));
    CountsConcat(created, again.effects);
    FinishCounts(again.state);
    CountsConcat(created + again.effects, Finish(again.state).effects);
    CountsConcat(created + again.effects, []);
  }

  lemma CountsOfNothing()
    ensures FinishedSent([]) == 0 && StopsReported([]) == 0
  {
  }

  lemma StaysSound(l: Life, input: Input)
    requires Sound(l)
    ensures Sound(Lived(l, input))
  {
    hide FinishedSent, StopsReported, Begin;
    match input
    case Init(answers) =>
      if !l.begun {
        BeginCounts(l.state, answers);
        assert l.effects + Begin(l.state, answers).effects == Begin(l.state, answers).effects;
        BeginLeavesOneTimer(l.state, answers);
      }
    case Fire =>
    case Tick =>
      FinishCounts(l.state);
      CountsConcat(l.effects, Finish(l.state).effects);
      CountsAppend(l.effects, Notify(l.state.report.source, FinishedOf(l.state.report)));
    case ConfirmMsg(battleId) =>
      FinishCounts(l.state);
      CountsAppend(l.effects, ConfirmReport(battleId));
      CountsConcat(l.effects + [ConfirmReport(battleId)], Finish(l.state).effects);
      assert l.effects + ([ConfirmReport(battleId)] + Finish(l.state).effects)
          == (l.effects + [ConfirmReport(battleId)]) + Finish(l.state).effects;
      assert l.effects + [] == l.effects;
    case Retire =>
      FinishCounts(l.state);
      CountsConcat(l.effects, Finish(l.state).effects);
  }

  lemma BeginLeavesOneTimer(a: ActorState, answers: Answers)
    requires a == Fresh(a.p)
    ensures Begin(a, answers).state.released ==> !Begin(a, answers).state.armed
  {
  }

  // Over every life: an actor that has begun and is not released has exactly one retry
  // outstanding, so it is never stuck; Finished is sent at most max(1, RetryAttempts) times
  // even when stale ticks are handled after the release; the manager is told at most once.
  lemma {:induction false} RetryIsBounded(p: Params, inputs: seq<Input>)
    ensures Sound(LifeAfter(p, inputs))
  {
    hide Sound, Lived;
    if inputs == [] {
      NewbornIsSound(p);
    } else {
      RetryIsBounded(p, inputs[..|inputs| - 1]);
      StaysSound(LifeAfter(p, inputs[..|inputs| - 1]), inputs[|inputs| - 1]);
    }
  }

  lemma NewbornIsSound(p: Params)
    ensures Sound(Newborn(p))
  {
  }

  // Left alone, an actor is released once its timer has gone off often enough.
  function AfterTicks(l: Life, n: nat): Life
    decreases n
  {
    if n == 0 then l else AfterTicks(Lived(Lived(l, Fire), Tick), n - 1)
  }

  lemma {:induction false} SilenceReleases(l: Life, n: nat)
    requires Sound(l) && l.begun && n > Max(0, l.state.p.retryAttempts - l.state.attempts)
    ensures AfterTicks(l, n).state.released
    decreases n
  {
    hide FinishedSent, StopsReported;
    var next := Lived(Lived(l, Fire), Tick);
    StaysSound(l, Fire);
    StaysSound(Lived(l, Fire), Tick);
    if next.state.released {
      ReleaseIsFinal(next, n - 1);
    } else {
      SilenceReleases(next, n - 1);
    }
  }

  lemma {:induction false} ReleaseIsFinal(l: Life, n: nat)
    requires l.state.released
    ensures AfterTicks(l, n).state.released
    decreases n
  {
    if n > 0 {
      ReleaseIsFinal(Lived(Lived(l, Fire), Tick), n - 1);
    }
  }
}
