// The game-side battle client (game/battleclient/client.go): one record per player,
// driven by requests from the game and by messages from battle processes.
module BattleClients {
  import opened Common
  import opened BattleModel
  import opened Protocol

  datatype PlayerState = Idle | Creating | CreateUnknown | Running | Finished

  datatype Record = Record(
    status: PlayerState, battleId: string, node: Source, lastSequence: nat, checksum: string, seen: set<nat>)

  const NEW_RECORD := Record(Idle, "", Source(0, 0), 0, "", {})

  // What the client does to the outside. NewEpoch is bookkeeping: the record was wiped.
  datatype Effect =
    | NewEpoch(uid: nat)
    | Start(uid: nat, node: Source, ok: bool)
    | Push(uid: nat, message: Message)
    | ConfirmTo(node: Source, battleId: string, uid: nat)

  datatype ClientState = ClientState(players: map<nat, Record>, completed: map<string, string>)

  datatype Turn = Turn(state: ClientState, effects: seq<Effect>)

  // Messages to the client. A nil message behaves like one without uid, battle or event;
  // `pick` and `ok` answer the node selector and the sender.
  datatype Input =
    | BeginMsg(uid: nat, pick: Option<Source>, ok: bool)
    | ResetMsg(uid: nat)
    | StateMsg(uid: nat)
    | BattleMsg(message: Message)

  function RecordOf(c: ClientState, uid: nat): Record {
    if uid in c.players then c.players[uid] else NEW_RECORD
  }

  function WithRecord(c: ClientState, uid: nat, r: Record): ClientState {
    c.(players := c.players[uid := r])
  }

  predicate Busy(status: PlayerState) {
    status.Creating? || status.CreateUnknown? || status.Running?
  }

  // c.state(uid): a record exists afterwards.
  function Known(c: ClientState, uid: nat): ClientState {
    WithRecord(c, uid, RecordOf(c, uid))
  }

  function Begin(c: ClientState, uid: nat, pick: Option<Source>, ok: bool): Turn {
    var r := RecordOf(c, uid);
    if uid == 0 then Turn(c, [])
    else if Busy(r.status) then Turn(Known(c, uid), [])
    else if pick.None? then Turn(WithRecord(c, uid, r.(status := Idle)), [])
    else Turn(WithRecord(c, uid, Record(if ok then CreateUnknown else Idle, "", pick.value, 0, "", {})),
              [NewEpoch(uid), Start(uid, pick.value, ok)])
  }

  // Which battle a record will listen to.
  predicate Listens(r: Record, battleId: string) {
    r.battleId == "" || r.battleId == battleId
  }

  function OnCreated(c: ClientState, m: Message): Turn
    requires m.Created?
  {
    var r := RecordOf(c, m.uid);
    if m.uid == 0 || m.battleId == "" then Turn(c, [])
    else if !Listens(r, m.battleId) || !Busy(r.status) then Turn(Known(c, m.uid), [])
    else Turn(WithRecord(c, m.uid, r.(battleId := m.battleId, status := Running)), [Push(m.uid, m)])
  }

  function OnAction(c: ClientState, m: Message): Turn
    requires m.Action?
  {
    var r := RecordOf(c, m.uid);
    var sequence := m.event.sequence;
    if m.uid == 0 || m.battleId == "" then Turn(c, [])
    else if !r.status.Running? || r.battleId != m.battleId || sequence == 0 || sequence in r.seen then Turn(Known(c, m.uid), [])
    else Turn(WithRecord(c, m.uid, r.(seen := r.seen + {sequence},
                                      lastSequence := if sequence > r.lastSequence then sequence else r.lastSequence)),
              [Push(m.uid, m)])
  }

  function OnFinished(c: ClientState, m: Message): Turn
    requires m.Finished?
  {
    var r := RecordOf(c, m.uid);
    var confirm := ConfirmTo(r.node, m.battleId, m.uid);
    if m.uid == 0 || m.battleId == "" then Turn(c, [])
    else if !Listens(r, m.battleId) then Turn(Known(c, m.uid), [])
    else if m.battleId in c.completed then Turn(Known(c, m.uid), [confirm])
    else Turn(WithRecord(c, m.uid, r.(battleId := m.battleId, checksum := m.checksum, status := PlayerState.Finished))
                .(completed := c.completed[m.battleId := m.checksum]),
              [Push(m.uid, m), confirm])
  }

  function Reset(c: ClientState, uid: nat): Turn {
    if uid == 0 then Turn(c, [])
    else if Busy(RecordOf(c, uid).status) then Turn(Known(c, uid), [])
    else Turn(WithRecord(c, uid, NEW_RECORD), [NewEpoch(uid)])
  }

  function Handle(c: ClientState, input: Input): Turn {
    match input
    case BeginMsg(uid, pick, ok) => Begin(c, uid, pick, ok)
    case ResetMsg(uid) => Reset(c, uid)
    case StateMsg(uid) => Turn(if uid == 0 then c else Known(c, uid), [])
    case BattleMsg(m) =>
      match m
      case Created(_, _) => OnCreated(c, m)
      case Action(_, _, _) => OnAction(c, m)
      case Finished(_, _, _, _, _) => OnFinished(c, m)
  }

  class Client {
    var players: map<nat, Record>
    var completed: map<string, string>
    var effects: seq<Effect>

    function State(): ClientState
      reads this
    {
      ClientState(players, completed)
    }

    twostate predicate Did(t: Turn)
      reads this
    {
      State() == t.state && effects == old(effects) + t.effects
    }

    constructor ()
      ensures State() == ClientState(map[], map[]) && effects == []
    {
      players, completed, effects := map[], map[], [];
    }

    method Lookup(uid: nat) returns (r: Record)
      modifies this`players
      ensures State() == Known(old(State()), uid)
      ensures uid in players && r == players[uid] == RecordOf(old(State()), uid)
    {
      if uid !in players {
        players := players[uid := NEW_RECORD];
      }
      r := players[uid];
    }

    method Emit(e: Effect)
      modifies this`effects
      ensures effects == old(effects) + [e]
    {
      effects := effects + [e];
    }

    method HandleBegin(uid: nat, pick: Option<Source>, ok: bool)
      modifies this
      ensures Did(Begin(old(State()), uid, pick, ok))
    {
      if uid == 0 {
        return;
      }
      var r := Lookup(uid);
      if r.status.Creating? || r.status.CreateUnknown? || r.status.Running? {
        return;
      }
      if pick.None? {
        players := players[uid := r.(status := Idle)];
        return;
      }
      r := Record(Creating, "", pick.value, 0, "", {});
      Emit(NewEpoch(uid));
      Emit(Start(uid, pick.value, ok));
      if !ok {
        players := players[uid := r.(status := Idle)];
        return;
      }
      players := players[uid := r.(status := CreateUnknown)];
    }

    method HandleCreated(m: Message)
      requires m.Created?
      modifies this
      ensures Did(OnCreated(old(State()), m))
    {
      if m.uid == 0 || m.battleId == "" {
        return;
      }
      var r := Lookup(m.uid);
      if r.battleId != "" && r.battleId != m.battleId {
        return;
      }
      if !r.status.CreateUnknown? && !r.status.Creating? && !r.status.Running? {
        return;
      }
      players := players[m.uid := r.(battleId := m.battleId, status := Running)];
      Emit(Push(m.uid, m));
    }

    method HandleAction(m: Message)
      requires m.Action?
      modifies this
      ensures Did(OnAction(old(State()), m))
    {
      if m.uid == 0 || m.battleId == "" {
        return;
      }
      var r := Lookup(m.uid);
      if !r.status.Running? || r.battleId != m.battleId {
        return;
      }
      var sequence := m.event.sequence;
      if sequence == 0 {
        return;
      }
      if sequence in r.seen {
        return;
      }
      r := r.(seen := r.seen + {sequence});
      if sequence > r.lastSequence {
        r := r.(lastSequence := sequence);
      }
      players := players[m.uid := r];
      Emit(Push(m.uid, m));
    }

    method HandleFinished(m: Message)
      requires m.Finished?
      modifies this
      ensures Did(OnFinished(old(State()), m))
    {
      if m.uid == 0 || m.battleId == "" {
        return;
      }
      var r := Lookup(m.uid);
      if r.battleId != "" && r.battleId != m.battleId {
        return;
      }
      var alreadyApplied := m.battleId in completed;
      if !alreadyApplied {
        completed := completed[m.battleId := m.checksum];
        r := r.(battleId := m.battleId, checksum := m.checksum, status := PlayerState.Finished);
        players := players[m.uid := r];
        Emit(Push(m.uid, m));
      }
      Emit(ConfirmTo(r.node, m.battleId, m.uid));
    }

    method HandleReset(uid: nat)
      modifies this
      ensures Did(Reset(old(State()), uid))
    {
      if uid == 0 {
        return;
      }
      var r := Lookup(uid);
      if r.status.Creating? || r.status.CreateUnknown? || r.status.Running? {
        return;
      }
      players := players[uid := NEW_RECORD];
      Emit(NewEpoch(uid));
    }

    method HandleMessage(input: Input)
      modifies this
      ensures Did(Handle(old(State()), input))
    {
      match input
      case BeginMsg(uid, pick, ok) => HandleBegin(uid, pick, ok);
      case ResetMsg(uid) => HandleReset(uid);
      case StateMsg(uid) =>
        if uid != 0 {
          var r := Lookup(uid);
        }
      case BattleMsg(m) =>
        match m
        case Created(_, _) => HandleCreated(m);
        case Action(_, _, _) => HandleAction(m);
        case Finished(_, _, _, _, _) => HandleFinished(m);
    }
  }

  // ---- what the log of effects says about one player ----

  // A Start went out and no result was applied since.
  predicate OpenStart(log: seq<Effect>, uid: nat) {
    if log == [] then false else
      match log[|log| - 1]
      case Start(u, _, ok) => (u == uid && ok) || OpenStart(log[..|log| - 1], uid)
      case Push(u, m) => !(u == uid && m.Finished?) && OpenStart(log[..|log| - 1], uid)
      case _ => OpenStart(log[..|log| - 1], uid)
  }

  // The battle the current epoch has been about so far.
  function EpochBattle(log: seq<Effect>, uid: nat): string {
    if log == [] then "" else
      match log[|log| - 1]
      case NewEpoch(u) => if u == uid then "" else EpochBattle(log[..|log| - 1], uid)
      case Push(u, m) => if u == uid then m.battleId else EpochBattle(log[..|log| - 1], uid)
      case _ => EpochBattle(log[..|log| - 1], uid)
  }

  // The event sequences pushed in the current epoch.
  function PushedActions(log: seq<Effect>, uid: nat): set<nat> {
    if log == [] then {} else
      match log[|log| - 1]
      case NewEpoch(u) => if u == uid then {} else PushedActions(log[..|log| - 1], uid)
      case Push(u, m) => PushedActions(log[..|log| - 1], uid) + if u == uid && m.Action? then {m.event.sequence} else {}
      case _ => PushedActions(log[..|log| - 1], uid)
  }

  // The current epoch's battle was announced, and its result is still out.
  predicate Underway(log: seq<Effect>, uid: nat) {
    if log == [] then false else UnderwayBy(Underway(log[..|log| - 1], uid), log[|log| - 1], uid)
  }

  predicate UnderwayBy(underway: bool, e: Effect, uid: nat) {
    match e
    case NewEpoch(u) => u != uid && underway
    case Push(u, m) => if u != uid || m.Action? then underway else m.Created?
    case _ => underway
  }

  // The current epoch's Start went out, and nothing about its battle was heard.
  predicate Awaited(log: seq<Effect>, uid: nat) {
    if log == [] then false else AwaitedBy(Awaited(log[..|log| - 1], uid), log[|log| - 1], uid)
  }

  predicate AwaitedBy(awaited: bool, e: Effect, uid: nat) {
    match e
    case NewEpoch(u) => u != uid && awaited
    case Start(u, _, ok) => if u == uid then ok else awaited
    case Push(u, m) => (u != uid || m.Action?) && awaited
    case _ => awaited
  }

  // The node the current epoch's Start went to.
  function StartNode(log: seq<Effect>, uid: nat): Source {
    if log == [] then Source(0, 0) else StartedBy(StartNode(log[..|log| - 1], uid), log[|log| - 1], uid)
  }

  function StartedBy(node: Source, e: Effect, uid: nat): Source {
    match e
    case NewEpoch(u) => if u == uid then Source(0, 0) else node
    case Start(u, to, _) => if u == uid then to else node
    case _ => node
  }

  // The battles whose result was applied, by anyone, ever.
  function Applied(log: seq<Effect>): set<string> {
    if log == [] then {} else
      Applied(log[..|log| - 1])
        + var last := log[|log| - 1]; if last.Push? && last.message.Finished? then {last.message.battleId} else {}
  }

  // What each effect may be, given the effects before it.
  predicate Proper(log: seq<Effect>, e: Effect) {
    match e
    case Start(uid, _, ok) => ok ==> !OpenStart(log, uid)
    case Push(uid, m) =>
      && uid == m.uid && m.battleId != ""
      && (EpochBattle(log, uid) == "" || EpochBattle(log, uid) == m.battleId)
      && (m.Created? ==> Underway(log, uid) || Awaited(log, uid))
      && (m.Action? ==> Underway(log, uid) && EpochBattle(log, uid) == m.battleId && m.event.sequence !in PushedActions(log, uid))
      && (m.Finished? ==> m.battleId !in Applied(log))
    case ConfirmTo(_, battleId, _) => battleId in Applied(log)
    case NewEpoch(uid) => !OpenStart(log, uid)
  }

  ghost predicate Disciplined(log: seq<Effect>) {
    forall j :: 0 <= j < |log| ==> Proper(log[..j], log[j])
  }

  // The record of one player agrees with the log.
  ghost predicate Tracks(c: ClientState, log: seq<Effect>, uid: nat) {
    var r := RecordOf(c, uid);
    && r.seen == PushedActions(log, uid)
    && r.battleId == EpochBattle(log, uid)
    && r.node == StartNode(log, uid)
    && (OpenStart(log, uid) ==> r.status.CreateUnknown? || r.status.Running?)
    && !r.status.Creating?
    && (r.status.Running? <==> Underway(log, uid))
    && (r.status.CreateUnknown? <==> Awaited(log, uid))
    && (r.status.CreateUnknown? ==> r.battleId == "")
    && (r.status.Running? ==> r.battleId != "")
    && (r.status.Finished? ==> r.battleId in c.completed && c.completed[r.battleId] == r.checksum)
    && IsMaximum(r.lastSequence, r.seen)
  }

  // The last sequence is the largest one seen, zero while nothing was.
  ghost predicate IsMaximum(last: nat, seen: set<nat>) {
    && 0 !in seen
    && (forall n :: n in seen ==> n <= last)
    && (if seen == {} then last == 0 else last in seen)
  }

  ghost predicate Consistent(c: ClientState, log: seq<Effect>) {
    && Disciplined(log)
    && Applied(log) == c.completed.Keys
    && forall uid: nat :: Tracks(c, log, uid)
  }

  lemma LogAppend(log: seq<Effect>, e: Effect, uid: nat)
    ensures OpenStart(log + [e], uid) ==
            match e
            case Start(u, _, ok) => (u == uid && ok) || OpenStart(log, uid)
            case Push(u, m) => !(u == uid && m.Finished?) && OpenStart(log, uid)
            case _ => OpenStart(log, uid)
    ensures EpochBattle(log + [e], uid) ==
            match e
            case NewEpoch(u) => if u == uid then "" else EpochBattle(log, uid)
            case Push(u, m) => if u == uid then m.battleId else EpochBattle(log, uid)
            case _ => EpochBattle(log, uid)
    ensures PushedActions(log + [e], uid) ==
            match e
            case NewEpoch(u) => if u == uid then {} else PushedActions(log, uid)
            case Push(u, m) => PushedActions(log, uid) + if u == uid && m.Action? then {m.event.sequence} else {}
            case _ => PushedActions(log, uid)
    ensures Underway(log + [e], uid) == UnderwayBy(Underway(log, uid), e, uid)
    ensures Awaited(log + [e], uid) == AwaitedBy(Awaited(log, uid), e, uid)
    ensures StartNode(log + [e], uid) == StartedBy(StartNode(log, uid), e, uid)
    ensures Applied(log + [e]) == Applied(log) + if e.Push? && e.message.Finished? then {e.message.battleId} else {}
  {
  }

  lemma DisciplineAppend(log: seq<Effect>, e: Effect)
    requires Disciplined(log) && Proper(log, e)
    ensures Disciplined(log + [e])
  {
    hide Proper;
    var all := log + [e];
    forall j | 0 <= j < |all| ensures Proper(all[..j], all[j]) {
      assert all[..j] == if j < |log| then log[..j] else log;
    }
  }

  lemma BeginIsConsistent(c: ClientState, log: seq<Effect>, uid: nat, pick: Option<Source>, ok: bool)
    requires Consistent(c, log)
    ensures var t := Begin(c, uid, pick, ok); Consistent(t.state, log + t.effects)
  {
    hide OpenStart, EpochBattle, PushedActions, Underway, Awaited, StartNode, Applied, Disciplined;
    var t := Begin(c, uid, pick, ok);
    assert log + [] == log;
    assert Tracks(c, log, uid);
    if t.effects != [] {
      var e1, e2 := NewEpoch(uid), Start(uid, pick.value, ok);
      assert log + t.effects == (log + [e1]) + [e2];
      DisciplineAppend(log, e1);
      LogAppend(log, e1, uid);
      DisciplineAppend(log + [e1], e2);
      LogAppend(log + [e1], e2, uid);
    }
    forall u: nat ensures Tracks(t.state, log + t.effects, u) {
      assert Tracks(c, log, u);
      if t.effects != [] {
        LogAppend(log, NewEpoch(uid), u);
        LogAppend(log + [NewEpoch(uid)], Start(uid, pick.value, ok), u);
      }
    }
  }

  lemma ResetIsConsistent(c: ClientState, log: seq<Effect>, uid: nat)
    requires Consistent(c, log)
    ensures var t := Reset(c, uid); Consistent(t.state, log + t.effects)
  {
    hide OpenStart, EpochBattle, PushedActions, Underway, Awaited, StartNode, Applied, Disciplined;
    var t := Reset(c, uid);
    assert log + [] == log;
    assert Tracks(c, log, uid);
    if t.effects != [] {
      DisciplineAppend(log, NewEpoch(uid));
      LogAppend(log, NewEpoch(uid), uid);
    }
    forall u: nat ensures Tracks(t.state, log + t.effects, u) {
      assert Tracks(c, log, u);
      if t.effects != [] {
        LogAppend(log, NewEpoch(uid), u);
      }
    }
  }

  lemma PushIsConsistent(c: ClientState, log: seq<Effect>, m: Message)
    requires Consistent(c, log) && (m.Created? || m.Action?)
    ensures var t := Handle(c, BattleMsg(m)); Consistent(t.state, log + t.effects)
  {
    hide OpenStart, EpochBattle, PushedActions, Underway, Awaited, StartNode, Applied, Disciplined;
    var t := Handle(c, BattleMsg(m));
    assert log + [] == log;
    assert Tracks(c, log, m.uid);
    if t.effects != [] {
      DisciplineAppend(log, Push(m.uid, m));
      LogAppend(log, Push(m.uid, m), m.uid);
    }
    forall u: nat ensures Tracks(t.state, log + t.effects, u) {
      assert Tracks(c, log, u);
      if t.effects != [] {
        LogAppend(log, Push(m.uid, m), u);
      }
    }
  }

  lemma FinishedIsConsistent(c: ClientState, log: seq<Effect>, m: Message)
    requires Consistent(c, log) && m.Finished?
    ensures var t := OnFinished(c, m); Consistent(t.state, log + t.effects)
  {
    hide OpenStart, EpochBattle, PushedActions, Underway, Awaited, StartNode, Applied, Disciplined, IsMaximum;
    var t := OnFinished(c, m);
    assert log + [] == log;
    assert Tracks(c, log, m.uid);
    var confirm := ConfirmTo(RecordOf(c, m.uid).node, m.battleId, m.uid);
    var log1 := log + [Push(m.uid, m)];
    if |t.effects| == 1 {
      DisciplineAppend(log, confirm);
      LogAppend(log, confirm, m.uid);
    } else if |t.effects| == 2 {
      assert log + t.effects == log1 + [confirm];
      DisciplineAppend(log, Push(m.uid, m));
      LogAppend(log, Push(m.uid, m), m.uid);
      DisciplineAppend(log1, confirm);
      LogAppend(log1, confirm, m.uid);
    }
    forall u: nat ensures Tracks(t.state, log + t.effects, u) {
      assert Tracks(c, log, u);
      if |t.effects| == 1 {
        LogAppend(log, confirm, u);
      } else if |t.effects| == 2 {
        LogAppend(log, Push(m.uid, m), u);
        LogAppend(log1, confirm, u);
      }
    }
  }

  lemma HandleIsConsistent(c: ClientState, log: seq<Effect>, input: Input)
    requires Consistent(c, log)
    ensures var t := Handle(c, input); Consistent(t.state, log + t.effects)
  {
    hide Begin, Reset, OnCreated, OnAction, OnFinished, Consistent;
    match input
    case BeginMsg(uid, pick, ok) => BeginIsConsistent(c, log, uid, pick, ok);
    case ResetMsg(uid) => ResetIsConsistent(c, log, uid);
    case StateMsg(uid) => LookingIsConsistent(c, log, uid);
    case BattleMsg(m) =>
      if m.Finished? {
        FinishedIsConsistent(c, log, m);
      } else {
        PushIsConsistent(c, log, m);
      }
  }

  lemma LookingIsConsistent(c: ClientState, log: seq<Effect>, uid: nat)
    requires Consistent(c, log)
    ensures Consistent(c, log + []) && Consistent(Known(c, uid), log + [])
  {
    hide OpenStart, EpochBattle, PushedActions, Underway, Awaited, StartNode, Applied, Disciplined, IsMaximum;
    assert log + [] == log;
    forall u: nat ensures Tracks(Known(c, uid), log, u) {
      assert Tracks(c, log, u);
    }
  }

  // ---- every run ----

  const NEW_CLIENT := ClientState(map[], map[])

  function RunOf(inputs: seq<Input>): Turn {
    if inputs == [] then Turn(NEW_CLIENT, []) else
      var before := RunOf(inputs[..|inputs| - 1]);
      var t := Handle(before.state, inputs[|inputs| - 1]);
      Turn(t.state, before.effects + t.effects)
  }

  // Whatever messages arrive in whatever order, every effect is proper and every record
  // agrees with the log; a Finished record's checksum is the one on file for its battle.
  lemma {:induction false} ClientIsDisciplined(inputs: seq<Input>)
    ensures Consistent(RunOf(inputs).state, RunOf(inputs).effects)
  {
    hide Handle, Consistent;
    if inputs == [] {
      NewClientIsConsistent();
    } else {
      var before := RunOf(inputs[..|inputs| - 1]);
      ClientIsDisciplined(inputs[..|inputs| - 1]);
      HandleIsConsistent(before.state, before.effects, inputs[|inputs| - 1]);
    }
  }

  lemma NewClientIsConsistent()
    ensures Consistent(NEW_CLIENT, [])
  {
  }

  lemma {:induction false} AppliedIsInLog(log: seq<Effect>, i: nat)
    requires i < |log| && log[i].Push? && log[i].message.Finished?
    ensures log[i].message.battleId in Applied(log)
  {
    if i < |log| - 1 {
      AppliedIsInLog(log[..|log| - 1], i);
    }
  }

  // A battle's result is pushed to the game at most once over the whole run.
  lemma ResultAppliedAtMostOnce(inputs: seq<Input>, i: nat, j: nat)
    requires i < j < |RunOf(inputs).effects|
    requires var log := RunOf(inputs).effects; log[i].Push? && log[i].message.Finished? && log[j].Push? && log[j].message.Finished?
    ensures RunOf(inputs).effects[i].message.battleId != RunOf(inputs).effects[j].message.battleId
  {
    hide RunOf, Applied;
    ClientIsDisciplined(inputs);
    var log := RunOf(inputs).effects;
    assert Proper(log[..j], log[j]);
    AppliedIsInLog(log[..j], i);
  }

  lemma {:induction false} OpenUntilApplied(log: seq<Effect>, uid: nat, i: nat)
    requires i < |log| && log[i].Start? && log[i].uid == uid && log[i].ok && !OpenStart(log, uid)
    ensures exists m :: i < m < |log| && log[m].Push? && log[m].uid == uid && log[m].message.Finished?
  {
    var last := log[|log| - 1];
    var front := log[..|log| - 1];
    if !(last.Push? && last.uid == uid && last.message.Finished?) {
      OpenUntilApplied(front, uid, i);
      var m :| i < m < |front| && front[m].Push? && front[m].uid == uid && front[m].message.Finished?;
      assert log[m] == front[m];
    }
  }

  // Between two successful Starts for one player a result was applied for that player.
  lemma StartsAreSeparated(inputs: seq<Input>, uid: nat, i: nat, j: nat)
    requires i < j < |RunOf(inputs).effects|
    requires var log := RunOf(inputs).effects; log[i].Start? && log[i].ok && log[j].Start? && log[j].ok && log[i].uid == log[j].uid == uid
    ensures var log := RunOf(inputs).effects;
            exists m :: i < m < j && log[m].Push? && log[m].uid == uid && log[m].message.Finished?
  {
    hide RunOf, OpenStart;
    ClientIsDisciplined(inputs);
    var log := RunOf(inputs).effects;
    assert Proper(log[..j], log[j]);
    OpenUntilApplied(log[..j], uid, i);
    var m :| i < m < j && log[..j][m].Push? && log[..j][m].uid == uid && log[..j][m].message.Finished?;
    assert log[m] == log[..j][m];
  }

  ghost predicate SameEpoch(log: seq<Effect>, uid: nat, i: nat, j: nat) {
    forall m :: i < m < j && m < |log| ==> log[m] != NewEpoch(uid)
  }

  lemma {:induction false} EpochRemembers(log: seq<Effect>, uid: nat, i: nat)
    requires i < |log| && log[i].Push? && log[i].uid == uid && SameEpoch(log, uid, i, |log|)
    requires Disciplined(log)
    ensures EpochBattle(log, uid) == log[i].message.battleId
    ensures log[i].message.Action? ==> log[i].message.event.sequence in PushedActions(log, uid)
  {
    if i < |log| - 1 {
      var front := log[..|log| - 1];
      assert Disciplined(front) by {
        forall j | 0 <= j < |front| ensures Proper(front[..j], front[j]) {
          assert front[..j] == log[..j] && Proper(log[..j], log[j]);
        }
      }
      EpochRemembers(front, uid, i);
      assert Proper(log[..|log| - 1], log[|log| - 1]);
    }
  }

  // Within an epoch everything pushed to a player is about one battle, and no event
  // sequence is pushed twice.
  lemma EpochIsAboutOneBattle(inputs: seq<Input>, uid: nat, i: nat, j: nat)
    requires i < j < |RunOf(inputs).effects|
    requires var log := RunOf(inputs).effects;
             log[i].Push? && log[j].Push? && log[i].uid == log[j].uid == uid && SameEpoch(log, uid, i, j)
    ensures var log := RunOf(inputs).effects;
            && log[i].message.battleId == log[j].message.battleId
            && (log[i].message.Action? && log[j].message.Action? ==>
                  log[i].message.event.sequence != log[j].message.event.sequence)
  {
    hide RunOf, EpochBattle, PushedActions, Applied, OpenStart;
    ClientIsDisciplined(inputs);
    var log := RunOf(inputs).effects;
    assert Proper(log[..j], log[j]);
    assert Disciplined(log[..j]) by {
      forall k | 0 <= k < j ensures Proper(log[..j][..k], log[..j][k]) {
        assert log[..j][..k] == log[..k] && Proper(log[..k], log[k]);
      }
    }
    EpochRemembers(log[..j], uid, i);
  }

  // ---- which battle a new session adopts ----

  // What one more message adds to the log of a run is decided by that log alone.
  lemma NextTurn(inputs: seq<Input>, input: Input, uid: nat)
    ensures RunOf(inputs + [input]).effects == RunOf(inputs).effects + Handle(RunOf(inputs).state, input).effects
    ensures Tracks(RunOf(inputs).state, RunOf(inputs).effects, uid)
    ensures Applied(RunOf(inputs).effects) == RunOf(inputs).state.completed.Keys
  {
    hide Handle, Tracks;
    ClientIsDisciplined(inputs);
    assert (inputs + [input])[..|inputs|] == inputs;
  }

  // The player has a session that waits for its battle or is in it.
  predicate InSession(log: seq<Effect>, uid: nat) {
    Awaited(log, uid) || Underway(log, uid)
  }

  // The current epoch knows no battle yet, or this one.
  predicate Concerns(log: seq<Effect>, uid: nat, battleId: string) {
    EpochBattle(log, uid) == "" || EpochBattle(log, uid) == battleId
  }

  // After any run, a Begin sends a Start, to the node picked, exactly if no session is open.
  lemma BeginsExactly(inputs: seq<Input>, uid: nat, pick: Option<Source>, ok: bool)
    ensures var log := RunOf(inputs).effects;
            RunOf(inputs + [BeginMsg(uid, pick, ok)]).effects ==
              if uid != 0 && !InSession(log, uid) && pick.Some? then log + [NewEpoch(uid), Start(uid, pick.value, ok)] else log
  {
    hide RunOf, Awaited, Underway, EpochBattle, OpenStart, PushedActions, StartNode, Applied, IsMaximum;
    NextTurn(inputs, BeginMsg(uid, pick, ok), uid);
    assert RunOf(inputs).effects + [] == RunOf(inputs).effects;
  }

  // A Reset wipes the record exactly if no session is open.
  lemma ResetsExactly(inputs: seq<Input>, uid: nat)
    ensures var log := RunOf(inputs).effects;
            RunOf(inputs + [ResetMsg(uid)]).effects == if uid != 0 && !InSession(log, uid) then log + [NewEpoch(uid)] else log
  {
    hide RunOf, Awaited, Underway, EpochBattle, OpenStart, PushedActions, StartNode, Applied, IsMaximum;
    NextTurn(inputs, ResetMsg(uid), uid);
    assert RunOf(inputs).effects + [] == RunOf(inputs).effects;
  }

  // A Created is shown exactly if the epoch waits for a battle, whichever battle that is, or
  // is about this one and still open. A fresh session adopts whatever is announced first.
  lemma AdoptsExactly(inputs: seq<Input>, m: Message)
    requires m.Created?
    ensures var log := RunOf(inputs).effects;
            RunOf(inputs + [BattleMsg(m)]).effects ==
              if m.uid != 0 && m.battleId != "" && InSession(log, m.uid) && Concerns(log, m.uid, m.battleId)
              then log + [Push(m.uid, m)] else log
  {
    hide RunOf, Awaited, Underway, EpochBattle, OpenStart, PushedActions, StartNode, Applied, IsMaximum;
    NextTurn(inputs, BattleMsg(m), m.uid);
    assert RunOf(inputs).effects + [] == RunOf(inputs).effects;
  }

  // An event is shown exactly if its battle is under way for the player and no event of its
  // sequence number was shown in this epoch.
  lemma ActionsExactly(inputs: seq<Input>, m: Message)
    requires m.Action?
    ensures var log := RunOf(inputs).effects;
            RunOf(inputs + [BattleMsg(m)]).effects ==
              if && m.uid != 0 && m.battleId != "" && m.event.sequence != 0
                 && Underway(log, m.uid) && EpochBattle(log, m.uid) == m.battleId
                 && m.event.sequence !in PushedActions(log, m.uid)
              then log + [Push(m.uid, m)] else log
  {
    hide RunOf, Awaited, Underway, EpochBattle, OpenStart, PushedActions, StartNode, Applied, IsMaximum;
    NextTurn(inputs, BattleMsg(m), m.uid);
    assert RunOf(inputs).effects + [] == RunOf(inputs).effects;
  }

  // A result that concerns the epoch is applied exactly if that battle's result never was,
  // and confirmed to the epoch's node in any case, duplicates included.
  lemma ResultsExactly(inputs: seq<Input>, m: Message)
    requires m.Finished?
    ensures var log := RunOf(inputs).effects;
            var confirm := ConfirmTo(StartNode(log, m.uid), m.battleId, m.uid);
            RunOf(inputs + [BattleMsg(m)]).effects ==
              if m.uid == 0 || m.battleId == "" || !Concerns(log, m.uid, m.battleId) then log
              else if m.battleId in Applied(log) then log + [confirm]
              else log + [Push(m.uid, m), confirm]
    ensures var log, c := RunOf(inputs).effects, RunOf(inputs + [BattleMsg(m)]).state;
            m.uid != 0 && m.battleId != "" && Concerns(log, m.uid, m.battleId) && m.battleId !in Applied(log) ==>
              && m.battleId in c.completed && c.completed[m.battleId] == m.checksum
              && RecordOf(c, m.uid).status == PlayerState.Finished && RecordOf(c, m.uid).checksum == m.checksum
  {
    hide RunOf, Awaited, Underway, EpochBattle, OpenStart, PushedActions, StartNode, Applied, IsMaximum;
    NextTurn(inputs, BattleMsg(m), m.uid);
    RunAppend(inputs, BattleMsg(m));
    assert RunOf(inputs).effects + [] == RunOf(inputs).effects;
  }

  // The checksum the current epoch's result came with.
  function EpochChecksum(log: seq<Effect>, uid: nat): string {
    if log == [] then "" else ChecksumBy(EpochChecksum(log[..|log| - 1], uid), log[|log| - 1], uid)
  }

  function ChecksumBy(checksum: string, e: Effect, uid: nat): string {
    if e == NewEpoch(uid) then ""
    else if e.Push? && e.uid == uid && e.message.Finished? then e.message.checksum
    else checksum
  }

  // The player rests on a result: it was applied for the player, and no Begin or Reset that
  // found the player out of session came after it.
  ghost predicate Rests(inputs: seq<Input>, uid: nat) {
    if inputs == [] then false else
      var before, last := inputs[..|inputs| - 1], inputs[|inputs| - 1];
      RestsBy(Rests(before, uid), RunOf(before).effects, last, uid)
  }

  predicate RestsBy(rests: bool, log: seq<Effect>, input: Input, uid: nat) {
    if input.BeginMsg? || input.ResetMsg? then
      rests && (input.uid == uid ==> InSession(log, uid))
    else
      rests || (input.BattleMsg? && AppliesFor(log, input.message, uid))
  }

  // m is a result that the client applies for the player.
  predicate AppliesFor(log: seq<Effect>, m: Message, uid: nat) {
    m.Finished? && m.uid == uid && uid != 0 && m.battleId != "" && Concerns(log, uid, m.battleId) && m.battleId !in Applied(log)
  }

  // One message moves the resting state of a record as the log says.
  lemma RestMoves(c: ClientState, log: seq<Effect>, input: Input, uid: nat)
    requires Tracks(c, log, uid) && Applied(log) == c.completed.Keys
    requires uid == 0 ==> RecordOf(c, uid) == NEW_RECORD
    ensures RecordOf(Handle(c, input).state, uid).status == PlayerState.Finished <==>
              RestsBy(RecordOf(c, uid).status == PlayerState.Finished, log, input, uid)
    ensures uid == 0 ==> RecordOf(Handle(c, input).state, uid) == NEW_RECORD
  {
    hide Awaited, Underway, EpochBattle, OpenStart, PushedActions, StartNode, Applied, IsMaximum;
  }

  // One message moves the checksum of a record as the log says.
  lemma ChecksumMoves(c: ClientState, log: seq<Effect>, input: Input, uid: nat)
    requires RecordOf(c, uid).checksum == EpochChecksum(log, uid)
    ensures RecordOf(Handle(c, input).state, uid).checksum == EpochChecksum(log + Handle(c, input).effects, uid)
  {
    hide EpochChecksum, Busy, Listens;
    ChecksumAppend(log, Handle(c, input).effects, uid);
    match input
    case BeginMsg(_, _, _) =>
    case ResetMsg(_) =>
    case StateMsg(_) =>
    case BattleMsg(m) =>
      match m
      case Created(_, _) =>
      case Action(_, _, _) =>
      case Finished(_, _, _, _, _) =>
  }

  lemma ChecksumAppend(log: seq<Effect>, es: seq<Effect>, uid: nat)
    requires |es| <= 2
    ensures EpochChecksum(log + es, uid) ==
            var checksum := EpochChecksum(log, uid);
            if |es| == 0 then checksum
            else if |es| == 1 then ChecksumBy(checksum, es[0], uid)
            else ChecksumBy(ChecksumBy(checksum, es[0], uid), es[1], uid)
  {
    hide ChecksumBy;
    if |es| == 0 {
      assert log + es == log;
    } else {
      assert (log + es)[..|log + es| - 1] == log + es[..|es| - 1];
      if |es| == 2 {
        assert (log + es[..1])[..|log|] == log;
      } else {
        assert log + es[..0] == log;
      }
    }
  }

  lemma {:induction false} RestIsExact(inputs: seq<Input>, uid: nat)
    ensures RecordOf(RunOf(inputs).state, uid).status == PlayerState.Finished <==> Rests(inputs, uid)
    ensures RecordOf(RunOf(inputs).state, uid).checksum == EpochChecksum(RunOf(inputs).effects, uid)
    ensures uid == 0 ==> RecordOf(RunOf(inputs).state, uid) == NEW_RECORD
  {
    hide Handle, Tracks, InSession, Concerns, Applied;
    if inputs != [] {
      var before, last := inputs[..|inputs| - 1], inputs[|inputs| - 1];
      RestIsExact(before, uid);
      NextTurn(before, last, uid);
      assert before + [last] == inputs;
      hide EpochChecksum, RestsBy;
      RestMoves(RunOf(before).state, RunOf(before).effects, last, uid);
      ChecksumMoves(RunOf(before).state, RunOf(before).effects, last, uid);
    }
  }

  // What the client answers when asked for a player's state, after any run: every field is
  // determined by what the client did, and by which Begin or Reset came last.
  lemma StateIsExact(inputs: seq<Input>, uid: nat)
    ensures var log, r := RunOf(inputs).effects, RecordOf(RunOf(inputs).state, uid);
            && r.status == (if Underway(log, uid) then Running
                            else if Awaited(log, uid) then CreateUnknown
                            else if Rests(inputs, uid) then PlayerState.Finished else Idle)
            && r.battleId == EpochBattle(log, uid)
            && r.node == StartNode(log, uid)
            && r.checksum == EpochChecksum(log, uid)
            && (forall n :: n in PushedActions(log, uid) ==> n <= r.lastSequence)
            && (if PushedActions(log, uid) == {} then r.lastSequence == 0 else r.lastSequence in PushedActions(log, uid))
  {
    hide RunOf, Awaited, Underway, EpochBattle, OpenStart, PushedActions, StartNode, EpochChecksum, Rests, Applied;
    RestIsExact(inputs, uid);
    NextTurn(inputs, StateMsg(uid), uid);
  }

  // A running session whose battle's result was already applied.
  predicate Stuck(c: ClientState, uid: nat) {
    var r := RecordOf(c, uid);
    r.status.Running? && r.battleId != "" && r.battleId in c.completed
  }

  // A running session can end, by whatever message, exactly while its battle's result has
  // not been applied yet.
  lemma RunningEndsExactly(c: ClientState, uid: nat)
    requires uid != 0 && RecordOf(c, uid).status.Running? && RecordOf(c, uid).battleId != ""
    ensures (exists input :: !RecordOf(Handle(c, input).state, uid).status.Running?) <==> !Stuck(c, uid)
  {
    var r := RecordOf(c, uid);
    if Stuck(c, uid) {
      forall input ensures RecordOf(Handle(c, input).state, uid).status.Running? {
        StuckStays(c, input, uid);
      }
    } else {
      var last := BattleMsg(Message.Finished(r.battleId, uid, Draw, [], ""));
      assert !RecordOf(Handle(c, last).state, uid).status.Running?;
    }
  }

  lemma StuckStays(c: ClientState, input: Input, uid: nat)
    requires Stuck(c, uid)
    ensures var t := Handle(c, input);
            && Stuck(t.state, uid) && RecordOf(t.state, uid).battleId == RecordOf(c, uid).battleId
            && forall e :: e in t.effects ==> !(e.Start? && e.uid == uid) && !(e.Push? && e.uid == uid && e.message.Finished?)
  {
    match input
    case BeginMsg(_, _, _) =>
    case ResetMsg(_) =>
    case StateMsg(_) =>
    case BattleMsg(m) =>
      match m
      case Created(_, _) =>
      case Action(_, _, _) =>
      case Finished(_, _, _, _, _) =>
  }

  function StateAfter(c: ClientState, inputs: seq<Input>): ClientState
    decreases |inputs|
  {
    if inputs == [] then c else StateAfter(Handle(c, inputs[0]).state, inputs[1..])
  }

  // From then on nothing ever frees the player: not the game, not any battle message.
  lemma {:induction false} StuckForever(c: ClientState, inputs: seq<Input>, uid: nat)
    requires Stuck(c, uid)
    ensures Stuck(StateAfter(c, inputs), uid)
    decreases |inputs|
  {
    hide Stuck, Handle;
    if inputs != [] {
      StuckStays(c, inputs[0], uid);
      StuckForever(Handle(c, inputs[0]).state, inputs[1..], uid);
    }
  }

  // It happens: the announcement of a battle arrives after its result, when the next
  // session has begun but knows no battle yet.
  lemma LateCreatedIsAdopted()
    ensures var inputs := [BeginMsg(7, Some(Source(1, 1)), true),
                           BattleMsg(Message.Finished("old", 7, Draw, [], "sum")),
                           BeginMsg(7, Some(Source(1, 1)), true),
                           BattleMsg(Created("old", 7))];
            Stuck(RunOf(inputs).state, 7)
  {
    var a := BeginMsg(7, Some(Source(1, 1)), true);
    var b := BattleMsg(Message.Finished("old", 7, Draw, [], "sum"));
    var d := BattleMsg(Created("old", 7));
    assert RunOf([]) == Turn(NEW_CLIENT, []);
    hide RunOf;
    RunAppend([], a);
    RunAppend([a], b);
    RunAppend([a, b], a);
    RunAppend([a, b, a], d);
    assert [] + [a] == [a] && [a] + [b] == [a, b] && [a, b] + [a] == [a, b, a] && [a, b, a] + [d] == [a, b, a, d];
    var begun := Record(CreateUnknown, "", Source(1, 1), 0, "", {});
    assert RunOf([a]).state == ClientState(map[7 := begun], map[]);
    assert RunOf([a, b]).state.completed == map["old" := "sum"];
    assert RecordOf(RunOf([a, b]).state, 7).status == PlayerState.Finished;
    assert RecordOf(RunOf([a, b, a]).state, 7) == begun && "old" in RunOf([a, b, a]).state.completed;
  }

  lemma RunAppend(inputs: seq<Input>, input: Input)
    ensures RunOf(inputs + [input]).state == Handle(RunOf(inputs).state, input).state
  {
  }
}
