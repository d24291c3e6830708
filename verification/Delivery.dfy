// The whole delivery system: battle actors, their manager and report store on one side,
// the clients of many game nodes on the other, and between them a network that may lose,
// duplicate and reorder every message. Handlers are the very functions the actors and
// clients are proved against; each effect of a handler is a separate step of the world.
module Delivery {
  import opened Common
  import opened BattleModel
  import opened Config
  import opened Protocol
  import opened BattleActors
  import opened BattleManagers
  import Clients = BattleClients

  // An actor with everything it ever decided to do, of which the first `done` are done.
  datatype Slot = Slot(life: Life, done: nat, pid: nat)

  datatype Packet =
    | Push(to: Source, message: Message)
    | Confirmation(battleId: string, uid: nat)

  // A game node: its client and the log of everything the client did.
  type Node = Clients.Turn

  // `net` holds every packet ever sent: a packet may be delivered any number of times, in
  // any order, or never. `stops` are the unread ActorStopped messages, `reaped` the read ones.
  datatype World = World(
    actors: map<string, Slot>, active: Registry, stops: multiset<(string, nat)>, reaped: set<string>,
    reports: Reports, net: set<Packet>, nodes: map<Source, Node>)

  const MANAGER := 1
  const EMPTY := World(map[], map[], multiset{}, {}, map[], {}, map[])

  datatype Step =
    | Spawn(req: Request, battleId: string, seeded: bool, pid: nat)
    | Begins(battleId: string, answers: Answers)
    | Performs(battleId: string, ok: bool)
    | Fires(battleId: string)
    | Ticks(battleId: string)
    | Confirmed(battleId: string, uid: nat)
    | Retires(battleId: string)
    | StopRead(battleId: string, pid: nat)
    | Plays(node: Source, input: Clients.Input)

  predicate Idle(w: World, b: string) {
    b in w.actors && w.actors[b].done == |w.actors[b].life.effects|
  }

  function NodeOf(w: World, n: Source): Node {
    if n in w.nodes then w.nodes[n] else Clients.Turn(Clients.NEW_CLIENT, [])
  }

  // The battle ID is fresh (a UUID), a handler runs only when the previous one is through
  // with its effects, and only packets that were sent are delivered.
  predicate Enabled(w: World, step: Step) {
    match step
    case Spawn(req, b, seeded, _) => Accepts(req) && seeded && b != "" && b !in w.actors
    case Begins(b, answers) => Idle(w, b) && Plausible(b, answers)
    case Performs(b, _) => b in w.actors && w.actors[b].done < |w.actors[b].life.effects|
    case Fires(b) => b in w.actors
    case Ticks(b) => Idle(w, b)
    case Confirmed(b, uid) => Idle(w, b) && Confirmation(b, uid) in w.net
    case Retires(b) => Idle(w, b)
    case StopRead(b, pid) => (b, pid) in w.stops
    case Plays(n, input) => input.BattleMsg? ==> Push(n, input.message) in w.net
  }

  // A battle built for b reports b; see EngineAnswersArePlausible.
  predicate Plausible(b: string, answers: Answers) {
    answers.result.Some? ==> answers.result.value.battleId == b
  }

  function Living(w: World, b: string, input: BattleActors.Input): World
    requires b in w.actors
  {
    w.(actors := w.actors[b := w.actors[b].(life := Lived(w.actors[b].life, input))])
  }

  // One effect takes place; `ok` is false when a notification is lost or the store fails.
  function Perform(w: World, slot: Slot, e: Effect, ok: bool): World {
    match e
    case Notify(to, m) => if ok then w.(net := w.net + {Push(to, m)}) else w
    case SaveReport(report) => w.(reports := w.reports[report.battleId := report])
    case ConfirmReport(b) => if ok then w.(reports := Confirm(w.reports, b)) else w
    case TellManager(b) => w.(stops := w.stops + multiset{(b, slot.pid)})
    case StopSelf => w
  }

  function ConfirmationsOf(effects: seq<Clients.Effect>): set<Packet> {
    set e | e in effects && e.ConfirmTo? :: Confirmation(e.battleId, e.uid)
  }

  function Played(w: World, n: Source, input: Clients.Input): World {
    var before := NodeOf(w, n);
    var t := Clients.Handle(before.state, input);
    w.(nodes := w.nodes[n := Clients.Turn(t.state, before.effects + t.effects)],
       net := w.net + ConfirmationsOf(t.effects))
  }

  function Apply(w: World, step: Step): World {
    if !Enabled(w, step) then w else
      match step
      case Spawn(req, b, _, pid) =>
        w.(actors := w.actors[b := Slot(Newborn(ParamsFor(MANAGER, b, req)), 0, pid)], active := w.active[b := pid])
      case Begins(b, answers) => Living(w, b, Init(answers))
      case Performs(b, ok) =>
        var slot := w.actors[b];
        Perform(w, slot, slot.life.effects[slot.done], ok).(actors := w.actors[b := slot.(done := slot.done + 1)])
      case Fires(b) => Living(w, b, Fire)
      case Ticks(b) => Living(w, b, Tick)
      case Confirmed(b, _) => Living(w, b, ConfirmMsg(b))
      case Retires(b) => Living(w, b, Retire)
      case StopRead(b, pid) =>
        w.(stops := w.stops - multiset{(b, pid)}, active := Forget(w.active, b, pid), reaped := w.reaped + {b})
      case Plays(n, input) => Played(w, n, input)
  }

  function After(steps: seq<Step>): World {
    if steps == [] then EMPTY else Apply(After(steps[..|steps| - 1]), steps[|steps| - 1])
  }

  // What the engine answers when asked to build and run a battle.
  ghost function EngineAnswers(setup: Setup, digest: Result -> string, saved: bool): Answers {
    if Valid(setup) then Answers(true, Run(setup, digest), saved) else Answers(false, None, saved)
  }

  lemma EngineAnswersArePlausible(setup: Setup, digest: Result -> string, saved: bool)
    ensures Plausible(setup.battleId, EngineAnswers(setup, digest, saved))
  {
  }

  // ---- the invariant of one actor ----

  predicate Reported(slot: Slot) {
    slot.life.state.report.battleId != ""
  }

  // What the effect at position i of an actor's log may be. Results leave only behind the save.
  predicate EffectOk(slot: Slot, i: nat)
    requires i < |slot.life.effects|
  {
    var report := slot.life.state.report;
    var p := slot.life.state.p;
    match slot.life.effects[i]
    case Notify(to, m) => if m.Created? then AnnouncementOf(p, to, m) else Reported(slot) && i > 1 && MessageOf(report, to, m)
    case SaveReport(r) => Reported(slot) && i == 1 && r == report
    case ConfirmReport(b) => b == p.battleId
    case TellManager(b) => b == p.battleId
    case StopSelf => true
  }

  // m announces the battle to the node and for the player that asked.
  predicate AnnouncementOf(p: Params, to: Source, m: Message) {
    m.Created? && to == p.source && m.battleId == p.battleId && m.uid == p.uid
  }

  // m is part of the result stream of the report, addressed to its source.
  predicate MessageOf(report: Report, to: Source, m: Message) {
    && to == report.source
    && match m
       case Created(_, _) => false
       case Action(b, uid, event) => b == report.battleId && uid == report.uid && event in report.result.events
       case Finished(_, _, _, _, _) => m == FinishedOf(report)
  }

  ghost predicate LogOk(slot: Slot) {
    forall i :: 0 <= i < |slot.life.effects| ==> EffectOk(slot, i)
  }

  ghost predicate SlotOk(reports: Reports, b: string, slot: Slot) {
    var l := slot.life;
    var report := l.state.report;
    && b != "" && l.state.p.battleId == b && l.state.p.mode.ModeRun? && l.state.p.managerPid != 0
    && slot.done <= |l.effects|
    && Sound(l)
    && LogOk(slot)
    && (Reported(slot) ==> report.source == l.state.p.source && report.uid == l.state.p.uid)
    && (Reported(slot) ==> report.battleId == b && !report.confirmed && |l.effects| > 1 && l.effects[1] == SaveReport(report))
    && (Outstanding(l) > 0 ==> Reported(slot))
    && (b in reports <==> Reported(slot) && slot.done > 1)
    && (b in reports ==> reports[b].(confirmed := false) == report)
  }

  // A begun ModeRun battle either reports nothing, or announces, saves and then publishes.
  lemma BeginShape(p: Params, answers: Answers, i: nat)
    requires p.mode.ModeRun? && i < |Begin(Fresh(p), answers).effects|
    ensures var r := Begin(Fresh(p), answers);
            var e := r.effects[i];
            if answers.built && answers.result.Some? && answers.saved then
              var report := ReportFor(p, answers.result.value);
              && r.state.report == report && !r.state.released && |r.effects| > 1
              && r.effects[1] == SaveReport(report)
              && (if i == 0 then e == CreatedEffect(p)[0]
                  else if i == 1 then e == SaveReport(report)
                  else e.Notify? && !e.message.Created? && MessageOf(report, e.to, e.message))
            else
              && r.state.report == NO_REPORT && r.state.released
              && (e in CreatedEffect(p) || e == TellManager(p.battleId) || e == StopSelf)
  {
    hide ActionsOf;
    if answers.built && answers.result.Some? && answers.saved {
      var report := ReportFor(p, answers.result.value);
      var n := |report.result.events|;
      ActionsAt(report, n, if i >= 2 then i - 2 else 0);
      var r := Begin(Fresh(p), answers);
      assert r.effects == CreatedEffect(p) + [SaveReport(report)] + (ActionsOf(report, n) + [Notify(report.source, FinishedOf(report))]);
    }
  }

  lemma BeginKeepsSlot(reports: Reports, b: string, slot: Slot, answers: Answers)
    requires SlotOk(reports, b, slot) && slot.done == |slot.life.effects| && Plausible(b, answers) && !slot.life.begun
    ensures SlotOk(reports, b, slot.(life := Lived(slot.life, Init(answers))))
  {
    hide Begin, FinishedSent, StopsReported, Sound, MessageOf;
    var l := slot.life;
    StaysSound(l, Init(answers));
    assert l.effects == [] && l.state == Fresh(l.state.p) && l.ticks == 0 by { UnbegunIsFresh(l); }
    var next := Lived(l, Init(answers));
    var r := Begin(l.state, answers);
    assert [] + r.effects == r.effects;
    assert next.effects == r.effects && next.state == r.state;
    BeginIsNotEmpty(l.state.p, answers);
    BeginKeepsParams(l.state, answers);
    BeginShape(l.state.p, answers, 0);
    forall i | 0 <= i < |r.effects| ensures EffectOk(slot.(life := next), i) {
      BeginShape(l.state.p, answers, i);
    }
    BeginLeavesOneTimer(l.state, answers);
  }

  lemma BeginIsNotEmpty(p: Params, answers: Answers)
    requires p.mode.ModeRun?
    ensures |Begin(Fresh(p), answers).effects| > 0
  {
  }

  lemma BeginKeepsParams(a: ActorState, answers: Answers)
    ensures Begin(a, answers).state.p == a.p
  {
  }

  lemma UnbegunIsFresh(l: Life)
    requires Sound(l) && !l.begun
    ensures l.effects == [] && l.state == Fresh(l.state.p) && l.ticks == 0
  {
  }

  // Every later input leaves the report alone and appends effects that the report vouches for.
  lemma LivingKeepsSlot(reports: Reports, b: string, slot: Slot, input: BattleActors.Input)
    requires SlotOk(reports, b, slot) && (input.ConfirmMsg? ==> input.battleId == b)
    requires !input.Init? || slot.life.begun
    ensures SlotOk(reports, b, slot.(life := Lived(slot.life, input)))
  {
    hide FinishedSent, StopsReported, Sound, MessageOf;
    var l := slot.life;
    var next := Lived(l, input);
    StaysSound(l, input);
    assert next.state.report == l.state.report && next.state.p == l.state.p;
    forall i | 0 <= i < |next.effects| ensures EffectOk(slot.(life := next), i) {
      if i < |l.effects| {
        assert EffectOk(slot, i);
        assert next.effects[i] == l.effects[i];
      } else if next.effects[i].Notify? {
        assert MessageOf(l.state.report, l.state.report.source, FinishedOf(l.state.report)) by { FinishedBelongs(l.state.report); }
      }
    }
  }

  lemma FinishedBelongs(report: Report)
    ensures MessageOf(report, report.source, FinishedOf(report))
  {
  }

  // ---- the invariant of the world ----

  // The client of the node that asked for b has applied b.
  ghost predicate Delivered(w: World, b: string) {
    b in w.reports && w.reports[b].source in w.nodes && b in w.nodes[w.reports[b].source].state.completed
  }

  // Results are in flight only when they are on file; a confirmation only after the result was applied.
  ghost predicate PacketOk(w: World, p: Packet) {
    match p
    case Push(to, m) =>
      if m.Created? then m.battleId in w.actors && AnnouncementOf(w.actors[m.battleId].life.state.p, to, m)
      else m.battleId in w.reports && MessageOf(w.reports[m.battleId], to, m)
    case Confirmation(b, _) => Delivered(w, b)
  }

  ghost predicate NetOk(w: World) {
    forall p :: p in w.net ==> PacketOk(w, p)
  }

  ghost predicate CompletedOk(w: World, n: Source, completed: map<string, string>) {
    forall b :: b in completed ==>
      b in w.reports && w.reports[b].source == n && completed[b] == w.reports[b].result.checksum
  }

  ghost predicate PushesOk(w: World, n: Source, log: seq<Clients.Effect>) {
    forall i :: 0 <= i < |log| && log[i].Push? ==> Push(n, log[i].message) in w.net
  }

  ghost predicate NodeOk(w: World, n: Source, node: Node) {
    Clients.Consistent(node.state, node.effects) && CompletedOk(w, n, node.state.completed) && PushesOk(w, n, node.effects)
  }

  ghost predicate ConfirmsBacked(w: World, slot: Slot) {
    forall i :: 0 <= i < |slot.life.effects| && slot.life.effects[i].ConfirmReport? ==> Delivered(w, slot.life.state.p.battleId)
  }

  ghost predicate ActorOk(w: World, b: string) {
    b in w.actors && SlotOk(w.reports, b, w.actors[b]) && ConfirmsBacked(w, w.actors[b])
  }

  ghost predicate ReportOk(w: World, b: string) {
    b in w.reports && b in w.actors && (w.reports[b].confirmed ==> Delivered(w, b))
  }

  function Told(slot: Slot): nat
    requires slot.done <= |slot.life.effects|
  {
    StopsReported(slot.life.effects[..slot.done])
  }

  // One actor's stop reports: every one sent is either still unread or has been read.
  ghost predicate BooksOk(w: World, b: string) {
    && b in w.actors && w.actors[b].done <= |w.actors[b].life.effects|
    && w.stops[(b, w.actors[b].pid)] + (if b in w.reaped then 1 else 0) == Told(w.actors[b])
  }

  ghost predicate RegistryOk(w: World) {
    && w.reaped <= w.actors.Keys
    && w.active.Keys == w.actors.Keys - w.reaped
    && (forall b :: b in w.active ==> w.active[b] == w.actors[b].pid)
    && StopsOk(w)
    && (forall b :: b in w.actors ==> BooksOk(w, b))
  }

  // Only actors of this manager report their stop.
  ghost predicate StopsOk(w: World) {
    forall s :: s in w.stops ==> s.0 in w.actors && s.1 == w.actors[s.0].pid
  }

  ghost predicate Inv(w: World) {
    && (forall b :: b in w.actors ==> ActorOk(w, b))
    && NetOk(w)
    && (forall n :: n in w.nodes ==> NodeOk(w, n, w.nodes[n]))
    && (forall b :: b in w.reports ==> ReportOk(w, b))
    && RegistryOk(w)
  }

  // Nothing sent, saved or applied is ever taken back.
  ghost predicate Grows(w: World, next: World) {
    && w.net <= next.net
    && (forall b :: b in w.actors ==> b in next.actors && next.actors[b].life.state.p == w.actors[b].life.state.p)
    && (forall b :: b in w.reports ==>
          b in next.reports && next.reports[b].(confirmed := false) == w.reports[b].(confirmed := false))
    && (forall n :: n in w.nodes ==> n in next.nodes && w.nodes[n].state.completed.Keys <= next.nodes[n].state.completed.Keys)
  }

  lemma DeliveredPersists(w: World, next: World, b: string)
    requires Grows(w, next) && Delivered(w, b)
    ensures Delivered(next, b)
  {
  }

  lemma PacketPersists(w: World, next: World, p: Packet)
    requires Grows(w, next) && PacketOk(w, p)
    ensures PacketOk(next, p)
  {
  }

  lemma SameStream(r: Report, q: Report, to: Source, m: Message)
    requires r.(confirmed := false) == q.(confirmed := false)
    ensures MessageOf(r, to, m) <==> MessageOf(q, to, m)
  {
  }

  lemma CompletedPersists(w: World, next: World, n: Source, completed: map<string, string>)
    requires Grows(w, next) && CompletedOk(w, n, completed)
    ensures CompletedOk(next, n, completed)
  {
  }

  // What holds of packets and of nodes that a step did not touch goes on holding.
  lemma OldStaysOk(w: World, next: World)
    requires Inv(w) && Grows(w, next)
    ensures forall p :: p in w.net ==> PacketOk(next, p)
    ensures forall n :: n in w.nodes ==> NodeOk(next, n, w.nodes[n])
    ensures forall b :: b in w.actors ==> ConfirmsBacked(next, w.actors[b])
    ensures forall b :: Delivered(w, b) ==> Delivered(next, b)
  {
    hide Clients.Consistent, PacketOk, CompletedOk, Delivered, Grows, RegistryOk, SlotOk;
    assert w.net <= next.net by { NetGrows(w, next); }
    forall p | p in w.net ensures PacketOk(next, p) {
      PacketPersists(w, next, p);
    }
    forall n | n in w.nodes ensures NodeOk(next, n, w.nodes[n]) {
      assert NodeOk(w, n, w.nodes[n]);
      CompletedPersists(w, next, n, w.nodes[n].state.completed);
    }
    forall b | Delivered(w, b) ensures Delivered(next, b) {
      DeliveredPersists(w, next, b);
    }
    forall b | b in w.actors ensures ConfirmsBacked(next, w.actors[b]) {
      assert ActorOk(w, b);
    }
  }

  lemma NetGrows(w: World, next: World)
    requires Grows(w, next)
    ensures w.net <= next.net
  {
  }

  // ---- each kind of step keeps the invariant ----

  lemma SpawnKeeps(w: World, req: Request, b: string, seeded: bool, pid: nat)
    requires Inv(w) && Enabled(w, Spawn(req, b, seeded, pid))
    ensures Inv(Apply(w, Spawn(req, b, seeded, pid)))
  {
    hide Clients.Consistent, PacketOk, CompletedOk, PushesOk, Delivered, SlotOk, NodeOk, RegistryOk;
    var next := Apply(w, Spawn(req, b, seeded, pid));
    assert Grows(w, next);
    OldStaysOk(w, next);
    NewSlotOk(w.reports, req, b, pid) by {
      assert b in w.reports ==> ReportOk(w, b);
    }
    forall x | x in next.actors ensures ActorOk(next, x) {
      if x != b {
        assert ActorOk(w, x);
      }
    }
    forall x | x in next.reports ensures ReportOk(next, x) {
      assert ReportOk(w, x);
    }
    SpawnKeepsBooks(w, req, b, seeded, pid);
  }

  lemma SpawnFrame(w: World, req: Request, b: string, seeded: bool, pid: nat)
    requires Enabled(w, Spawn(req, b, seeded, pid))
    ensures Apply(w, Spawn(req, b, seeded, pid)) ==
            w.(actors := w.actors[b := Slot(Newborn(ParamsFor(MANAGER, b, req)), 0, pid)], active := w.active[b := pid])
  {
  }

  lemma SpawnKeepsBooks(w: World, req: Request, b: string, seeded: bool, pid: nat)
    requires RegistryOk(w) && Enabled(w, Spawn(req, b, seeded, pid))
    ensures RegistryOk(Apply(w, Spawn(req, b, seeded, pid)))
  {
    hide Apply, BooksOk;
    SpawnFrame(w, req, b, seeded, pid);
    var next := Apply(w, Spawn(req, b, seeded, pid));
    forall x | x in next.actors ensures BooksOk(next, x) {
      SpawnKeepsBook(w, req, b, pid, x);
    }
  }

  lemma SpawnKeepsBook(w: World, req: Request, b: string, pid: nat, x: string)
    requires RegistryOk(w) && b !in w.actors && (x == b || x in w.actors)
    ensures BooksOk(w.(actors := w.actors[b := Slot(Newborn(ParamsFor(MANAGER, b, req)), 0, pid)], active := w.active[b := pid]), x)
  {
  }

  lemma NewSlotOk(reports: Reports, req: Request, b: string, pid: nat)
    requires b != "" && b !in reports
    ensures SlotOk(reports, b, Slot(Newborn(ParamsFor(MANAGER, b, req)), 0, pid))
  {
  }

  lemma LifeAppends(l: Life, input: BattleActors.Input)
    ensures l.effects <= Lived(l, input).effects
  {
  }

  // An actor handles a message: SlotOk is kept by LivingKeepsSlot, so this only has to
  // see that a decision to confirm was provoked by a confirmation.
  lemma LivingKeeps(w: World, b: string, input: BattleActors.Input)
    requires Inv(w) && b in w.actors
    requires SlotOk(w.reports, b, w.actors[b].(life := Lived(w.actors[b].life, input)))
    requires input.ConfirmMsg? ==> Delivered(w, b)
    ensures Inv(Living(w, b, input))
  {
    hide Clients.Consistent, PacketOk, CompletedOk, PushesOk, Delivered, NodeOk, Lived, RegistryOk, SlotOk, ConfirmsBacked, Grows;
    var next := Living(w, b, input);
    ActorFacts(w, b);
    OwnBattle(w.reports, b, w.actors[b]);
    OnlyConfirmsConfirm(w, w.actors[b], input);
    LivingGrows(w, b, input);
    OldStaysOk(w, next);
    BackedStays(w, next, next.actors[b]);
    forall x | x in next.actors ensures ActorOk(next, x) {
      assert ActorOk(w, x);
    }
    forall x | x in next.reports ensures ReportOk(next, x) {
      assert ReportOk(w, x);
    }
    LivingKeepsBooks(w, b, input);
  }

  lemma OwnBattle(reports: Reports, b: string, slot: Slot)
    requires SlotOk(reports, b, slot)
    ensures slot.life.state.p.battleId == b
  {
  }

  lemma LivingGrows(w: World, b: string, input: BattleActors.Input)
    requires b in w.actors && Lived(w.actors[b].life, input).state.p == w.actors[b].life.state.p
    ensures Grows(w, Living(w, b, input))
  {
    hide Lived;
  }

  lemma BackedStays(w: World, next: World, slot: Slot)
    requires ConfirmsBacked(w, slot) && forall b :: Delivered(w, b) ==> Delivered(next, b)
    ensures ConfirmsBacked(next, slot)
  {
    hide Delivered;
  }

  lemma LivingKeepsBooks(w: World, b: string, input: BattleActors.Input)
    requires RegistryOk(w) && b in w.actors
    ensures RegistryOk(Living(w, b, input))
  {
    hide Lived, BooksOk;
    var next := Living(w, b, input);
    forall x | x in next.actors ensures BooksOk(next, x) {
      LivingKeepsBook(w, b, input, x);
    }
  }

  lemma LivingKeepsBook(w: World, b: string, input: BattleActors.Input, x: string)
    requires b in w.actors && BooksOk(w, b) && BooksOk(w, x)
    ensures BooksOk(Living(w, b, input), x)
  {
    hide Lived, StopsReported;
    LifeAppends(w.actors[b].life, input);
    var done := w.actors[b].done;
    assert Lived(w.actors[b].life, input).effects[..done] == w.actors[b].life.effects[..done];
  }

  lemma OnlyConfirmsConfirm(w: World, slot: Slot, input: BattleActors.Input)
    requires ConfirmsBacked(w, slot) && (input.ConfirmMsg? ==> Delivered(w, slot.life.state.p.battleId))
    ensures var next := slot.(life := Lived(slot.life, input)); ConfirmsBacked(w, next) && next.life.state.p == slot.life.state.p
  {
    hide Delivered, Begin;
    var l := slot.life;
    var next := Lived(l, input);
    if input.Init? && !l.begun {
      BeginConfirmsNothing(l.state, input.answers);
    }
    forall i | 0 <= i < |next.effects| && next.effects[i].ConfirmReport? ensures Delivered(w, l.state.p.battleId) {
      if i < |l.effects| {
        assert next.effects[i] == l.effects[i];
      }
    }
  }

  lemma BeginConfirmsNothing(a: ActorState, answers: Answers)
    ensures forall e :: e in Begin(a, answers).effects ==> !e.ConfirmReport?
    ensures Begin(a, answers).state.p == a.p
  {
    hide ActionsOf;
    if answers.result.Some? {
      var r := ReportFor(a.p, answers.result.value);
      ActionsConfirmNothing(r, |r.result.events|);
    }
    var q := RedeliveredReport(a.p);
    ActionsConfirmNothing(q, |q.result.events|);
  }

  lemma {:induction false} ActionsConfirmNothing(r: Report, n: nat)
    requires n <= |r.result.events|
    ensures forall e :: e in ActionsOf(r, n) ==> !e.ConfirmReport?
  {
    if n > 0 {
      ActionsConfirmNothing(r, n - 1);
    }
  }

  lemma HandlingKeeps(w: World, step: Step)
    requires Inv(w) && Enabled(w, step)
    requires step.Begins? || step.Fires? || step.Ticks? || step.Confirmed? || step.Retires?
    ensures Inv(Apply(w, step))
  {
    hide Inv, SlotOk, Lived, PacketOk, Delivered;
    var b := step.battleId;
    var input := match step
      case Begins(_, answers) => Init(answers)
      case Fires(_) => Fire
      case Ticks(_) => Tick
      case Confirmed(_, _) => ConfirmMsg(b)
      case _ => Retire;
    var slot := w.actors[b];
    assert SlotOk(w.reports, b, slot) by { ActorFacts(w, b); }
    if step.Confirmed? {
      assert Delivered(w, b) by {
        NetFacts(w);
        ConfirmationFacts(w, b, step.uid);
      }
    }
    if step.Begins? && !slot.life.begun {
      BeginKeepsSlot(w.reports, b, slot, step.answers);
    } else {
      LivingKeepsSlot(w.reports, b, slot, input);
    }
    LivingKeeps(w, b, input);
  }

  lemma ActorFacts(w: World, b: string)
    requires Inv(w) && b in w.actors
    ensures SlotOk(w.reports, b, w.actors[b]) && ConfirmsBacked(w, w.actors[b]) && BooksOk(w, b)
  {
  }

  lemma NetFacts(w: World)
    requires Inv(w)
    ensures NetOk(w)
  {
  }

  lemma ConfirmationFacts(w: World, b: string, uid: nat)
    requires NetOk(w) && Confirmation(b, uid) in w.net
    ensures Delivered(w, b)
  {
  }

  // The effect an actor performs next.
  function NextEffect(w: World, b: string): BattleActors.Effect
    requires b in w.actors && w.actors[b].done < |w.actors[b].life.effects|
  {
    w.actors[b].life.effects[w.actors[b].done]
  }

  lemma PerformFrame(w: World, b: string, ok: bool)
    requires Enabled(w, Performs(b, ok))
    ensures var next := Apply(w, Performs(b, ok)); var e := NextEffect(w, b);
            && next.nodes == w.nodes && next.active == w.active && next.reaped == w.reaped && w.net <= next.net
            && next.actors == w.actors[b := w.actors[b].(done := w.actors[b].done + 1)]
            && next.stops == (if e.TellManager? then w.stops + multiset{(e.battleId, w.actors[b].pid)} else w.stops)
            && next.reports == (if e.SaveReport? then w.reports[e.report.battleId := e.report]
                                else if e.ConfirmReport? && ok then Confirm(w.reports, e.battleId) else w.reports)
  {
    hide Apply, Confirm;
    PerformIs(w, b, ok);
  }

  lemma PerformIs(w: World, b: string, ok: bool)
    requires Enabled(w, Performs(b, ok))
    ensures Apply(w, Performs(b, ok)) ==
            Perform(w, w.actors[b], NextEffect(w, b), ok)
              .(actors := w.actors[b := w.actors[b].(done := w.actors[b].done + 1)])
  {
    hide Perform;
  }

  lemma DonePerformed(reports: Reports, b: string, slot: Slot)
    requires SlotOk(reports, b, slot) && slot.done < |slot.life.effects|
    ensures var e := slot.life.effects[slot.done];
            var next := if e.SaveReport? then reports[e.report.battleId := e.report] else reports;
            && SlotOk(next, b, slot.(done := slot.done + 1))
            && (e.SaveReport? ==> e.report.battleId == b && b !in reports)
            && (e.ConfirmReport? ==> e.battleId == b)
            && (e.TellManager? ==> e.battleId == b)
  {
    hide Sound, MessageOf;
    assert EffectOk(slot, slot.done);
    var after := slot.(done := slot.done + 1);
    forall i | 0 <= i < |slot.life.effects| ensures EffectOk(after, i) {
      assert EffectOk(slot, i);
    }
  }

  lemma ConfirmKeepsSlot(reports: Reports, b: string, slot: Slot)
    requires SlotOk(reports, b, slot)
    ensures SlotOk(Confirm(reports, b), b, slot)
  {
  }

  // The reports and the log position of one actor move together.
  lemma PerformKeepsSlot(w: World, b: string, ok: bool)
    requires Inv(w) && Enabled(w, Performs(b, ok))
    ensures var next := Apply(w, Performs(b, ok));
            && SlotOk(next.reports, b, next.actors[b])
            && Grows(w, next)
            && (forall x :: x != b ==> (x in next.reports <==> x in w.reports))
            && (forall x :: x != b && x in w.reports ==> next.reports[x] == w.reports[x])
  {
    hide Inv, Apply, SlotOk, ConfirmsBacked, BooksOk;
    ActorFacts(w, b);
    PerformFrame(w, b, ok);
    var slot := w.actors[b];
    DonePerformed(w.reports, b, slot);
    if NextEffect(w, b).ConfirmReport? && ok {
      ConfirmKeepsSlot(w.reports, b, slot.(done := slot.done + 1));
    }
  }

  lemma PerformSends(w: World, b: string, ok: bool)
    requires Inv(w) && Enabled(w, Performs(b, ok))
    ensures var next := Apply(w, Performs(b, ok)); forall p :: p in next.net && p !in w.net ==> PacketOk(next, p)
  {
    hide Inv, SlotOk, Apply, Perform;
    ActorFacts(w, b);
    var slot := w.actors[b];
    var e := NextEffect(w, b);
    var next := Apply(w, Performs(b, ok));
    PerformNet(w, b, ok);
    if e.Notify? && ok {
      PerformFrame(w, b, ok);
      if e.message.Created? {
        AnnouncementIsOwn(w.reports, b, slot);
      } else {
        ResultIsOnFile(w.reports, b, slot);
      }
    }
  }

  lemma AnnouncementIsOwn(reports: Reports, b: string, slot: Slot)
    requires SlotOk(reports, b, slot) && slot.done < |slot.life.effects|
    requires slot.life.effects[slot.done].Notify? && slot.life.effects[slot.done].message.Created?
    ensures var e := slot.life.effects[slot.done]; e.message.battleId == b && AnnouncementOf(slot.life.state.p, e.to, e.message)
  {
    hide Sound;
    assert EffectOk(slot, slot.done);
  }

  lemma PerformNet(w: World, b: string, ok: bool)
    requires Enabled(w, Performs(b, ok))
    ensures var e := NextEffect(w, b);
            Apply(w, Performs(b, ok)).net == if e.Notify? && ok then w.net + {Push(e.to, e.message)} else w.net
  {
    hide Apply, Confirm;
    PerformIs(w, b, ok);
  }

  lemma ResultIsOnFile(reports: Reports, b: string, slot: Slot)
    requires SlotOk(reports, b, slot) && slot.done < |slot.life.effects|
    requires slot.life.effects[slot.done].Notify? && !slot.life.effects[slot.done].message.Created?
    ensures var e := slot.life.effects[slot.done];
            e.message.battleId == b && b in reports && MessageOf(reports[b], e.to, e.message)
  {
    hide Sound;
    assert EffectOk(slot, slot.done);
    var e := slot.life.effects[slot.done];
    SameStream(slot.life.state.report, reports[b], e.to, e.message);
  }

  lemma SlotOkFrame(reports: Reports, next: Reports, b: string, slot: Slot)
    requires SlotOk(reports, b, slot)
    requires b in reports <==> b in next
    requires b in reports ==> reports[b] == next[b]
    ensures SlotOk(next, b, slot)
  {
  }

  lemma PerformConfirms(w: World, b: string, ok: bool)
    requires Inv(w) && Enabled(w, Performs(b, ok)) && Grows(w, Apply(w, Performs(b, ok)))
    ensures var next := Apply(w, Performs(b, ok)); b in next.reports ==> ReportOk(next, b)
  {
    hide RegistryOk, SlotOk, Delivered, Grows, Apply, NodeOk, PacketOk;
    ActorFacts(w, b);
    PerformFrame(w, b, ok);
    DonePerformed(w.reports, b, w.actors[b]);
    var next := Apply(w, Performs(b, ok));
    if b in w.reports {
      assert ReportOk(w, b);
    }
    if Delivered(w, b) {
      DeliveredPersists(w, next, b);
    }
    assert w.actors[b].life.state.p.battleId == b && (NextEffect(w, b).SaveReport? ==> !NextEffect(w, b).report.confirmed) by {
      SavedIsUnconfirmed(w.reports, b, w.actors[b]);
    }
  }

  lemma SavedIsUnconfirmed(reports: Reports, b: string, slot: Slot)
    requires SlotOk(reports, b, slot) && slot.done < |slot.life.effects|
    ensures slot.life.state.p.battleId == b
    ensures slot.life.effects[slot.done].SaveReport? ==> !slot.life.effects[slot.done].report.confirmed
  {
    hide Sound, MessageOf;
    assert EffectOk(slot, slot.done);
  }

  lemma PerformKeeps(w: World, b: string, ok: bool)
    requires Inv(w) && Enabled(w, Performs(b, ok))
    ensures Inv(Apply(w, Performs(b, ok)))
  {
    hide Perform, Apply, SlotOk, Delivered, PacketOk, CompletedOk, PushesOk, NodeOk, RegistryOk, Grows, Clients.Consistent;
    var next := Apply(w, Performs(b, ok));
    PerformKeepsSlot(w, b, ok);
    PerformSends(w, b, ok);
    PerformConfirms(w, b, ok);
    OldStaysOk(w, next);
    PerformFrame(w, b, ok);
    assert next.actors[b].life == w.actors[b].life;
    forall x | x in next.actors ensures ActorOk(next, x) {
      assert ActorOk(w, x);
      if x != b {
        SlotOkFrame(w.reports, next.reports, x, w.actors[x]);
      }
    }
    forall x | x in next.reports ensures ReportOk(next, x) {
      if x != b {
        assert ReportOk(w, x);
      }
    }
    ActorFacts(w, b);
    OwnEffects(w.reports, b, w.actors[b], w.actors[b].done);
    PerformKeepsBooks(w, b, ok);
  }

  lemma OwnEffects(reports: Reports, b: string, slot: Slot, i: nat)
    requires SlotOk(reports, b, slot) && i < |slot.life.effects|
    ensures slot.life.effects[i].TellManager? ==> slot.life.effects[i].battleId == b
  {
    assert EffectOk(slot, i);
  }

  lemma PerformKeepsBooks(w: World, b: string, ok: bool)
    requires RegistryOk(w) && Enabled(w, Performs(b, ok))
    requires NextEffect(w, b).TellManager? ==> NextEffect(w, b).battleId == b
    ensures RegistryOk(Apply(w, Performs(b, ok)))
  {
    hide Apply, BooksOk, StopsOk;
    PerformFrame(w, b, ok);
    var next := Apply(w, Performs(b, ok));
    forall x | x in next.actors ensures BooksOk(next, x) {
      OneBookKept(w, b, ok, x);
    }
    PerformKeepsStops(w, b, ok);
  }

  lemma PerformKeepsStops(w: World, b: string, ok: bool)
    requires StopsOk(w) && Enabled(w, Performs(b, ok))
    requires NextEffect(w, b).TellManager? ==> NextEffect(w, b).battleId == b
    ensures StopsOk(Apply(w, Performs(b, ok)))
  {
    hide Apply;
    PerformFrame(w, b, ok);
    var next := Apply(w, Performs(b, ok));
    forall s | s in next.stops ensures s.0 in next.actors && s.1 == next.actors[s.0].pid {
      assert s in w.stops || s == (b, w.actors[b].pid);
    }
  }

  lemma OneBookKept(w: World, b: string, ok: bool, x: string)
    requires Enabled(w, Performs(b, ok)) && BooksOk(w, b) && BooksOk(w, x)
    requires NextEffect(w, b).TellManager? ==> NextEffect(w, b).battleId == b
    ensures BooksOk(Apply(w, Performs(b, ok)), x)
  {
    hide Apply, Told;
    PerformFrame(w, b, ok);
    TellingIsCounted(w.actors[b]);
  }

  lemma TellingIsCounted(slot: Slot)
    requires slot.done < |slot.life.effects|
    ensures Told(slot.(done := slot.done + 1)) == Told(slot) + if slot.life.effects[slot.done].TellManager? then 1 else 0
  {
    hide StopsReported;
    var e := slot.life.effects[slot.done];
    assert slot.life.effects[..slot.done + 1] == slot.life.effects[..slot.done] + [e];
    CountsAppend(slot.life.effects[..slot.done], e);
  }

  lemma StopReadFrame(w: World, b: string, pid: nat)
    requires (b, pid) in w.stops
    ensures Apply(w, StopRead(b, pid)) ==
            w.(stops := w.stops - multiset{(b, pid)}, active := Forget(w.active, b, pid), reaped := w.reaped + {b})
  {
  }

  lemma StopReadKeepsBooks(w: World, b: string, pid: nat)
    requires RegistryOk(w) && (b, pid) in w.stops && b != ""
    requires w.actors[b].done <= |w.actors[b].life.effects| && Told(w.actors[b]) <= 1
    ensures RegistryOk(Apply(w, StopRead(b, pid)))
  {
    hide Told, Apply;
    StopReadFrame(w, b, pid);
    var next := Apply(w, StopRead(b, pid));
    assert BooksOk(w, b);
    forall x | x in next.actors ensures BooksOk(next, x) {
      assert BooksOk(w, x);
    }
  }

  // An actor tells the manager at most once, so the books of an actor never exceed one.
  lemma ToldOnce(w: World, b: string)
    requires Inv(w) && b in w.actors
    ensures w.actors[b].done <= |w.actors[b].life.effects| && Told(w.actors[b]) <= 1 && b != ""
  {
    hide Inv, LogOk, FinishedSent;
    ActorFacts(w, b);
    ToldIsCounted(w.actors[b]);
  }

  lemma ToldIsCounted(slot: Slot)
    requires slot.done <= |slot.life.effects|
    ensures Told(slot) <= StopsReported(slot.life.effects)
  {
    hide StopsReported;
    var effects, done := slot.life.effects, slot.done;
    assert effects == effects[..done] + effects[done..];
    CountsConcat(effects[..done], effects[done..]);
  }

  lemma StopReadKeeps(w: World, b: string, pid: nat)
    requires Inv(w) && Enabled(w, StopRead(b, pid))
    ensures Inv(Apply(w, StopRead(b, pid)))
  {
    hide SlotOk, Delivered, PacketOk, CompletedOk, PushesOk, NodeOk, RegistryOk, Clients.Consistent;
    var next := Apply(w, StopRead(b, pid));
    assert Grows(w, next);
    OldStaysOk(w, next);
    forall x | x in next.actors ensures ActorOk(next, x) {
      assert ActorOk(w, x);
    }
    forall x | x in next.reports ensures ReportOk(next, x) {
      assert ReportOk(w, x);
    }
    SomeoneStopped(w, b, pid);
    ToldOnce(w, b);
    StopReadKeepsBooks(w, b, pid);
  }

  lemma SomeoneStopped(w: World, b: string, pid: nat)
    requires RegistryOk(w) && (b, pid) in w.stops
    ensures b in w.actors
  {
  }

  // ---- a client handles a message ----

  predicate IsResult(input: Clients.Input, b: string) {
    input.BattleMsg? && input.message.Finished? && input.message.battleId == b
  }

  lemma HandlingFacts(c: Clients.ClientState, input: Clients.Input)
    ensures var t := Clients.Handle(c, input);
            && (forall i :: 0 <= i < |t.effects| && t.effects[i].Push? ==> input.BattleMsg? && t.effects[i].message == input.message)
            && (forall e :: e in t.effects && e.ConfirmTo? ==> e.battleId in t.state.completed)
            && c.completed.Keys <= t.state.completed.Keys
            && (forall b :: b in t.state.completed ==>
                  (b in c.completed && t.state.completed[b] == c.completed[b])
                  || (IsResult(input, b) && t.state.completed[b] == input.message.checksum))
  {
  }

  lemma PlaysGrows(w: World, n: Source, input: Clients.Input)
    requires Inv(w)
    ensures Grows(w, Played(w, n, input))
  {
    hide Clients.Handle, RegistryOk, ActorOk, NodeOk, PacketOk, ReportOk;
    HandlingFacts(NodeOf(w, n).state, input);
  }

  lemma NodeFacts(w: World, n: Source)
    requires Inv(w)
    ensures NodeOk(w, n, NodeOf(w, n))
  {
  }

  lemma PlaysKeepsNode(w: World, n: Source, input: Clients.Input)
    requires Inv(w) && Enabled(w, Plays(n, input))
    ensures var next := Played(w, n, input); NodeOk(next, n, next.nodes[n])
  {
    hide Clients.Handle, Clients.Consistent, Inv, MessageOf;
    var next := Played(w, n, input);
    var before, after := NodeOf(w, n), next.nodes[n];
    var t := Clients.Handle(before.state, input);
    NodeFacts(w, n);
    HandlingFacts(before.state, input);
    Clients.HandleIsConsistent(before.state, before.effects, input);
    forall i | 0 <= i < |after.effects| && after.effects[i].Push? ensures Push(n, after.effects[i].message) in next.net {
      if i < |before.effects| {
        assert after.effects[i] == before.effects[i];
      } else {
        assert after.effects[i] == t.effects[i - |before.effects|];
      }
    }
    forall b | b in after.state.completed
      ensures b in next.reports && next.reports[b].source == n && after.state.completed[b] == next.reports[b].result.checksum
    {
      if IsResult(input, b) {
        NetFacts(w);
        ResultFacts(w, n, input.message);
      }
    }
  }

  lemma ResultFacts(w: World, n: Source, m: Message)
    requires NetOk(w) && Push(n, m) in w.net && m.Finished?
    ensures m.battleId in w.reports && w.reports[m.battleId].source == n && m == FinishedOf(w.reports[m.battleId])
  {
  }

  lemma PlaysConfirms(w: World, n: Source, input: Clients.Input)
    requires Inv(w) && Enabled(w, Plays(n, input))
    ensures var next := Played(w, n, input); forall p :: p in next.net && p !in w.net ==> PacketOk(next, p)
  {
    hide Clients.Handle, Clients.Consistent, Inv, MessageOf, PushesOk, Enabled;
    PlaysKeepsNode(w, n, input);
    var next := Played(w, n, input);
    var t := Clients.Handle(NodeOf(w, n).state, input);
    HandlingFacts(NodeOf(w, n).state, input);
    hide Played, CompletedOk, NodeOk;
    forall p | p in next.net && p !in w.net ensures PacketOk(next, p) {
      assert p in ConfirmationsOf(t.effects) by { PlayedNet(w, n, input); }
      var e :| e in t.effects && e.ConfirmTo? && p == Confirmation(e.battleId, e.uid);
      AppliedIsDelivered(w, n, input, e.battleId);
    }
  }

  lemma PlayedNet(w: World, n: Source, input: Clients.Input)
    ensures Played(w, n, input).net == w.net + ConfirmationsOf(Clients.Handle(NodeOf(w, n).state, input).effects)
    ensures n in Played(w, n, input).nodes
    ensures Played(w, n, input).nodes[n].state == Clients.Handle(NodeOf(w, n).state, input).state
  {
  }

  lemma AppliedIsDelivered(w: World, n: Source, input: Clients.Input, b: string)
    requires var next := Played(w, n, input); n in next.nodes && NodeOk(next, n, next.nodes[n])
    requires b in Clients.Handle(NodeOf(w, n).state, input).state.completed
    ensures Delivered(Played(w, n, input), b)
  {
    hide Clients.Handle, Clients.Consistent, PushesOk;
  }

  lemma PlaysKeeps(w: World, n: Source, input: Clients.Input)
    requires Inv(w) && Enabled(w, Plays(n, input))
    ensures Inv(Apply(w, Plays(n, input)))
  {
    hide Clients.Handle, Clients.Consistent, SlotOk, Delivered, PacketOk, NodeOk, ConfirmsBacked, ConfirmationsOf, RegistryOk, Grows;
    var next := Played(w, n, input);
    PlaysGrows(w, n, input);
    PlaysKeepsNode(w, n, input);
    PlaysConfirms(w, n, input);
    OldStaysOk(w, next);
    forall x | x in next.actors ensures ActorOk(next, x) {
      assert ActorOk(w, x);
    }
    forall x | x in next.reports ensures ReportOk(next, x) {
      assert ReportOk(w, x);
    }
    PlaysKeepsBooks(w, n, input);
  }

  lemma PlaysKeepsBooks(w: World, n: Source, input: Clients.Input)
    requires RegistryOk(w)
    ensures RegistryOk(Played(w, n, input))
  {
  }

  lemma StepKeeps(w: World, step: Step)
    requires Inv(w)
    ensures Inv(Apply(w, step))
  {
    if Enabled(w, step) {
      hide Inv, Enabled;
      match step
      case Spawn(req, b, seeded, pid) => SpawnKeeps(w, req, b, seeded, pid);
      case Performs(b, ok) => PerformKeeps(w, b, ok);
      case StopRead(b, pid) => StopReadKeeps(w, b, pid);
      case Plays(n, input) => PlaysKeeps(w, n, input);
      case _ => HandlingKeeps(w, step);
    }
  }

  lemma {:induction false} EveryRunKeeps(steps: seq<Step>)
    ensures Inv(After(steps))
  {
    hide Inv, Apply;
    if steps == [] {
      EmptyIsOk();
    } else {
      EveryRunKeeps(steps[..|steps| - 1]);
      StepKeeps(After(steps[..|steps| - 1]), steps[|steps| - 1]);
    }
  }

  lemma EmptyIsOk()
    ensures Inv(EMPTY)
  {
  }

  // ---- what every run guarantees ----

  lemma ParamsStay(w: World, step: Step, b: string)
    requires b in w.actors
    ensures b in Apply(w, step).actors && Apply(w, step).actors[b].life.state.p == w.actors[b].life.state.p
  {
    hide Begin, Confirm, Clients.Handle, ConfirmationsOf, Forget;
    if step.Begins? {
      BeginKeepsParams(w.actors[b].life.state, step.answers);
    }
  }

  // An accepted request decides, for the whole run, what its battle's actor works with.
  lemma {:induction false} RequestIsRemembered(steps: seq<Step>, j: nat)
    requires j < |steps| && steps[j].Spawn? && Enabled(After(steps[..j]), steps[j])
    ensures steps[j].battleId in After(steps).actors
    ensures var req, p := steps[j].req, After(steps).actors[steps[j].battleId].life.state.p;
            && p.battleId == steps[j].battleId && p.uid == req.uid
            && p.source.serverId == req.serverId && p.source.nodeId == req.sourceNodeId
            && p.mode.ModeRun? && p.retryAttempts == 3
  {
    hide Apply;
    var n := |steps| - 1;
    if j == n {
      SpawnFrame(After(steps[..n]), steps[n].req, steps[n].battleId, steps[n].seeded, steps[n].pid);
    } else {
      hide Enabled;
      assert steps[..n][j] == steps[j] && steps[..n][..j] == steps[..j];
      RequestIsRemembered(steps[..n], j);
      ParamsStay(After(steps[..n]), steps[n], steps[j].battleId);
    }
  }

  // A request that is complete, drew a seed and was given an identifier, all on its own fields.
  predicate AsksFor(step: Step, b: string) {
    && step.Spawn? && step.battleId == b && b != "" && step.seeded
    && step.req.uid != 0 && step.req.serverId != 0 && step.req.sourceNodeId != 0 && step.req.typed
  }

  lemma ActorsComeFromRequests(w: World, step: Step, b: string)
    ensures b in Apply(w, step).actors <==> b in w.actors || AsksFor(step, b)
  {
    hide Lived, Perform, Confirm, Forget, Clients.Handle, ConfirmationsOf, Plausible;
    if step.Performs? && Enabled(w, step) {
      var slot := w.actors[step.battleId];
      PerformKeepsActors(w, slot, slot.life.effects[slot.done], step.ok);
    }
  }

  lemma PerformKeepsActors(w: World, slot: Slot, e: Effect, ok: bool)
    ensures Perform(w, slot, e, ok).actors == w.actors
  {
  }

  // A battle has an actor exactly when some complete request asked for it.
  lemma {:induction false} ActorsAreExactlyTheRequested(steps: seq<Step>, b: string)
    ensures b in After(steps).actors <==> exists j :: 0 <= j < |steps| && AsksFor(steps[j], b)
  {
    if steps != [] {
      hide Apply, AsksFor;
      var n := |steps| - 1;
      var before := steps[..n];
      ActorsAreExactlyTheRequested(before, b);
      ActorsComeFromRequests(After(before), steps[n], b);
      assert forall j :: 0 <= j < n ==> before[j] == steps[j];
      assert After(steps) == Apply(After(before), steps[n]);
      if j :| 0 <= j < |steps| && AsksFor(steps[j], b) {
        assert j < n ==> AsksFor(before[j], b);
      }
    }
  }

  // Everything ever sent about the battle, Created included, goes to the server, the node and
  // the player of the request that started it; so does its report, of which at most three
  // Finished are sent.
  lemma RequestIsServed(steps: seq<Step>, j: nat, to: Source, m: Message)
    requires j < |steps| && steps[j].Spawn? && Enabled(After(steps[..j]), steps[j])
    ensures var w, req, b := After(steps), steps[j].req, steps[j].battleId;
            && (Push(to, m) in w.net && m.battleId == b ==>
                  to.serverId == req.serverId && to.nodeId == req.sourceNodeId && m.uid == req.uid)
            && (b in w.reports ==>
                  && w.reports[b].source.serverId == req.serverId && w.reports[b].source.nodeId == req.sourceNodeId
                  && w.reports[b].uid == req.uid && w.reports[b].battleId == b)
            && b in w.actors && FinishedSent(w.actors[b].life.effects) <= 3
  {
    EveryRunKeeps(steps);
    RequestIsRemembered(steps, j);
    hide After, RegistryOk, NodeOk, LogOk, Clients.Consistent, ConfirmsBacked, FinishedSent, StopsReported;
    var w, b := After(steps), steps[j].battleId;
    ActorFacts(w, b);
    assert Push(to, m) in w.net ==> PacketOk(w, Push(to, m));
    if b in w.reports {
      assert w.reports[b].source == w.reports[b].(confirmed := false).source;
    }
  }

  // A report is marked confirmed only after the client of the node that asked for the battle
  // applied exactly that report.
  lemma ConfirmedMeansApplied(steps: seq<Step>, b: string)
    requires b in After(steps).reports && After(steps).reports[b].confirmed
    ensures var w := After(steps);
            && w.reports[b].source in w.nodes
            && b in w.nodes[w.reports[b].source].state.completed
            && w.nodes[w.reports[b].source].state.completed[b] == w.reports[b].result.checksum
  {
    EveryRunKeeps(steps);
    hide After, RegistryOk, SlotOk, PacketOk, PushesOk, Clients.Consistent;
    var w := After(steps);
    assert ReportOk(w, b);
    assert NodeOk(w, w.reports[b].source, w.nodes[w.reports[b].source]);
  }

  // No Action or Finished is ever in flight before its report is on file, and what is in
  // flight is addressed to the node that asked and agrees with the report.
  lemma SavedBeforeSent(steps: seq<Step>, to: Source, m: Message)
    requires Push(to, m) in After(steps).net && !m.Created?
    ensures var w := After(steps);
            && m.battleId in w.reports
            && w.reports[m.battleId].battleId == m.battleId
            && w.reports[m.battleId].source == to && w.reports[m.battleId].uid == m.uid
            && (m.Action? ==> m.event in w.reports[m.battleId].result.events)
            && (m.Finished? ==> m == FinishedOf(w.reports[m.battleId]))
  {
    EveryRunKeeps(steps);
    hide After, RegistryOk, NodeOk;
    var w := After(steps);
    assert PacketOk(w, Push(to, m));
    assert ActorOk(w, m.battleId) by { assert ReportOk(w, m.battleId); }
  }

  predicate AppliesResult(w: World, n: Source, i: nat, b: string) {
    n in w.nodes && i < |w.nodes[n].effects| &&
    var e := w.nodes[n].effects[i];
    e.Push? && e.message.Finished? && e.message.battleId == b
  }

  // Over all nodes and the whole run, each battle's result is applied at most once.
  lemma AppliedAtMostOnce(steps: seq<Step>, b: string, n: Source, i: nat, k: Source, j: nat)
    requires AppliesResult(After(steps), n, i, b) && AppliesResult(After(steps), k, j, b)
    ensures n == k && i == j
  {
    EveryRunKeeps(steps);
    hide After, RegistryOk, SlotOk, PacketOk;
    var w := After(steps);
    assert NodeOk(w, n, w.nodes[n]) && NodeOk(w, k, w.nodes[k]);
    var first, second := w.nodes[n].effects[i].message, w.nodes[k].effects[j].message;
    assert Push(n, first) in w.net && Push(k, second) in w.net;
    SavedBeforeSent(steps, n, first);
    SavedBeforeSent(steps, k, second);
    if i < j {
      AppliedBefore(w.nodes[n].effects, i, j);
    } else if j < i {
      AppliedBefore(w.nodes[n].effects, j, i);
    }
  }

  lemma AppliedBefore(log: seq<Clients.Effect>, i: nat, j: nat)
    requires Clients.Disciplined(log) && i < j < |log|
    requires log[i].Push? && log[i].message.Finished? && log[j].Push? && log[j].message.Finished?
    ensures log[i].message.battleId != log[j].message.battleId
  {
    assert Clients.Proper(log[..j], log[j]);
    Clients.AppliedIsInLog(log[..j], i);
  }

  // Whatever a player is shown of a battle's events comes from that battle's report.
  lemma ShownEventsAreReal(steps: seq<Step>, n: Source, i: nat)
    requires n in After(steps).nodes && i < |After(steps).nodes[n].effects|
    requires var e := After(steps).nodes[n].effects[i]; e.Push? && e.message.Action?
    ensures var w := After(steps); var m := w.nodes[n].effects[i].message;
            && m.battleId in w.reports && w.reports[m.battleId].source == n
            && m.event in w.reports[m.battleId].result.events
  {
    EveryRunKeeps(steps);
    hide After, RegistryOk, SlotOk, PacketOk;
    var w := After(steps);
    assert NodeOk(w, n, w.nodes[n]);
    SavedBeforeSent(steps, n, w.nodes[n].effects[i].message);
  }

  // The registry holds exactly the actors whose stop report has not been read, with their
  // identities; every actor and every client keeps its own discipline inside the world.
  lemma RegistryIsExact(steps: seq<Step>)
    ensures var w := After(steps);
            && w.active.Keys == w.actors.Keys - w.reaped
            && (forall b :: b in w.active ==> w.active[b] == w.actors[b].pid)
            && (forall b :: b in w.reaped ==> b in w.actors && w.actors[b].life.state.released)
            && (forall b :: b in w.actors ==> Sound(w.actors[b].life))
            && (forall n :: n in w.nodes ==> Clients.Consistent(w.nodes[n].state, w.nodes[n].effects))
  {
    EveryRunKeeps(steps);
    hide After, Sound, Clients.Consistent, Delivered;
    var w := After(steps);
    forall b | b in w.reaped ensures b in w.actors && w.actors[b].life.state.released {
      assert BooksOk(w, b);
      ToldMeansReleased(w, b);
    }
    forall b | b in w.actors ensures Sound(w.actors[b].life) {
      assert ActorOk(w, b);
    }
    forall n | n in w.nodes ensures Clients.Consistent(w.nodes[n].state, w.nodes[n].effects) {
      assert NodeOk(w, n, w.nodes[n]);
    }
  }

  lemma ToldMeansReleased(w: World, b: string)
    requires Inv(w) && b in w.actors && w.actors[b].done <= |w.actors[b].life.effects| && Told(w.actors[b]) > 0
    ensures w.actors[b].life.state.released
  {
    hide Inv, LogOk, FinishedSent;
    ActorFacts(w, b);
    ToldIsCounted(w.actors[b]);
  }

  // ---- one result that gets through is enough ----

  // If a Finished for b is in flight and concerns the player's session at its node, handing it
  // over, handing back the confirmation and letting the store succeed confirms the report.
  lemma OneResultIsEnough(before: seq<Step>, n: Source, m: Message)
    requires Push(n, m) in After(before).net && m.Finished? && m.uid != 0 && m.battleId != ""
    requires Idle(After(before), m.battleId) && After(before).actors[m.battleId].life.begun
    requires Clients.Concerns(NodeOf(After(before), n).effects, m.uid, m.battleId)
    ensures var w := Go(After(before), [Plays(n, Clients.BattleMsg(m)), Confirmed(m.battleId, m.uid), Performs(m.battleId, true)]);
            && m.battleId in w.reports && w.reports[m.battleId].confirmed
            && n in w.nodes && m.battleId in w.nodes[n].state.completed
            && w.nodes[n].state.completed[m.battleId] == m.checksum
            && m.battleId in w.actors && w.actors[m.battleId].life.state.released
  {
    hide After, Inv, Apply, Enabled, Idle, Lived;
    var w, b := After(before), m.battleId;
    var play, confirm, store := Plays(n, Clients.BattleMsg(m)), Confirmed(b, m.uid), Performs(b, true);
    EveryRunKeeps(before);
    var w1 := Apply(w, play);
    StepKeeps(w, play);
    HandingOver(w, n, m);
    var w2 := Apply(w1, confirm);
    StepKeeps(w1, confirm);
    HandingBack(w1, b, m.uid);
    var w3 := Apply(w2, store);
    StepKeeps(w2, store);
    Storing(w2, b);
    GoThree(w, play, confirm, store);
    NetStays(w, play, Push(n, m));
    NetStays(w1, confirm, Push(n, m));
    NetStays(w2, store, Push(n, m));
    CompletedAgrees(w3, n, b, m);
    SavedBeforeSent(before, n, m);
    ReportsStay(w, play, b);
    ReportsStay(w1, confirm, b);
    ReportsStay(w2, store, b);
  }

  lemma GoThree(w: World, a: Step, b: Step, c: Step)
    ensures Go(w, [a, b, c]) == Apply(Apply(Apply(w, a), b), c)
  {
    hide Apply;
    assert [a, b, c][1..] == [b, c] && [b, c][1..] == [c] && [c][1..] == [];
    assert Go(Apply(w, a), [b, c]) == Go(Apply(Apply(w, a), b), [c]);
    assert Go(Apply(Apply(w, a), b), [c]) == Go(Apply(Apply(Apply(w, a), b), c), []);
  }

  lemma NetStays(w: World, step: Step, p: Packet)
    requires p in w.net
    ensures p in Apply(w, step).net
  {
    hide Lived, Clients.Handle, ConfirmationsOf, Forget;
  }

  lemma ReportsStay(w: World, step: Step, b: string)
    requires b in w.reports
    ensures b in Apply(w, step).reports
  {
    hide Lived, Clients.Handle, ConfirmationsOf, Forget;
  }

  lemma PlaysFrame(w: World, n: Source, input: Clients.Input)
    requires Enabled(w, Plays(n, input))
    ensures Apply(w, Plays(n, input)) == Played(w, n, input)
    ensures Played(w, n, input).actors == w.actors
  {
    hide Clients.Handle;
  }

  lemma ConfirmedFrame(w: World, b: string, uid: nat)
    requires Enabled(w, Confirmed(b, uid))
    ensures Apply(w, Confirmed(b, uid)) == Living(w, b, ConfirmMsg(b))
  {
    hide Lived;
  }

  lemma HandingOver(w: World, n: Source, m: Message)
    requires Inv(w) && Push(n, m) in w.net && m.Finished? && m.uid != 0 && m.battleId != "" && Idle(w, m.battleId)
    requires Clients.Concerns(NodeOf(w, n).effects, m.uid, m.battleId)
    ensures var next := Apply(w, Plays(n, Clients.BattleMsg(m)));
            && n in next.nodes && m.battleId in next.nodes[n].state.completed
            && Confirmation(m.battleId, m.uid) in next.net
            && Idle(next, m.battleId) && next.actors == w.actors
  {
    hide Inv, Apply, Played, Clients.Consistent, Clients.Handle, Clients.Concerns, ConfirmationsOf;
    var c := NodeOf(w, n);
    assert Clients.Consistent(c.state, c.effects) by { NodeFacts(w, n); }
    HeardIsConfirmed(c.state, c.effects, m);
    var t := Clients.Handle(c.state, Clients.BattleMsg(m));
    IsConfirmation(t.effects, m.battleId, m.uid);
    PlayedNet(w, n, Clients.BattleMsg(m));
    PlaysFrame(w, n, Clients.BattleMsg(m));
  }

  lemma IsConfirmation(effects: seq<Clients.Effect>, b: string, uid: nat)
    requires exists e :: e in effects && e.ConfirmTo? && e.battleId == b && e.uid == uid
    ensures Confirmation(b, uid) in ConfirmationsOf(effects)
  {
  }

  lemma HeardIsConfirmed(c: Clients.ClientState, log: seq<Clients.Effect>, m: Message)
    requires Clients.Consistent(c, log) && m.Finished? && m.uid != 0 && m.battleId != "" && Clients.Concerns(log, m.uid, m.battleId)
    ensures var t := Clients.Handle(c, Clients.BattleMsg(m));
            && m.battleId in t.state.completed
            && exists e :: e in t.effects && e.ConfirmTo? && e.battleId == m.battleId && e.uid == m.uid
  {
    hide Clients.EpochBattle, Clients.PushedActions, Clients.Applied, Clients.OpenStart, Clients.Disciplined;
    assert Clients.Tracks(c, log, m.uid);
    var t := Clients.Handle(c, Clients.BattleMsg(m));
    assert Clients.ConfirmTo(Clients.RecordOf(c, m.uid).node, m.battleId, m.uid) in t.effects;
  }

  lemma HandingBack(w: World, b: string, uid: nat)
    requires Inv(w) && Idle(w, b) && w.actors[b].life.begun && Confirmation(b, uid) in w.net
    ensures var next := Apply(w, Confirmed(b, uid));
            && next.nodes == w.nodes && b in next.actors && next.actors[b].life.state.released
            && next.actors[b].done < |next.actors[b].life.effects|
            && next.actors[b].life.effects[next.actors[b].done] == ConfirmReport(b)
  {
    hide Inv, Apply, SlotOk, BooksOk, ConfirmsBacked, Lived;
    ActorFacts(w, b);
    OwnBattle(w.reports, b, w.actors[b]);
    ConfirmedFrame(w, b, uid);
    ConfirmIsNext(w.actors[b].life);
  }

  lemma ConfirmIsNext(l: Life)
    requires l.begun
    ensures var next := Lived(l, ConfirmMsg(l.state.p.battleId));
            && next.state.released && |next.effects| > |l.effects| && next.effects[|l.effects|] == ConfirmReport(l.state.p.battleId)
  {
  }

  lemma Storing(w: World, b: string)
    requires b in w.actors && w.actors[b].done < |w.actors[b].life.effects|
    requires w.actors[b].life.effects[w.actors[b].done] == ConfirmReport(b)
    ensures var next := Apply(w, Performs(b, true));
            && next.nodes == w.nodes && b in next.actors && next.actors[b].life == w.actors[b].life
            && (b in w.reports ==> b in next.reports && next.reports[b].confirmed)
  {
    PerformFrame(w, b, true);
  }

  lemma CompletedAgrees(w: World, n: Source, b: string, m: Message)
    requires Inv(w) && n in w.nodes && b in w.nodes[n].state.completed
    requires Push(n, m) in w.net && m.Finished? && m.battleId == b
    ensures w.nodes[n].state.completed[b] == m.checksum
  {
    hide RegistryOk, ActorOk, ReportOk, Clients.Consistent;
    assert NodeOk(w, n, w.nodes[n]);
    ResultFacts(w, n, m);
  }

  // ---- the registry drains ----

  function Go(w: World, steps: seq<Step>): World
    decreases |steps|
  {
    if steps == [] then w else Go(Apply(w, steps[0]), steps[1..])
  }

  lemma {:induction false} GoConcat(w: World, xs: seq<Step>, ys: seq<Step>)
    ensures Go(w, xs + ys) == Go(Go(w, xs), ys)
    decreases |xs|
  {
    hide Apply;
    if xs == [] {
      assert xs + ys == ys;
    } else {
      assert (xs + ys)[1..] == xs[1..] + ys;
      GoConcat(Apply(w, xs[0]), xs[1..], ys);
    }
  }

  // The battle process working on its own: every notification is lost, nothing arrives.
  predicate Alone(step: Step) {
    step.Begins? || (step.Performs? && !step.ok) || step.Fires? || step.Ticks? || step.StopRead?
  }

  ghost predicate Drains(w: World, gone: set<string>, steps: seq<Step>) {
    && (forall s :: s in steps ==> Alone(s))
    && Inv(Go(w, steps))
    && Go(w, steps).active.Keys <= w.active.Keys - gone
  }

  function NextMove(w: World, b: string): Step
    requires b in w.actors
  {
    var slot := w.actors[b];
    if (b, slot.pid) in w.stops then StopRead(b, slot.pid)
    else if slot.done < |slot.life.effects| then Performs(b, false)
    else if !slot.life.begun then Begins(b, Answers(false, None, false))
    else if slot.life.state.armed then Fires(b)
    else Ticks(b)
  }

  function Patience(l: Life): nat {
    if l.state.released then 0
    else 3 * (1 + Max(0, l.state.p.retryAttempts - l.state.attempts)) + if l.state.armed then 1 else 0
  }

  // The effects left up to and including the stop report.
  function UpToTell(effects: seq<BattleActors.Effect>): nat {
    if effects == [] then 0
    else if effects[0].TellManager? then 1
    else 1 + UpToTell(effects[1..])
  }

  // How far an actor is from having its stop report read.
  function SlotDistance(slot: Slot): nat
    requires slot.done <= |slot.life.effects|
  {
    if Told(slot) > 0 then 1 else 1 + UpToTell(slot.life.effects[slot.done..]) + Patience(slot.life)
  }

  function Distance(w: World, b: string): nat
    requires b in w.actors && w.actors[b].done <= |w.actors[b].life.effects|
  {
    if b in w.active then SlotDistance(w.actors[b]) else 0
  }

  // The moves that are up to battle b itself, whatever the network does.
  predicate OwnMove(w: World, b: string, step: Step) {
    && b in w.active && b in w.actors && Enabled(w, step)
    && var l := w.actors[b].life;
       match step
       case StopRead(x, _) => x == b
       case Performs(x, _) => x == b && w.actors[b].done <= |l.effects| && Told(w.actors[b]) == 0
       case Begins(x, _) => x == b && !l.begun
       case Fires(x) => x == b && l.begun && !l.state.released && l.state.armed
       case Ticks(x) => x == b && l.begun && !l.state.released && l.ticks > 0
       case _ => false
  }

  lemma PerformingIsNearer(slot: Slot)
    requires slot.done < |slot.life.effects|
    ensures SlotDistance(slot.(done := slot.done + 1)) + (if Told(slot) == 0 then 1 else 0) <= SlotDistance(slot)
  {
    hide Told, Patience;
    TellingIsCounted(slot);
    var left := slot.life.effects[slot.done..];
    assert left[1..] == slot.life.effects[slot.done + 1..];
  }

  // The inputs an actor can spend its patience on.
  predicate Spends(l: Life, input: BattleActors.Input) {
    !l.state.released && ((input.Fire? && l.state.armed) || (input.Tick? && l.ticks > 0))
  }

  lemma HandlingIsNearer(slot: Slot, input: BattleActors.Input)
    requires slot.done <= |slot.life.effects| && Sound(slot.life) && slot.life.begun && slot.life.state.p.managerPid != 0
    requires slot.done == |slot.life.effects| || input.Fire?
    ensures slot.life.effects <= Lived(slot.life, input).effects && Lived(slot.life, input).begun
    ensures SlotDistance(slot.(life := Lived(slot.life, input))) + (if Spends(slot.life, input) then 1 else 0) <= SlotDistance(slot)
  {
    hide StopsReported, FinishedSent, Begin;
    var next := slot.(life := Lived(slot.life, input));
    LifeAppends(slot.life, input);
    assert next.life.effects[..slot.done] == slot.life.effects[..slot.done];
    if slot.life.state.released {
      if slot.done == |slot.life.effects| {
        AllTold(slot);
      }
    } else {
      ToldIsCounted(slot);
      if slot.done == |slot.life.effects| {
        assert slot.life.effects[slot.done..] == [];
        UnreleasedReaction(slot.life, input);
        assert next.life.effects[slot.done..] == next.life.effects[|slot.life.effects|..];
      }
    }
  }

  // What an unreleased actor decides costs less than the patience it spends.
  lemma UnreleasedReaction(l: Life, input: BattleActors.Input)
    requires Sound(l) && l.begun && !l.state.released && l.state.p.managerPid != 0
    ensures var next := Lived(l, input);
            && l.effects <= next.effects
            && UpToTell(next.effects[|l.effects|..]) + Patience(next) + (if Spends(l, input) then 1 else 0) <= Patience(l)
  {
    hide StopsReported, FinishedSent, Begin;
    var next := Lived(l, input);
    var es := next.effects[|l.effects|..];
    var finish := [TellManager(l.state.p.battleId), StopSelf];
    assert Finish(l.state).effects == finish;
    assert UpToTell(finish) == 1;
    match input
    case Init(_) => assert es == [];
    case Fire => assert es == [];
    case Tick =>
      if l.ticks > 0 {
        assert es == Retry(l.state).effects;
        assert UpToTell([Notify(l.state.report.source, FinishedOf(l.state.report))]) == 1 by { assert [Notify(l.state.report.source, FinishedOf(l.state.report))][1..] == []; }
      } else {
        assert es == [];
      }
    case ConfirmMsg(b) =>
      assert es == OnConfirm(l.state, b).effects;
      assert ([ConfirmReport(b)] + finish)[1..] == finish;
    case Retire => assert es == finish;
  }

  // A registered actor whose stop report is not waiting still has something to do.
  lemma RegisteredIsBusy(w: World, b: string)
    requires Inv(w) && b in w.active && (b, w.actors[b].pid) !in w.stops
    ensures b in w.actors && w.actors[b].done <= |w.actors[b].life.effects| && Sound(w.actors[b].life)
    ensures w.actors[b].done == |w.actors[b].life.effects| ==> !w.actors[b].life.state.released
  {
    hide Inv, SlotOk, RegistryOk, Told, Sound, ConfirmsBacked, BooksOk;
    ActiveIsActor(w, b);
    ActorFacts(w, b);
    SlotFacts(w.reports, b, w.actors[b]);
    if w.actors[b].done == |w.actors[b].life.effects| && w.actors[b].life.state.released {
      AllTold(w.actors[b]);
      BooksAreKept(w);
      ReadIsInactive(w, b);
      assert false;
    }
  }

  // Whatever step is taken, by whomever, no begun battle moves away from its end, and each of
  // its own moves brings it nearer.
  lemma NoStepLosesGround(w: World, step: Step, b: string)
    requires Inv(w) && b in w.actors && w.actors[b].life.begun
    ensures var next := Apply(w, step);
            && w.actors[b].done <= |w.actors[b].life.effects|
            && b in next.actors && next.actors[b].life.begun && next.actors[b].done <= |next.actors[b].life.effects|
            && Distance(next, b) + (if OwnMove(w, b, step) then 1 else 0) <= Distance(w, b)
  {
    hide Inv, SlotOk, RegistryOk, Told, Sound, ConfirmsBacked, BooksOk, SlotDistance, Lived, Perform, Played, Spends;
    ActorFacts(w, b);
    var slot := w.actors[b];
    SlotFacts(w.reports, b, slot);
    if Enabled(w, step) {
      match step
      case Spawn(_, x, _, _) =>
      case Performs(x, ok) =>
        PerformFrame(w, x, ok);
        if x == b {
          PerformingIsNearer(slot);
        }
      case StopRead(x, pid) =>
        StopReadFrame(w, x, pid);
        if x == b && b in w.active {
          StopReadLeaves(w, b, pid);
          DistanceIsPositive(slot);
        }
      case Plays(_, _) => PlayedFrame(w, step.node, step.input);
      case _ =>
        if step.battleId == b {
          HandlingLosesNoGround(w, step, b);
        }
    }
  }

  lemma HandlingLosesNoGround(w: World, step: Step, b: string)
    requires b in w.actors && w.actors[b].life.begun && w.actors[b].done <= |w.actors[b].life.effects|
    requires Sound(w.actors[b].life) && w.actors[b].life.state.p.managerPid != 0 && Enabled(w, step)
    requires (step.Begins? || step.Fires? || step.Ticks? || step.Confirmed? || step.Retires?) && step.battleId == b
    ensures var next := Apply(w, step);
            && b in next.actors && next.actors[b].life.begun && next.actors[b].done <= |next.actors[b].life.effects|
            && Distance(next, b) + (if OwnMove(w, b, step) then 1 else 0) <= Distance(w, b)
  {
    hide Told, Sound, SlotDistance, Lived, Perform, Played, Forget;
    var input := match step
      case Begins(_, answers) => Init(answers)
      case Fires(_) => Fire
      case Ticks(_) => Tick
      case Confirmed(_, _) => ConfirmMsg(b)
      case _ => Retire;
    HandlingIsNearer(w.actors[b], input);
    DistanceIsPositive(w.actors[b]);
  }

  lemma DistanceIsPositive(slot: Slot)
    requires slot.done <= |slot.life.effects|
    ensures SlotDistance(slot) >= 1
  {
  }

  lemma PlayedFrame(w: World, n: Source, input: Clients.Input)
    ensures var next := Played(w, n, input); next.actors == w.actors && next.active == w.active
  {
    hide Clients.Handle;
  }

  lemma StopReadLeaves(w: World, b: string, pid: nat)
    requires Inv(w) && b in w.active && (b, pid) in w.stops
    ensures b !in Apply(w, StopRead(b, pid)).active
  {
    hide Apply, NodeOk, PacketOk, ReportOk, ActorOk, BooksOk;
    ActiveIsActor(w, b);
    ToldOnce(w, b);
    StopReadFrame(w, b, pid);
  }

  // While a battle is registered, a move of its own is always possible.
  lemma OwnMoveIsPossible(w: World, b: string)
    requires Inv(w) && b in w.active
    ensures b in w.actors && OwnMove(w, b, NextMove(w, b)) && Alone(NextMove(w, b))
  {
    hide Inv, Sound, Lived, Perform, Told;
    ActiveIsActor(w, b);
    ActorFacts(w, b);
    if (b, w.actors[b].pid) !in w.stops {
      RegisteredIsBusy(w, b);
      UnreadIsUntold(w, b);
    }
  }

  lemma UnreadIsUntold(w: World, b: string)
    requires Inv(w) && b in w.active && (b, w.actors[b].pid) !in w.stops
    ensures b in w.actors && w.actors[b].done <= |w.actors[b].life.effects| && Told(w.actors[b]) == 0
    ensures w.actors[b].life.begun && !w.actors[b].life.state.released ==> w.actors[b].life.state.armed || w.actors[b].life.ticks > 0
    ensures !w.actors[b].life.begun ==> w.actors[b].life.effects == []
  {
    hide Told, ConfirmsBacked, NodeOk, PacketOk, ReportOk, LogOk, StopsReported, FinishedSent;
    ActiveIsActor(w, b);
    ActorFacts(w, b);
  }

  // How many of the steps are moves of battle b itself.
  function OwnMoves(w: World, steps: seq<Step>, b: string): nat
    decreases |steps|
  {
    if steps == [] then 0
    else (if OwnMove(w, b, steps[0]) then 1 else 0) + OwnMoves(Apply(w, steps[0]), steps[1..], b)
  }

  lemma {:induction false} GroundIsKept(w: World, steps: seq<Step>, b: string)
    requires Inv(w) && b in w.actors && w.actors[b].life.begun && w.actors[b].done <= |w.actors[b].life.effects|
    ensures var end := Go(w, steps);
            && b in end.actors && end.actors[b].done <= |end.actors[b].life.effects|
            && Distance(end, b) + OwnMoves(w, steps, b) <= Distance(w, b)
    decreases |steps|
  {
    hide Inv, Apply, OwnMove, Distance;
    if steps != [] {
      StepKeeps(w, steps[0]);
      NoStepLosesGround(w, steps[0], b);
      GroundIsKept(Apply(w, steps[0]), steps[1..], b);
    }
  }

  // Every schedule drains: from any reachable world, whatever is interleaved (other battles,
  // clients, lost, repeated and reordered packets, duplicate confirmations), a begun battle
  // leaves the registry once it has made as many moves of its own as its distance, and it
  // is never out of moves before. It can make no more than that.
  lemma EveryScheduleDrains(before: seq<Step>, steps: seq<Step>, b: string)
    requires b in After(before).actors && After(before).actors[b].life.begun
    ensures After(before).actors[b].done <= |After(before).actors[b].life.effects|
    ensures var w := After(before); var end := Go(w, steps);
            && OwnMoves(w, steps, b) <= Distance(w, b)
            && (OwnMoves(w, steps, b) == Distance(w, b) ==> b !in end.active)
            && (b in end.active ==> b in end.actors && OwnMove(end, b, NextMove(end, b)))
  {
    hide Inv, After, Apply, OwnMove, SlotDistance;
    var w := After(before);
    EveryRunKeeps(before);
    ActorFacts(w, b);
    SlotFacts(w.reports, b, w.actors[b]);
    GroundIsKept(w, steps, b);
    GoKeeps(w, steps);
    var end := Go(w, steps);
    if b in end.active {
      DistanceIsPositive(end.actors[b]);
      OwnMoveIsPossible(end, b);
    }
  }

  lemma {:induction false} GoKeeps(w: World, steps: seq<Step>)
    requires Inv(w)
    ensures Inv(Go(w, steps))
    decreases |steps|
  {
    hide Inv, Apply;
    if steps != [] {
      StepKeeps(w, steps[0]);
      GoKeeps(Apply(w, steps[0]), steps[1..]);
    }
  }

  lemma SlotFacts(reports: Reports, b: string, slot: Slot)
    requires SlotOk(reports, b, slot)
    ensures slot.done <= |slot.life.effects| && Sound(slot.life) && slot.life.state.p.managerPid != 0
  {
  }

  lemma BooksAreKept(w: World)
    requires Inv(w)
    ensures RegistryOk(w)
  {
  }

  lemma ReadIsInactive(w: World, b: string)
    requires RegistryOk(w) && b in w.actors && w.actors[b].done <= |w.actors[b].life.effects|
    requires Told(w.actors[b]) == 1 && (b, w.actors[b].pid) !in w.stops
    ensures b !in w.active
  {
  }

  lemma AllTold(slot: Slot)
    requires slot.done == |slot.life.effects| && Sound(slot.life)
    requires slot.life.state.released && slot.life.state.p.managerPid != 0
    ensures Told(slot) == 1
  {
    assert slot.life.effects[..slot.done] == slot.life.effects;
  }

  lemma {:induction false} OneDrains(w: World, b: string)
    requires Inv(w) && b in w.actors && w.actors[b].done <= |w.actors[b].life.effects|
    ensures exists steps :: Drains(w, {b}, steps)
    decreases if w.actors[b].life.begun then 0 else 1, Distance(w, b)
  {
    hide Inv, Apply, Distance, OwnMove;
    if b !in w.active {
      assert Drains(w, {b}, []);
    } else {
      var step := NextMove(w, b);
      var next := Apply(w, step);
      StepKeeps(w, step);
      OwnMoveIsPossible(w, b);
      AloneRegistersNobody(w, step);
      if w.actors[b].life.begun {
        NoStepLosesGround(w, step, b);
      } else {
        UnbegunBegins(w, b);
      }
      OneDrains(next, b);
      var rest :| Drains(next, {b}, rest);
      assert ([step] + rest)[1..] == rest;
      assert Drains(w, {b}, [step] + rest);
    }
  }

  lemma AloneRegistersNobody(w: World, step: Step)
    requires Alone(step)
    ensures Apply(w, step).active.Keys <= w.active.Keys
  {
    hide Lived, Confirm;
  }

  // The next move of a battle that has not begun begins it.
  lemma UnbegunBegins(w: World, b: string)
    requires Inv(w) && b in w.active && b in w.actors && !w.actors[b].life.begun
    ensures var next := Apply(w, NextMove(w, b));
            b in next.actors && next.actors[b].life.begun && next.actors[b].done <= |next.actors[b].life.effects|
  {
    hide Inv, Begin, Told, Played, Perform;
    ActorFacts(w, b);
    UnbegunIsSilent(w, b);
    LifeAppends(w.actors[b].life, Init(Answers(false, None, false)));
  }

  lemma UnbegunIsSilent(w: World, b: string)
    requires Inv(w) && b in w.actors && !w.actors[b].life.begun
    ensures w.actors[b].life.effects == [] && (b, w.actors[b].pid) !in w.stops && w.actors[b].done == 0
  {
    hide NodeOk, PacketOk, ReportOk, ConfirmsBacked, LogOk;
    ActorFacts(w, b);
  }

  // From every reachable world the registry can be emptied by the battle process alone,
  // even if every message to the outside is lost.
  lemma {:induction false} AllDrain(w: World, todo: set<string>)
    requires Inv(w) && todo <= w.active.Keys
    ensures exists steps :: Drains(w, todo, steps)
    decreases todo
  {
    hide Inv, Apply;
    if todo == {} {
      assert Drains(w, {}, []);
    } else {
      var b :| b in todo;
      ActiveIsActor(w, b);
      ActorFacts(w, b);
      OneDrains(w, b);
      var first :| Drains(w, {b}, first);
      var mid := Go(w, first);
      var left := todo * mid.active.Keys;
      assert b !in left;
      AllDrain(mid, left);
      var rest :| Drains(mid, left, rest);
      GoConcat(w, first, rest);
      assert Drains(w, todo, first + rest);
    }
  }

  lemma ActiveIsActor(w: World, b: string)
    requires Inv(w) && b in w.active
    ensures b in w.actors
  {
  }

  lemma RegistryDrains(steps: seq<Step>)
    ensures exists more :: (forall s :: s in more ==> Alone(s)) && Go(After(steps), more).active == map[]
  {
    hide Inv, After;
    var w := After(steps);
    EveryRunKeeps(steps);
    AllDrain(w, w.active.Keys);
    var more :| Drains(w, w.active.Keys, more);
    assert Go(w, more).active.Keys == {};
  }
}
