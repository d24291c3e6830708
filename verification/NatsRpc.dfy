// The pending-request table of the RPC actor (natsrpc/internal/handle.go, nats.go).
// Envelopes, the callers waiting for an answer, are named by numbers.
module NatsRpc {
  import opened Common

  datatype Address = Address(moduleType: string, serverId: int, nodeId: int)

  datatype Fault = BadPayload | BadFrame | PublishFailed | BadReply | TimedOut | ActorStopped | NilMessage

  datatype Reply = Value(body: string) | Failed(fault: Fault) | Done

  // A call or cast as the application hands it over; `body` is None for a nil message.
  datatype Request = Request(sendModule: string, target: Address, body: Option<string>)

  // The routing metadata of the frame on the wire.
  datatype Frame = Frame(session: int, sendModule: string, id: int, nodeId: int)

  // What codec, transport and time wheel answer while a request is sent.
  datatype Answers = Answers(payloadOk: bool, frameOk: bool, published: bool, timed: bool)

  // Effects in order. Session 0 marks an answer given without a table entry.
  datatype Effect =
    | PublishCall(to: Address, frame: Frame, ok: bool)
    | PublishCast(to: Address, frame: Frame, ok: bool)
    | Arm(session: int)
    | Disarm(session: int)
    | Respond(session: int, env: nat, reply: Reply)

  datatype Table = Table(pending: map<int, nat>, timers: set<int>, next: int)

  datatype Turn = Turn(table: Table, effects: seq<Effect>)

  const INT32_MAX := 0x7FFF_FFFF

  // Go's int32(x).
  function ToInt32(x: int): (r: int)
    ensures -INT32_MAX - 1 <= r <= INT32_MAX && (r - x) % 0x1_0000_0000 == 0
  {
    var low := x % 0x1_0000_0000;
    if low > INT32_MAX then low - 0x1_0000_0000 else low
  }

  function RequestFrame(self: Address, m: Request, session: int): Frame {
    Frame(session, if m.sendModule == "" then self.moduleType else m.sendModule, ToInt32(self.serverId), ToInt32(self.nodeId))
  }

  function CastFrame(self: Address, m: Request, session: int): Frame {
    Frame(session, self.moduleType, ToInt32(m.target.serverId), ToInt32(m.target.nodeId))
  }

  function SendCall(self: Address, t: Table, m: Request, env: Option<nat>, a: Answers): Turn {
    if env.None? then Turn(t, [])
    else if !a.payloadOk then Turn(t, [Respond(0, env.value, Failed(BadPayload))])
    else
      var session := t.next + 1;
      var issued := t.(next := session);
      var publish := PublishCall(m.target, RequestFrame(self, m, session), a.published);
      if !a.frameOk then Turn(issued, [Respond(0, env.value, Failed(BadFrame))])
      else if !a.published then
        Turn(issued.(pending := t.pending - {session}), [publish, Respond(session, env.value, Failed(PublishFailed))])
      else
        var waiting := issued.(pending := t.pending[session := env.value]);
        if a.timed then Turn(waiting.(timers := t.timers + {session}), [publish, Arm(session)])
        else Turn(waiting, [publish])
  }

  function Answering(env: Option<nat>, reply: Reply): seq<Effect> {
    if env.Some? then [Respond(0, env.value, reply)] else []
  }

  function SendCast(self: Address, t: Table, m: Request, env: Option<nat>, a: Answers): Turn {
    if m.body.None? then Turn(t, Answering(env, Failed(NilMessage)))
    else if !a.payloadOk then Turn(t, Answering(env, Failed(BadPayload)))
    else
      var issued := t.(next := t.next + 1);
      var publish := PublishCast(m.target, CastFrame(self, m, t.next + 1), a.published);
      if !a.frameOk then Turn(issued, Answering(env, Failed(BadFrame)))
      else Turn(issued, [publish] + Answering(env, if a.published then Done else Failed(PublishFailed)))
  }

  function FinishPending(t: Table, session: int, reply: Reply): Turn {
    if session !in t.pending then Turn(t, [])
    else Turn(t.(pending := t.pending - {session}, timers := t.timers - {session}),
              (if session in t.timers then [Disarm(session)] else []) + [Respond(session, t.pending[session], reply)])
  }

  function OnAck(t: Table, session: int, decoded: Option<string>): Turn {
    FinishPending(t, session, if decoded.Some? then Value(decoded.value) else Failed(BadReply))
  }

  // Stopping visits the table in the order Go's map iteration happens to choose.
  function FinishAll(t: Table, order: seq<int>): Turn {
    if order == [] then Turn(t, []) else
      var before := FinishAll(t, order[..|order| - 1]);
      var last := FinishPending(before.table, order[|order| - 1], Failed(ActorStopped));
      Turn(last.table, before.effects + last.effects)
  }

  class Nats {
    const self: Address
    var ReqMsgMap: map<int, nat>
    var requestTimers: set<int>
    var nextRequestID: int
    var effects: seq<Effect>

    function Contents(): Table
      reads this
    {
      Table(ReqMsgMap, requestTimers, nextRequestID)
    }

    twostate predicate Did(t: Turn)
      reads this
    {
      Contents() == t.table && effects == old(effects) + t.effects
    }

    constructor (self: Address)
      ensures this.self == self && Contents() == Table(map[], {}, 0) && effects == []
    {
      this.self := self;
      ReqMsgMap, requestTimers, nextRequestID, effects := map[], {}, 0, [];
    }

    method Emit(e: Effect)
      modifies this`effects
      ensures effects == old(effects) + [e]
    {
      effects := effects + [e];
    }

    method DoSendCall(m: Request, env: Option<nat>, a: Answers)
      modifies this
      ensures Did(SendCall(self, old(Contents()), m, env, a))
    {
      if env.None? {
        return;
      }
      if !a.payloadOk {
        Emit(Respond(0, env.value, Failed(BadPayload)));
        return;
      }
      nextRequestID := nextRequestID + 1;
      var session := nextRequestID;
      var originModule := m.sendModule;
      if originModule == "" {
        originModule := self.moduleType;
      }
      var frame := Frame(session, originModule, ToInt32(self.serverId), ToInt32(self.nodeId));
      if !a.frameOk {
        Emit(Respond(0, env.value, Failed(BadFrame)));
        return;
      }
      ReqMsgMap := ReqMsgMap[session := env.value];
      Emit(PublishCall(m.target, frame, a.published));
      if !a.published {
        ReqMsgMap := ReqMsgMap - {session};
        Emit(Respond(session, env.value, Failed(PublishFailed)));
        return;
      }
      if a.timed {
        requestTimers := requestTimers + {session};
        Emit(Arm(session));
      }
    }

    method DoCast(m: Request, env: Option<nat>, a: Answers)
      modifies this
      ensures Did(SendCast(self, old(Contents()), m, env, a))
    {
      var reply := DoPublishCast(m, a);
      if env.Some? {
        Emit(Respond(0, env.value, reply));
      }
    }

    method DoPublishCast(m: Request, a: Answers) returns (reply: Reply)
      modifies this
      ensures Contents() == SendCast(self, old(Contents()), m, None, a).table
      ensures effects == old(effects) + SendCast(self, old(Contents()), m, None, a).effects
      ensures reply == if m.body.None? then Failed(NilMessage) else if !a.payloadOk then Failed(BadPayload)
                       else if !a.frameOk then Failed(BadFrame) else if !a.published then Failed(PublishFailed) else Done
    {
      if m.body.None? {
        return Failed(NilMessage);
      }
      if !a.payloadOk {
        return Failed(BadPayload);
      }
      nextRequestID := nextRequestID + 1;
      var frame := Frame(nextRequestID, self.moduleType, ToInt32(m.target.serverId), ToInt32(m.target.nodeId));
      if !a.frameOk {
        return Failed(BadFrame);
      }
      Emit(PublishCast(m.target, frame, a.published));
      return if a.published then Done else Failed(PublishFailed);
    }

    method NatsMsgAck(session: int, decoded: Option<string>)
      modifies this
      ensures Did(OnAck(old(Contents()), session, decoded))
    {
      if session !in ReqMsgMap {
        return;
      }
      DoFinishPending(session, if decoded.Some? then Value(decoded.value) else Failed(BadReply));
    }

    method TimeoutRequest(session: int)
      modifies this
      ensures Did(FinishPending(old(Contents()), session, Failed(TimedOut)))
    {
      DoFinishPending(session, Failed(TimedOut));
    }

    method DoFinishPending(session: int, reply: Reply)
      modifies this
      ensures Did(FinishPending(old(Contents()), session, reply))
    {
      if session !in ReqMsgMap {
        return;
      }
      var env := ReqMsgMap[session];
      ReqMsgMap := ReqMsgMap - {session};
      if session in requestTimers {
        Emit(Disarm(session));
      }
      requestTimers := requestTimers - {session};
      Emit(Respond(session, env, reply));
    }

    // Whatever order the map is visited in, the table ends up empty.
    method OnStop()
      modifies this
      ensures ReqMsgMap == map[]
      ensures exists order :: Visits(order, old(ReqMsgMap.Keys)) && Did(FinishAll(old(Contents()), order))
    {
      ghost var was := Contents();
      ghost var order: seq<int> := [];
      assert effects + [] == effects;
      var todo := ReqMsgMap.Keys;
      while todo != {}
        invariant todo == ReqMsgMap.Keys
        invariant forall s :: s in was.pending ==> s in order || s in todo
        invariant Contents() == FinishAll(was, order).table
        invariant effects == old(effects) + FinishAll(was, order).effects
        decreases todo
      {
        ghost var someone := SomeMember(todo);
        var session :| session in todo;
        assert (order + [session])[..|order|] == order;
        DoFinishPending(session, Failed(ActorStopped));
        todo := todo - {session};
        order := order + [session];
      }
      assert Visits(order, old(ReqMsgMap.Keys)) && Did(FinishAll(was, order));
    }
  }

  // ---- every run ----

  datatype Input =
    | Call(m: Request, env: Option<nat>, answers: Answers)
    | Cast(m: Request, env: Option<nat>, answers: Answers)
    | AckMsg(session: int, decoded: Option<string>)
    | TimeoutMsg(session: int)
    | Stop(order: seq<int>)

  function Handle(self: Address, t: Table, input: Input): Turn {
    match input
    case Call(m, env, answers) => SendCall(self, t, m, env, answers)
    case Cast(m, env, answers) => SendCast(self, t, m, env, answers)
    case AckMsg(session, decoded) => OnAck(t, session, decoded)
    case TimeoutMsg(session) => FinishPending(t, session, Failed(TimedOut))
    case Stop(order) => FinishAll(t, order)
  }

  function RunOf(self: Address, inputs: seq<Input>): Turn {
    if inputs == [] then Turn(Table(map[], {}, 0), []) else
      var before := RunOf(self, inputs[..|inputs| - 1]);
      var t := Handle(self, before.table, inputs[|inputs| - 1]);
      Turn(t.table, before.effects + t.effects)
  }

  // ---- counting on the log ----

  predicate IsIssue(e: Effect, session: int) {
    e.PublishCall? && e.frame.session == session
  }

  predicate IsSettle(e: Effect, session: int) {
    e.Respond? && e.session == session
  }

  predicate IsAnswer(e: Effect, env: nat) {
    e.Respond? && e.env == env
  }

  function Issues(log: seq<Effect>, session: int): nat {
    if log == [] then 0
    else Issues(log[..|log| - 1], session) + if IsIssue(log[|log| - 1], session) then 1 else 0
  }

  function Settles(log: seq<Effect>, session: int): nat {
    if log == [] then 0
    else Settles(log[..|log| - 1], session) + if IsSettle(log[|log| - 1], session) then 1 else 0
  }

  function AnswersTo(log: seq<Effect>, env: nat): nat {
    if log == [] then 0
    else AnswersTo(log[..|log| - 1], env) + if IsAnswer(log[|log| - 1], env) then 1 else 0
  }

  // The timers that were armed and not disarmed since.
  function Running(log: seq<Effect>): set<int> {
    if log == [] then {} else Switched(Running(log[..|log| - 1]), log[|log| - 1])
  }

  function Switched(running: set<int>, e: Effect): set<int> {
    if e.Arm? then running + {e.session} else if e.Disarm? then running - {e.session} else running
  }

  // How often a caller asked, over a whole run.
  function Asked(inputs: seq<Input>, env: nat): nat {
    if inputs == [] then 0
    else Asked(inputs[..|inputs| - 1], env) + if Asks(inputs[|inputs| - 1], env) then 1 else 0
  }

  predicate Asks(input: Input, env: nat) {
    (input.Call? || input.Cast?) && input.env == Some(env)
  }

  // How many table entries wait on behalf of a caller.
  function Held(pending: map<int, nat>, env: nat): nat {
    |set s | s in pending && pending[s] == env|
  }

  // Issued sessions are the disjoint union of pending and settled ones; sessions are never
  // reused; the running timers are exactly those on file, and each belongs to a pending session.
  ghost predicate Books(t: Table, log: seq<Effect>) {
    && t.next >= 0
    && t.timers <= t.pending.Keys
    && Running(log) == t.timers
    && (forall s :: s in t.pending ==> 1 <= s <= t.next)
    && (forall s :: SessionOk(t, log, s))
  }

  ghost predicate SessionOk(t: Table, log: seq<Effect>, s: int) {
    s != 0 ==>
      && Issues(log, s) == Settles(log, s) + (if s in t.pending then 1 else 0)
      && Issues(log, s) <= (if 1 <= s <= t.next then 1 else 0)
  }

  lemma LogAppend(log: seq<Effect>, e: Effect, s: int, env: nat)
    ensures Issues(log + [e], s) == Issues(log, s) + if IsIssue(e, s) then 1 else 0
    ensures Settles(log + [e], s) == Settles(log, s) + if IsSettle(e, s) then 1 else 0
    ensures AnswersTo(log + [e], env) == AnswersTo(log, env) + if IsAnswer(e, env) then 1 else 0
    ensures Running(log + [e]) == Switched(Running(log), e)
  {
  }

  function Hits(es: seq<Effect>, i: nat, test: Effect -> bool): nat {
    if i < |es| && test(es[i]) then 1 else 0
  }

  // A turn has at most two effects.
  lemma LogGrows(log: seq<Effect>, es: seq<Effect>, s: int, env: nat)
    requires |es| <= 2
    ensures Issues(log + es, s) == Issues(log, s) + Hits(es, 0, e => IsIssue(e, s)) + Hits(es, 1, e => IsIssue(e, s))
    ensures Settles(log + es, s) == Settles(log, s) + Hits(es, 0, e => IsSettle(e, s)) + Hits(es, 1, e => IsSettle(e, s))
    ensures AnswersTo(log + es, env) == AnswersTo(log, env) + Hits(es, 0, e => IsAnswer(e, env)) + Hits(es, 1, e => IsAnswer(e, env))
    ensures Running(log + es) == (if |es| == 0 then Running(log)
                                  else if |es| == 1 then Switched(Running(log), es[0])
                                  else Switched(Switched(Running(log), es[0]), es[1]))
  {
    hide Issues, Settles, AnswersTo, Running, Switched;
    if es == [] {
      assert log + es == log;
    } else {
      LogAppend(log, es[0], s, env);
      if |es| == 1 {
        assert log + es == log + [es[0]];
      } else {
        assert log + es == (log + [es[0]]) + [es[1]];
        LogAppend(log + [es[0]], es[1], s, env);
      }
    }
  }

  lemma HeldInsert(pending: map<int, nat>, s: int, env: nat, x: nat)
    requires s !in pending
    ensures Held(pending[s := env], x) == Held(pending, x) + if env == x then 1 else 0
  {
    var before := set k | k in pending && pending[k] == x;
    var next := pending[s := env];
    var after := set k | k in next && next[k] == x;
    assert after == if env == x then before + {s} else before;
  }

  lemma HeldRemove(pending: map<int, nat>, s: int, x: nat)
    requires s in pending
    ensures Held(pending, x) == Held(pending - {s}, x) + if pending[s] == x then 1 else 0
  {
    var before := set k | k in pending && pending[k] == x;
    var rest := pending - {s};
    var after := set k | k in rest && rest[k] == x;
    assert before == if pending[s] == x then after + {s} else after;
  }

  // One turn keeps the books and answers, or keeps waiting for, every caller it was given.
  ghost predicate Balanced(t: Table, log: seq<Effect>, turn: Turn, env: nat, asked: nat) {
    AnswersTo(log + turn.effects, env) + Held(turn.table.pending, env) == AnswersTo(log, env) + Held(t.pending, env) + asked
  }

  lemma SendCallKeepsBooks(self: Address, t: Table, log: seq<Effect>, m: Request, env: Option<nat>, a: Answers, x: nat)
    requires Books(t, log)
    ensures var r := SendCall(self, t, m, env, a);
            Books(r.table, log + r.effects) && Balanced(t, log, r, x, if env == Some(x) then 1 else 0)
  {
    hide Issues, Settles, AnswersTo, Running, Held, ToInt32;
    var r := SendCall(self, t, m, env, a);
    LogGrows(log, r.effects, 0, x);
    if env.Some? {
      HeldInsert(t.pending, t.next + 1, env.value, x);
      assert t.pending - {t.next + 1} == t.pending;
    }
    forall s ensures SessionOk(r.table, log + r.effects, s) {
      assert SessionOk(t, log, s);
      LogGrows(log, r.effects, s, x);
    }
  }

  lemma SendCastKeepsBooks(self: Address, t: Table, log: seq<Effect>, m: Request, env: Option<nat>, a: Answers, x: nat)
    requires Books(t, log)
    ensures var r := SendCast(self, t, m, env, a);
            Books(r.table, log + r.effects) && Balanced(t, log, r, x, if env == Some(x) then 1 else 0)
  {
    hide Issues, Settles, AnswersTo, Running, Held, ToInt32;
    var r := SendCast(self, t, m, env, a);
    LogGrows(log, r.effects, 0, x);
    forall s ensures SessionOk(r.table, log + r.effects, s) {
      assert SessionOk(t, log, s);
      LogGrows(log, r.effects, s, x);
    }
  }

  lemma FinishKeepsBooks(t: Table, log: seq<Effect>, session: int, reply: Reply, x: nat)
    requires Books(t, log)
    ensures var r := FinishPending(t, session, reply); Books(r.table, log + r.effects) && Balanced(t, log, r, x, 0)
  {
    hide Issues, Settles, AnswersTo, Running, Held;
    var r := FinishPending(t, session, reply);
    LogGrows(log, r.effects, 0, x);
    if session in t.pending {
      HeldRemove(t.pending, session, x);
    }
    forall s ensures SessionOk(r.table, log + r.effects, s) {
      assert SessionOk(t, log, s);
      LogGrows(log, r.effects, s, x);
    }
  }

  lemma {:induction false} FinishAllKeepsBooks(t: Table, log: seq<Effect>, order: seq<int>, x: nat)
    requires Books(t, log)
    ensures var r := FinishAll(t, order); Books(r.table, log + r.effects) && Balanced(t, log, r, x, 0)
  {
    hide Books, FinishPending, AnswersTo, Held;
    if order == [] {
      assert log + [] == log;
    } else {
      var front := order[..|order| - 1];
      FinishAllKeepsBooks(t, log, front, x);
      var mid := FinishAll(t, front);
      var last := FinishPending(mid.table, order[|order| - 1], Failed(ActorStopped));
      FinishKeepsBooks(mid.table, log + mid.effects, order[|order| - 1], Failed(ActorStopped), x);
      assert log + (mid.effects + last.effects) == (log + mid.effects) + last.effects;
    }
  }

  lemma HandleKeepsBooks(self: Address, t: Table, log: seq<Effect>, input: Input, x: nat)
    requires Books(t, log)
    ensures var r := Handle(self, t, input);
            Books(r.table, log + r.effects) && Balanced(t, log, r, x, if Asks(input, x) then 1 else 0)
  {
    hide Books, Balanced, SendCall, SendCast, FinishPending, FinishAll;
    match input
    case Call(m, env, answers) => SendCallKeepsBooks(self, t, log, m, env, answers, x);
    case Cast(m, env, answers) => SendCastKeepsBooks(self, t, log, m, env, answers, x);
    case AckMsg(session, decoded) =>
      FinishKeepsBooks(t, log, session, if decoded.Some? then Value(decoded.value) else Failed(BadReply), x);
    case TimeoutMsg(session) => FinishKeepsBooks(t, log, session, Failed(TimedOut), x);
    case Stop(order) => FinishAllKeepsBooks(t, log, order, x);
  }

  // Over any interleaving of calls, casts, acks (late, duplicate, unknown), timeouts,
  // failures and stops: the books are kept, and every time a caller asked it has either
  // been answered or one table entry is waiting for it.
  lemma {:induction false} EveryCallIsAccountedFor(self: Address, inputs: seq<Input>, env: nat)
    ensures var r := RunOf(self, inputs);
            && Books(r.table, r.effects)
            && Asked(inputs, env) == AnswersTo(r.effects, env) + Held(r.table.pending, env)
  {
    hide Books, Handle, AnswersTo, Held;
    if inputs == [] {
      NothingYet(env);
    } else {
      var front := inputs[..|inputs| - 1];
      EveryCallIsAccountedFor(self, front, env);
      var before := RunOf(self, front);
      HandleKeepsBooks(self, before.table, before.effects, inputs[|inputs| - 1], env);
    }
  }

  lemma NothingYet(env: nat)
    ensures Books(Table(map[], {}, 0), []) && AnswersTo([], env) == 0 && Held(map[], env) == 0
  {
  }

  // So an envelope is never answered more often than it asked, and once the actor has
  // stopped exactly as often; nothing is left in the table and no timer runs.
  lemma AnsweredExactlyOnceAfterStop(self: Address, inputs: seq<Input>, order: seq<int>, env: nat)
    requires Visits(order, RunOf(self, inputs).table.pending.Keys)
    ensures AnswersTo(RunOf(self, inputs).effects, env) <= Asked(inputs, env)
    ensures var r := RunOf(self, inputs + [Stop(order)]);
            && r.table.pending == map[] && r.table.timers == {} && Running(r.effects) == {}
            && AnswersTo(r.effects, env) == Asked(inputs, env)
  {
    hide AnswersTo, Held, Running, FinishAll;
    EveryCallIsAccountedFor(self, inputs, env);
    EveryCallIsAccountedFor(self, inputs + [Stop(order)], env);
    assert (inputs + [Stop(order)])[..|inputs|] == inputs;
    StopEmpties(RunOf(self, inputs).table, order);
    assert RunOf(self, inputs + [Stop(order)]).table.pending == map[];
    NothingYet(env);
  }

  lemma {:induction false} FinishedAreGone(t: Table, order: seq<int>)
    ensures FinishAll(t, order).table.pending.Keys == t.pending.Keys - set s | s in order
  {
    hide FinishPending;
    if order != [] {
      var front, last := order[..|order| - 1], order[|order| - 1];
      FinishedAreGone(t, front);
      assert order == front + [last];
      assert (set s | s in order) == (set s | s in front) + {last};
      FinishRemoves(FinishAll(t, front).table, last);
    }
  }

  lemma FinishRemoves(t: Table, session: int)
    ensures FinishPending(t, session, Failed(ActorStopped)).table.pending.Keys == t.pending.Keys - {session}
  {
  }

  lemma StopEmpties(t: Table, order: seq<int>)
    requires Visits(order, t.pending.Keys)
    ensures FinishAll(t, order).table.pending == map[]
  {
    FinishedAreGone(t, order);
    var rest := FinishAll(t, order).table.pending;
    var gone := set s | s in order;
    assert forall s :: s in t.pending.Keys ==> s in gone;
    assert forall s :: s in rest.Keys ==> s in t.pending.Keys && s !in gone;
    assert rest == map[];
  }

  lemma {:induction false} LogOnlyGrows(self: Address, inputs: seq<Input>, more: seq<Input>)
    ensures RunOf(self, inputs).effects <= RunOf(self, inputs + more).effects
    decreases |more|
  {
    hide Handle;
    if more == [] {
      assert inputs + more == inputs;
    } else {
      var front := more[..|more| - 1];
      LogOnlyGrows(self, inputs, front);
      assert (inputs + more)[..|inputs + more| - 1] == inputs + front;
    }
  }

  lemma {:induction false} SettlesOnlyGrow(log: seq<Effect>, longer: seq<Effect>, s: int)
    requires log <= longer
    ensures Settles(log, s) <= Settles(longer, s)
    decreases |longer|
  {
    if |log| == |longer| {
      assert log == longer;
    } else {
      SettlesOnlyGrow(log, longer[..|longer| - 1], s);
    }
  }

  // Once a session is settled no continuation ever answers it again, and an ack or a timeout
  // that comes late for it changes nothing at all.
  lemma SettledForGood(self: Address, inputs: seq<Input>, more: seq<Input>, s: int, decoded: Option<string>)
    requires s != 0 && Settles(RunOf(self, inputs).effects, s) > 0
    ensures Settles(RunOf(self, inputs + more).effects, s) == 1
    ensures RunOf(self, inputs + [AckMsg(s, decoded)]) == RunOf(self, inputs)
    ensures RunOf(self, inputs + [TimeoutMsg(s)]) == RunOf(self, inputs)
  {
    hide Running, Issues, Settles, AnswersTo, Held;
    EveryCallIsAccountedFor(self, inputs, 0);
    EveryCallIsAccountedFor(self, inputs + more, 0);
    LogOnlyGrows(self, inputs, more);
    SettlesOnlyGrow(RunOf(self, inputs).effects, RunOf(self, inputs + more).effects, s);
    assert SessionOk(RunOf(self, inputs).table, RunOf(self, inputs).effects, s);
    assert SessionOk(RunOf(self, inputs + more).table, RunOf(self, inputs + more).effects, s);
    RunAppend(self, inputs, AckMsg(s, decoded));
    RunAppend(self, inputs, TimeoutMsg(s));
  }

  lemma RunAppend(self: Address, inputs: seq<Input>, input: Input)
    ensures var before := RunOf(self, inputs); var t := Handle(self, before.table, input);
            RunOf(self, inputs + [input]) == Turn(t.table, before.effects + t.effects)
  {
    assert (inputs + [input])[..|inputs|] == inputs;
  }

  // ---- every answer reaches the caller of its own session ----

  // The envelope of the call that was given session s.
  function Caller(self: Address, inputs: seq<Input>, s: int): Option<nat> {
    if inputs == [] then None else
      var front, last := inputs[..|inputs| - 1], inputs[|inputs| - 1];
      if last.Call? && last.answers.payloadOk && s == RunOf(self, front).table.next + 1 then last.env
      else Caller(self, front, s)
  }

  ghost predicate WaitsFor(t: Table, callers: int -> Option<nat>) {
    forall s :: s in t.pending ==> 1 <= s <= t.next && callers(s) == Some(t.pending[s])
  }

  ghost predicate Addressed(next: int, es: seq<Effect>, callers: int -> Option<nat>) {
    forall e :: e in es && e.Respond? && e.session != 0 ==> 1 <= e.session <= next && callers(e.session) == Some(e.env)
  }

  lemma FinishIsAddressed(t: Table, session: int, reply: Reply, callers: int -> Option<nat>)
    requires WaitsFor(t, callers)
    ensures var r := FinishPending(t, session, reply);
            r.table.next == t.next && WaitsFor(r.table, callers) && Addressed(t.next, r.effects, callers)
  {
  }

  lemma {:induction false} FinishAllIsAddressed(t: Table, order: seq<int>, callers: int -> Option<nat>)
    requires WaitsFor(t, callers)
    ensures var r := FinishAll(t, order);
            r.table.next == t.next && WaitsFor(r.table, callers) && Addressed(t.next, r.effects, callers)
  {
    hide FinishPending, WaitsFor;
    if order != [] {
      var front, last := order[..|order| - 1], order[|order| - 1];
      FinishAllIsAddressed(t, front, callers);
      FinishIsAddressed(FinishAll(t, front).table, last, Failed(ActorStopped), callers);
    }
  }

  lemma HandleIsAddressed(self: Address, t: Table, input: Input, callers: int -> Option<nat>, later: int -> Option<nat>)
    requires t.next >= 0 && WaitsFor(t, callers)
    requires forall s :: later(s) == if input.Call? && input.answers.payloadOk && s == t.next + 1 then input.env else callers(s)
    ensures var r := Handle(self, t, input);
            r.table.next >= t.next && WaitsFor(r.table, later) && Addressed(r.table.next, r.effects, later)
  {
    hide FinishPending, FinishAll, RequestFrame, CastFrame;
    match input
    case Call(_, _, _) =>
    case Cast(_, _, _) =>
    case AckMsg(session, decoded) =>
      FinishIsAddressed(t, session, if decoded.Some? then Value(decoded.value) else Failed(BadReply), later);
    case TimeoutMsg(session) => FinishIsAddressed(t, session, Failed(TimedOut), later);
    case Stop(order) => FinishAllIsAddressed(t, order, later);
  }

  // In every run, an answer given for a session goes to the envelope of the very call that
  // session was issued to, and a waiting session waits for that envelope.
  lemma {:induction false} AnswersReachTheirCaller(self: Address, inputs: seq<Input>)
    ensures var r := RunOf(self, inputs); var callers := (s: int) => Caller(self, inputs, s);
            r.table.next >= 0 && WaitsFor(r.table, callers) && Addressed(r.table.next, r.effects, callers)
  {
    hide Handle;
    if inputs != [] {
      var front, last := inputs[..|inputs| - 1], inputs[|inputs| - 1];
      AnswersReachTheirCaller(self, front);
      var before := RunOf(self, front);
      HandleIsAddressed(self, before.table, last, (s: int) => Caller(self, front, s), (s: int) => Caller(self, inputs, s));
    }
  }

  // ---- every answer is the right one ----

  // After any run, a pending session's ack hands its caller exactly the decoded body, or the
  // decoding fault; its timeout hands it the timeout; either disarms a running timer.
  lemma AnswersAreExact(self: Address, inputs: seq<Input>, s: int, decoded: Option<string>)
    requires s in RunOf(self, inputs).table.pending
    ensures Caller(self, inputs, s).Some?
    ensures var log, env := RunOf(self, inputs).effects, Caller(self, inputs, s).value;
            var disarm := if s in Running(log) then [Disarm(s)] else [];
            && RunOf(self, inputs + [AckMsg(s, decoded)]).effects
                 == log + disarm + [Respond(s, env, if decoded.Some? then Value(decoded.value) else Failed(BadReply))]
            && RunOf(self, inputs + [TimeoutMsg(s)]).effects == log + disarm + [Respond(s, env, Failed(TimedOut))]
            && s !in RunOf(self, inputs + [AckMsg(s, decoded)]).table.pending
            && s !in RunOf(self, inputs + [TimeoutMsg(s)]).table.pending
  {
    hide RunOf, Running, Issues, Settles, AnswersTo, Held, Caller;
    EveryCallIsAccountedFor(self, inputs, 0);
    AnswersReachTheirCaller(self, inputs);
    RunAppend(self, inputs, AckMsg(s, decoded));
    RunAppend(self, inputs, TimeoutMsg(s));
  }

  // A stop tells every caller still waiting that the actor stopped, and answers nobody else.
  lemma StopAnswersTheWaiting(self: Address, inputs: seq<Input>, order: seq<int>, s: int, env: nat, reply: Reply)
    requires Visits(order, RunOf(self, inputs).table.pending.Keys)
    ensures var log, after := RunOf(self, inputs).effects, RunOf(self, inputs + [Stop(order)]).effects;
            && log <= after
            && (Respond(s, env, reply) in after[|log|..] <==>
                  s in RunOf(self, inputs).table.pending && Caller(self, inputs, s) == Some(env) && reply == Failed(ActorStopped))
  {
    hide RunOf, Caller, FinishAll;
    AnswersReachTheirCaller(self, inputs);
    RunAppend(self, inputs, Stop(order));
    var t, log := RunOf(self, inputs).table, RunOf(self, inputs).effects;
    StopAnswers(t, order, s, env, reply);
    assert (log + FinishAll(t, order).effects)[|log|..] == FinishAll(t, order).effects;
  }

  lemma {:induction false} StopAnswers(t: Table, order: seq<int>, s: int, env: nat, reply: Reply)
    ensures Respond(s, env, reply) in FinishAll(t, order).effects <==>
              s in order && s in t.pending && t.pending[s] == env && reply == Failed(ActorStopped)
    ensures forall x :: x in FinishAll(t, order).table.pending <==> x in t.pending && x !in order
    ensures forall x :: x in FinishAll(t, order).table.pending ==> FinishAll(t, order).table.pending[x] == t.pending[x]
  {
    if order != [] {
      var front, last := order[..|order| - 1], order[|order| - 1];
      assert order == front + [last];
      StopAnswers(t, front, s, env, reply);
    }
  }

  // Conversely, whatever value a caller was ever given had arrived in an ack of its session,
  // and a timeout it was told of had happened.
  lemma {:induction false} AnswersWereReceived(self: Address, inputs: seq<Input>, e: Effect)
    requires e in RunOf(self, inputs).effects && e.Respond?
    ensures e.reply.Value? ==> AckMsg(e.session, Some(e.reply.body)) in inputs
    ensures e.reply == Failed(TimedOut) ==> TimeoutMsg(e.session) in inputs
    ensures e.reply == Failed(ActorStopped) ==> exists input :: input in inputs && input.Stop?
  {
    if inputs != [] {
      var front, last := inputs[..|inputs| - 1], inputs[|inputs| - 1];
      var before := RunOf(self, front);
      assert inputs == front + [last] && last in inputs;
      if e in before.effects {
        AnswersWereReceived(self, front, e);
      } else {
        hide RunOf;
        TurnAnswers(self, before.table, last, e);
      }
    }
  }

  lemma TurnAnswers(self: Address, t: Table, input: Input, e: Effect)
    requires e in Handle(self, t, input).effects && e.Respond?
    ensures e.reply.Value? ==> input == AckMsg(e.session, Some(e.reply.body))
    ensures e.reply == Failed(TimedOut) ==> input == TimeoutMsg(e.session)
    ensures e.reply == Failed(ActorStopped) ==> input.Stop?
  {
    hide RequestFrame, CastFrame;
    if input.Stop? {
      StopAnswers(t, input.order, e.session, e.env, e.reply);
    }
  }

  // ---- every call goes out as asked ----

  // After any run, a call whose encoding succeeds is published to its target under a session
  // that was never issued before, with the caller's own return address; then it is timed, or
  // answered at once if the publication failed. One that cannot be encoded is only answered.
  lemma CallsExactly(self: Address, inputs: seq<Input>, m: Request, env: nat, a: Answers)
    ensures var log, after := RunOf(self, inputs).effects, RunOf(self, inputs + [Call(m, Some(env), a)]).effects;
            var session := RunOf(self, inputs).table.next + 1;
            var frame := Frame(session := session, sendModule := if m.sendModule == "" then self.moduleType else m.sendModule,
                               id := ToInt32(self.serverId), nodeId := ToInt32(self.nodeId));
            && session > 0 && Issues(log, session) == 0
            && after == log +
                 if !a.payloadOk then [Respond(0, env, Failed(BadPayload))]
                 else if !a.frameOk then [Respond(0, env, Failed(BadFrame))]
                 else if !a.published then [PublishCall(m.target, frame, false), Respond(session, env, Failed(PublishFailed))]
                 else [PublishCall(m.target, frame, true)] + if a.timed then [Arm(session)] else []
    ensures RunOf(self, inputs + [Call(m, Some(env), a)]).table.next == RunOf(self, inputs).table.next + if a.payloadOk then 1 else 0
    ensures RunOf(self, inputs + [Call(m, None, a)]) == RunOf(self, inputs)
  {
    hide RunOf, Running, Issues, Settles, AnswersTo, Held, ToInt32;
    EveryCallIsAccountedFor(self, inputs, 0);
    assert SessionOk(RunOf(self, inputs).table, RunOf(self, inputs).effects, RunOf(self, inputs).table.next + 1);
    RunAppend(self, inputs, Call(m, Some(env), a));
    RunAppend(self, inputs, Call(m, None, a));
    assert RunOf(self, inputs).effects + [] == RunOf(self, inputs).effects;
  }

  // A cast is published to its target with the target's own numbers, and answered once.
  lemma CastsExactly(self: Address, inputs: seq<Input>, m: Request, env: nat, a: Answers)
    ensures var log, after := RunOf(self, inputs).effects, RunOf(self, inputs + [Cast(m, Some(env), a)]).effects;
            var frame := Frame(session := RunOf(self, inputs).table.next + 1, sendModule := self.moduleType,
                               id := ToInt32(m.target.serverId), nodeId := ToInt32(m.target.nodeId));
            after == log +
              if m.body.None? then [Respond(0, env, Failed(NilMessage))]
              else if !a.payloadOk then [Respond(0, env, Failed(BadPayload))]
              else if !a.frameOk then [Respond(0, env, Failed(BadFrame))]
              else [PublishCast(m.target, frame, a.published), Respond(0, env, if a.published then Done else Failed(PublishFailed))]
    ensures var t, after := RunOf(self, inputs).table, RunOf(self, inputs + [Cast(m, Some(env), a)]).table;
            after == Table(t.pending, t.timers, t.next + if m.body.Some? && a.payloadOk then 1 else 0)
  {
    hide RunOf, ToInt32;
    RunAppend(self, inputs, Cast(m, Some(env), a));
  }

  // ---- the way back ----

  // The target echoes the routing metadata (MsgHandle), so its ack goes to this address.
  function AckAddress(frame: Frame): Address {
    Address(frame.sendModule, frame.id, frame.nodeId)
  }

  predicate FitsInt32(x: int) {
    -INT32_MAX - 1 <= x <= INT32_MAX
  }

  // The ack of a call reaches the caller's own subject exactly when the call names no
  // module but the caller's own and the caller's numbers survive the cut to 32 bits.
  lemma AckComesBackExactly(self: Address, m: Request, session: int)
    ensures AckAddress(RequestFrame(self, m, session)) == self
            <==> (m.sendModule == "" || m.sendModule == self.moduleType) && FitsInt32(self.serverId) && FitsInt32(self.nodeId)
    ensures RequestFrame(self, m, session).session == session
  {
  }
}
