// The session table of the game gateway (game/gate/internal/service.go): one agent per
// logged-in user, replaced on a new login and stopped when its session ends.
module Gate {
  import opened Common

  datatype Session = Session(pid: nat, generation: nat, uid: nat)

  datatype Table = Table(sessions: map<nat, Session>, banned: set<nat>, nextGen: nat)

  // Effects in order. Greet hands the login to the new agent, Deliver a push to its agent;
  // NotifyClosed tells the game, where it can be looked up, that the user is gone.
  datatype Effect =
    | Refuse
    | Spawn(session: Session)
    | Greet(pid: nat)
    | Opened(session: Session)
    | StopAgent(pid: nat)
    | Deliver(pid: nat)
    | NotifyClosed(uid: nat)

  datatype Turn = Turn(table: Table, effects: seq<Effect>)

  // Open carries the user of a login request (None for any other first message) and the
  // identity the actor system gives the agent; `accepted` is the answer of the agent's mailbox,
  // `play` whether the game can be looked up.
  datatype Input =
    | Open(login: Option<nat>, pid: nat)
    | CloseMsg(session: Session, play: bool)
    | PushMsg(uid: nat, present: bool, accepted: bool, play: bool)
    | Ban(uid: nat, play: bool)
    | Unban(uid: nat)
    | Stop(order: seq<nat>)

  function OpenSession(t: Table, login: Option<nat>, pid: nat): Turn {
    if login.None? || login.value in t.banned then Turn(t, [Refuse])
    else
      var uid := login.value;
      var session := Session(pid, t.nextGen + 1, uid);
      Turn(t.(sessions := t.sessions[uid := session], nextGen := t.nextGen + 1),
           (if uid in t.sessions then [StopAgent(t.sessions[uid].pid)] else [])
           + [Spawn(session), Greet(pid), Opened(session)])
  }

  function Notice(uid: nat, play: bool): seq<Effect> {
    if play then [NotifyClosed(uid)] else []
  }

  function CloseCurrent(t: Table, uid: nat, play: bool): Turn
    requires uid in t.sessions
  {
    Turn(t.(sessions := t.sessions - {uid}), [StopAgent(t.sessions[uid].pid)] + Notice(uid, play))
  }

  // A close is believed only from the agent that owns the session.
  function CloseSession(t: Table, closed: Session, play: bool): Turn {
    if closed.uid !in t.sessions || t.sessions[closed.uid].pid != closed.pid || t.sessions[closed.uid].generation != closed.generation
    then Turn(t, [])
    else CloseCurrent(t, closed.uid, play)
  }

  function PushTo(t: Table, uid: nat, present: bool, accepted: bool, play: bool): Turn {
    if !present || uid !in t.sessions then Turn(t, [])
    else if accepted then Turn(t, [Deliver(t.sessions[uid].pid)])
    else CloseCurrent(t, uid, play)
  }

  function BanUid(t: Table, uid: nat, play: bool): Turn {
    if uid == 0 then Turn(t, []) else
      var banned := t.(banned := t.banned + {uid});
      if uid in t.sessions then CloseCurrent(banned, uid, play) else Turn(banned, [])
  }

  function UnbanUid(t: Table, uid: nat): Turn {
    Turn(t.(banned := t.banned - {uid}), [])
  }

  function StopOne(t: Table, uid: nat): Turn {
    if uid in t.sessions then Turn(t.(sessions := t.sessions - {uid}), [StopAgent(t.sessions[uid].pid)]) else Turn(t, [])
  }

  // Stopping visits the users in the order Go's map iteration happens to choose.
  function StopAll(t: Table, order: seq<nat>): Turn {
    if order == [] then Turn(t, []) else
      var before := StopAll(t, order[..|order| - 1]);
      var last := StopOne(before.table, order[|order| - 1]);
      Turn(last.table, before.effects + last.effects)
  }

  function Handle(t: Table, input: Input): Turn {
    match input
    case Open(login, pid) => OpenSession(t, login, pid)
    case CloseMsg(session, play) => CloseSession(t, session, play)
    case PushMsg(uid, present, accepted, play) => PushTo(t, uid, present, accepted, play)
    case Ban(uid, play) => BanUid(t, uid, play)
    case Unban(uid) => UnbanUid(t, uid)
    case Stop(order) => StopAll(t, order)
  }

  lemma StopNothing(t: Table)
    ensures StopAll(t, []) == Turn(t, [])
  {
  }

  lemma StopAllStep(t: Table, order: seq<nat>, uid: nat)
    ensures var before := StopAll(t, order); var last := StopOne(before.table, uid);
            StopAll(t, order + [uid]) == Turn(last.table, before.effects + last.effects)
  {
  }

  class GateActor {
    var sessions: map<nat, Session>
    var bannedUIDs: set<nat>
    var nextGen: nat
    var effects: seq<Effect>

    function Contents(): Table
      reads this
    {
      Table(sessions, bannedUIDs, nextGen)
    }

    twostate predicate Did(t: Turn)
      reads this
    {
      Contents() == t.table && effects == old(effects) + t.effects
    }

    constructor ()
      ensures Contents() == Table(map[], {}, 0) && effects == []
    {
      sessions, bannedUIDs, nextGen, effects := map[], {}, 0, [];
    }

    method Emit(e: Effect)
      modifies this`effects
      ensures effects == old(effects) + [e]
    {
      effects := effects + [e];
    }

    method OnOpenSession(login: Option<nat>, pid: nat)
      modifies this
      ensures Did(OpenSession(old(Contents()), login, pid))
    {
      if login.None? {
        Emit(Refuse);
        return;
      }
      var uid := login.value;
      if uid in bannedUIDs {
        Emit(Refuse);
        return;
      }
      if uid in sessions {
        Emit(StopAgent(sessions[uid].pid));
      }
      nextGen := nextGen + 1;
      var generation := nextGen;
      var session := Session(pid, generation, uid);
      Emit(Spawn(session));
      sessions := sessions[uid := session];
      Emit(Greet(pid));
      Emit(Opened(session));
    }

    method OnCloseSession(closed: Session, play: bool)
      modifies this
      ensures Did(CloseSession(old(Contents()), closed, play))
    {
      if closed.uid !in sessions {
        return;
      }
      var current := sessions[closed.uid];
      if current.pid != closed.pid || current.generation != closed.generation {
        return;
      }
      sessions := sessions - {closed.uid};
      Emit(StopAgent(current.pid));
      NotifySessionClosed(closed.uid, play);
    }

    method NotifySessionClosed(uid: nat, play: bool)
      modifies this`effects
      ensures effects == old(effects) + Notice(uid, play)
    {
      if play {
        Emit(NotifyClosed(uid));
      }
    }

    method DoCloseCurrent(uid: nat, play: bool)
      requires uid in sessions
      modifies this
      ensures Did(CloseCurrent(old(Contents()), uid, play))
    {
      var current := sessions[uid];
      sessions := sessions - {uid};
      Emit(StopAgent(current.pid));
      NotifySessionClosed(uid, play);
    }

    method OnPushToMsg(uid: nat, present: bool, accepted: bool, play: bool)
      modifies this
      ensures Did(PushTo(old(Contents()), uid, present, accepted, play))
    {
      if !present {
        return;
      }
      if uid !in sessions {
        return;
      }
      if accepted {
        Emit(Deliver(sessions[uid].pid));
      } else {
        DoCloseCurrent(uid, play);
      }
    }

    method OnBanUID(uid: nat, play: bool)
      modifies this
      ensures Did(BanUid(old(Contents()), uid, play))
    {
      if uid == 0 {
        return;
      }
      bannedUIDs := bannedUIDs + {uid};
      if uid in sessions {
        DoCloseCurrent(uid, play);
      }
    }

    method OnUnbanUID(uid: nat)
      modifies this
      ensures Did(UnbanUid(old(Contents()), uid))
    {
      bannedUIDs := bannedUIDs - {uid};
    }

    method OnStop()
      modifies this
      ensures sessions == map[]
      ensures exists order :: Visits(order, old(sessions.Keys)) && Did(StopAll(old(Contents()), order))
    {
      hide StopAll;
      ghost var was := Contents();
      ghost var order: seq<nat> := [];
      assert StopAll(was, []) == Turn(was, []) by { StopNothing(was); }
      assert effects + [] == effects;
      var todo := sessions.Keys;
      while todo != {}
        invariant todo == sessions.Keys
        invariant forall u :: u in was.sessions ==> u in order || u in todo
        invariant Contents() == StopAll(was, order).table
        invariant effects == old(effects) + StopAll(was, order).effects
        decreases todo
      {
        ghost var someone := SomeMember(todo);
        var uid :| uid in todo;
        var current := sessions[uid];
        StopAllStep(was, order, uid);
        sessions := sessions - {uid};
        Emit(StopAgent(current.pid));
        todo := todo - {uid};
        order := order + [uid];
      }
      assert Visits(order, old(sessions.Keys)) && Did(StopAll(was, order));
    }
  }

  // ---- every run ----

  function RunOf(inputs: seq<Input>): Turn {
    if inputs == [] then Turn(Table(map[], {}, 0), []) else
      var before := RunOf(inputs[..|inputs| - 1]);
      var t := Handle(before.table, inputs[|inputs| - 1]);
      Turn(t.table, before.effects + t.effects)
  }

  // The sessions ever opened, and the agents ever told to stop.
  function Spawned(log: seq<Effect>): set<Session> {
    set e | e in log && e.Spawn? :: e.session
  }

  function Stopped(log: seq<Effect>): set<nat> {
    set e | e in log && e.StopAgent? :: e.pid
  }

  // The actor system never gives two agents the same identity.
  ghost predicate NewPid(log: seq<Effect>, input: Input) {
    input.Open? ==> forall s :: s in Spawned(log) ==> s.pid != input.pid
  }

  ghost predicate NewPids(inputs: seq<Input>) {
    inputs != [] ==>
      var n := |inputs| - 1;
      NewPids(inputs[..n]) && NewPid(RunOf(inputs[..n]).effects, inputs[n])
  }

  // s is the session its user has now.
  predicate Current(t: Table, s: Session) {
    s.uid in t.sessions && t.sessions[s.uid] == s
  }

  // A session on file was opened and is not of a banned user; an agent is its user's
  // current one exactly as long as it was not told to stop; generations and identities
  // tell all agents ever spawned apart.
  ghost predicate Sane(t: Table, spawned: set<Session>, stopped: set<nat>) {
    && (forall u :: u in t.sessions ==> t.sessions[u].uid == u && u !in t.banned && t.sessions[u] in spawned)
    && (forall s :: s in spawned ==> (Current(t, s) <==> s.pid !in stopped) && 1 <= s.generation <= t.nextGen)
    && (forall s, r :: s in spawned && r in spawned && (s.generation == r.generation || s.pid == r.pid) ==> s == r)
    && (forall pid :: pid in stopped ==> exists s :: s in spawned && s.pid == pid)
  }

  ghost predicate SaneAfter(t: Table, log: seq<Effect>) {
    Sane(t, Spawned(log), Stopped(log))
  }

  lemma LogConcat(log: seq<Effect>, es: seq<Effect>)
    ensures Spawned(log + es) == Spawned(log) + Spawned(es)
    ensures Stopped(log + es) == Stopped(log) + Stopped(es)
  {
  }

  lemma ReplacedIsSane(t: Table, spawned: set<Session>, stopped: set<nat>, uid: nat, pid: nat)
    requires Sane(t, spawned, stopped) && uid !in t.banned && forall s :: s in spawned ==> s.pid != pid
    ensures var session := Session(pid, t.nextGen + 1, uid);
            Sane(t.(sessions := t.sessions[uid := session], nextGen := t.nextGen + 1), spawned + {session},
                 stopped + if uid in t.sessions then {t.sessions[uid].pid} else {})
  {
  }

  lemma RemovedIsSane(t: Table, spawned: set<Session>, stopped: set<nat>, uid: nat, banned: set<nat>)
    requires Sane(t, spawned, stopped) && uid in t.sessions && banned <= t.banned + {uid}
    ensures Sane(t.(sessions := t.sessions - {uid}, banned := banned), spawned, stopped + {t.sessions[uid].pid})
  {
  }

  lemma OpenEffects(t: Table, login: Option<nat>, pid: nat)
    requires login.Some? && login.value !in t.banned
    ensures var es := OpenSession(t, login, pid).effects;
            && Spawned(es) == {Session(pid, t.nextGen + 1, login.value)}
            && Stopped(es) == if login.value in t.sessions then {t.sessions[login.value].pid} else {}
  {
  }

  lemma OpenKeepsSane(t: Table, log: seq<Effect>, login: Option<nat>, pid: nat)
    requires SaneAfter(t, log) && NewPid(log, Open(login, pid))
    ensures var r := OpenSession(t, login, pid); SaneAfter(r.table, log + r.effects)
  {
    hide Sane, Spawned, Stopped;
    if login.None? || login.value in t.banned {
      QuietKeepsSane(t, log, [Refuse]);
    } else {
      OpenEffects(t, login, pid);
      LogConcat(log, OpenSession(t, login, pid).effects);
      ReplacedIsSane(t, Spawned(log), Stopped(log), login.value, pid);
    }
  }

  lemma RemovalKeepsSane(t: Table, log: seq<Effect>, uid: nat, es: seq<Effect>, banned: set<nat>)
    requires SaneAfter(t, log) && uid in t.sessions && banned <= t.banned + {uid}
    requires es == [StopAgent(t.sessions[uid].pid)] || es == [StopAgent(t.sessions[uid].pid), NotifyClosed(uid)]
    ensures SaneAfter(t.(sessions := t.sessions - {uid}, banned := banned), log + es)
  {
    hide Sane;
    assert es[0].StopAgent?;
    assert Spawned(es) == {} && Stopped(es) == {t.sessions[uid].pid};
    LogConcat(log, es);
    assert Spawned(log) + {} == Spawned(log);
    RemovedIsSane(t, Spawned(log), Stopped(log), uid, banned);
  }

  // Effects that neither spawn nor stop do not matter.
  lemma QuietKeepsSane(t: Table, log: seq<Effect>, es: seq<Effect>)
    requires SaneAfter(t, log) && forall e :: e in es ==> !e.Spawn? && !e.StopAgent?
    ensures SaneAfter(t, log + es)
  {
    hide Sane;
    LogConcat(log, es);
    assert Spawned(es) == {} && Stopped(es) == {};
    assert Spawned(log) + {} == Spawned(log) && Stopped(log) + {} == Stopped(log);
  }

  lemma {:induction false} StopAllKeepsSane(t: Table, log: seq<Effect>, order: seq<nat>)
    requires SaneAfter(t, log)
    ensures var r := StopAll(t, order); SaneAfter(r.table, log + r.effects)
  {
    hide SaneAfter;
    if order == [] {
      assert log + [] == log;
    } else {
      var front, last := order[..|order| - 1], order[|order| - 1];
      StopAllKeepsSane(t, log, front);
      var mid := StopAll(t, front);
      var es := StopOne(mid.table, last).effects;
      assert log + (mid.effects + es) == (log + mid.effects) + es;
      if last in mid.table.sessions {
        RemovalKeepsSane(mid.table, log + mid.effects, last, es, mid.table.banned);
      } else {
        QuietKeepsSane(mid.table, log + mid.effects, es);
      }
    }
  }

  lemma HandleKeepsSane(t: Table, log: seq<Effect>, input: Input)
    requires SaneAfter(t, log) && NewPid(log, input)
    ensures var r := Handle(t, input); SaneAfter(r.table, log + r.effects)
  {
    hide SaneAfter, NewPid, OpenSession, StopAll;
    QuietKeepsSane(t, log, []);
    match input
    case Open(login, pid) => OpenKeepsSane(t, log, login, pid);
    case CloseMsg(closed, play) =>
      if closed.uid in t.sessions {
        RemovalKeepsSane(t, log, closed.uid, CloseCurrent(t, closed.uid, play).effects, t.banned);
      }
    case PushMsg(uid, present, accepted, play) =>
      if uid in t.sessions {
        RemovalKeepsSane(t, log, uid, CloseCurrent(t, uid, play).effects, t.banned);
        QuietKeepsSane(t, log, [Deliver(t.sessions[uid].pid)]);
      }
    case Ban(uid, play) =>
      if uid in t.sessions {
        RemovalKeepsSane(t, log, uid, CloseCurrent(t, uid, play).effects, t.banned + {uid});
      } else {
        RebanningKeepsSane(t, log, uid, t.banned + {uid});
      }
    case Unban(uid) => RebanningKeepsSane(t, log, uid, t.banned - {uid});
    case Stop(order) => StopAllKeepsSane(t, log, order);
  }

  lemma RebanningKeepsSane(t: Table, log: seq<Effect>, uid: nat, banned: set<nat>)
    requires SaneAfter(t, log) && banned <= t.banned + if uid in t.sessions then {} else {uid}
    ensures SaneAfter(t.(banned := banned), log + [])
  {
    assert log + [] == log;
  }

  // Over every run: no banned user has a session; generations and identities are never
  // reused; and an agent is its user's current one exactly as long as it was not told to stop.
  lemma {:induction false} SessionsAreSane(inputs: seq<Input>)
    requires NewPids(inputs)
    ensures SaneAfter(RunOf(inputs).table, RunOf(inputs).effects)
  {
    hide SaneAfter, Handle, NewPid;
    if inputs == [] {
      NothingIsSane();
    } else {
      var n := |inputs| - 1;
      var front := inputs[..n];
      SessionsAreSane(front);
      HandleKeepsSane(RunOf(front).table, RunOf(front).effects, inputs[n]);
    }
  }

  lemma NothingIsSane()
    ensures SaneAfter(Table(map[], {}, 0), [])
  {
  }

  // The close of an agent that was ever spawned removes that agent's session if it is still
  // the current one, and otherwise changes nothing: a stale close never hits a newer session.
  lemma CloseHitsOnlyItsOwn(inputs: seq<Input>, s: Session, play: bool)
    requires NewPids(inputs) && s in Spawned(RunOf(inputs).effects)
    ensures var t := RunOf(inputs).table; var r := Handle(t, CloseMsg(s, play));
            if Current(t, s) then
              r.table == t.(sessions := t.sessions - {s.uid}) && r.effects == [StopAgent(s.pid)] + Notice(s.uid, play)
            else r.table == t && r.effects == []
  {
    hide RunOf, NewPids;
    SessionsAreSane(inputs);
  }

  // A close is believed, after any run, exactly if it names agent and generation of the
  // session that stands; otherwise nothing changes.
  lemma ClosesExactly(inputs: seq<Input>, s: Session, play: bool)
    ensures var t, log, after := RunOf(inputs).table, RunOf(inputs).effects, RunOf(inputs + [CloseMsg(s, play)]);
            if s.uid in t.sessions && t.sessions[s.uid].pid == s.pid && t.sessions[s.uid].generation == s.generation then
              && after.table == t.(sessions := t.sessions - {s.uid})
              && after.effects == log + [StopAgent(s.pid)] + if play then [NotifyClosed(s.uid)] else []
            else after == RunOf(inputs)
  {
    assert (inputs + [CloseMsg(s, play)])[..|inputs|] == inputs;
    hide RunOf;
    assert RunOf(inputs).effects + [] == RunOf(inputs).effects;
  }

  // A ban ends the session the user has, an unban ends none, and neither does anything else.
  lemma BansEndSessions(inputs: seq<Input>, uid: nat, play: bool)
    ensures var t, log, after := RunOf(inputs).table, RunOf(inputs).effects, RunOf(inputs + [Ban(uid, play)]);
            if uid == 0 then after == RunOf(inputs)
            else
              && after.table == Table(t.sessions - {uid}, t.banned + {uid}, t.nextGen)
              && after.effects == log + if uid !in t.sessions then []
                                        else [StopAgent(t.sessions[uid].pid)] + if play then [NotifyClosed(uid)] else []
    ensures var t, log, after := RunOf(inputs).table, RunOf(inputs).effects, RunOf(inputs + [Unban(uid)]);
            after.table == Table(t.sessions, t.banned - {uid}, t.nextGen) && after.effects == log
  {
    assert (inputs + [Ban(uid, play)])[..|inputs|] == inputs;
    assert (inputs + [Unban(uid)])[..|inputs|] == inputs;
    hide RunOf;
    var t := RunOf(inputs).table;
    assert RunOf(inputs).effects + [] == RunOf(inputs).effects;
    assert uid !in t.sessions ==> t.sessions - {uid} == t.sessions;
  }

  // A refused login leaves the table alone and hears so.
  lemma RefusalsAreExact(inputs: seq<Input>, login: Option<nat>, pid: nat)
    ensures var t, log, after := RunOf(inputs).table, RunOf(inputs).effects, RunOf(inputs + [Open(login, pid)]);
            Refuse in after.effects[|log|..] <==> login.None? || login.value in t.banned
    ensures var t, log, after := RunOf(inputs).table, RunOf(inputs).effects, RunOf(inputs + [Open(login, pid)]);
            login.None? || login.value in t.banned ==> after.table == t && after.effects == log + [Refuse]
  {
    assert (inputs + [Open(login, pid)])[..|inputs|] == inputs;
    hide RunOf;
    assert RunOf(inputs + [Open(login, pid)]).effects[|RunOf(inputs).effects|..] == OpenSession(RunOf(inputs).table, login, pid).effects;
  }

  // A login is let in exactly if it is one and its user is not banned. It then owns the
  // session, is younger than every agent before it, and the user's older agents are all
  // told to stop.
  lemma LoginSucceedsExactly(inputs: seq<Input>, login: Option<nat>, pid: nat)
    requires NewPids(inputs) && NewPid(RunOf(inputs).effects, Open(login, pid))
    ensures var t := RunOf(inputs).table; var r := Handle(t, Open(login, pid));
            && ((exists s :: Opened(s) in r.effects) <==> login.Some? && login.value !in t.banned)
            && forall s :: Opened(s) in r.effects ==>
                 && Spawn(s) in r.effects && Greet(s.pid) in r.effects && s.uid == login.value && s.pid == pid && Current(r.table, s)
                 && forall elder :: elder in Spawned(RunOf(inputs).effects) ==>
                      && elder.generation < s.generation
                      && (elder.uid == s.uid ==> elder.pid in Stopped(RunOf(inputs).effects + r.effects))
  {
    hide RunOf, NewPids, Spawned, Stopped;
    SessionsAreSane(inputs);
    var t, log := RunOf(inputs).table, RunOf(inputs).effects;
    var es := OpenSession(t, login, pid).effects;
    if login.Some? && login.value !in t.banned {
      OpenEffects(t, login, pid);
      LogConcat(log, es);
      assert Opened(Session(pid, t.nextGen + 1, login.value)) == es[|es| - 1];
      assert Greet(pid) == es[|es| - 2] && Spawn(Session(pid, t.nextGen + 1, login.value)) == es[|es| - 3];
    }
  }

  // The last word about the user was a ban.
  predicate LastBanned(inputs: seq<Input>, uid: nat) {
    if inputs == [] then false else
      match inputs[|inputs| - 1]
      case Ban(u, _) => u == uid || LastBanned(inputs[..|inputs| - 1], uid)
      case Unban(u) => u != uid && LastBanned(inputs[..|inputs| - 1], uid)
      case _ => LastBanned(inputs[..|inputs| - 1], uid)
  }

  // After any run exactly the users last banned are on the list, but never user 0.
  lemma {:induction false} BansExactly(inputs: seq<Input>, uid: nat)
    ensures uid in RunOf(inputs).table.banned <==> uid != 0 && LastBanned(inputs, uid)
  {
    if inputs != [] {
      var front, last := inputs[..|inputs| - 1], inputs[|inputs| - 1];
      BansExactly(front, uid);
      if last.Stop? {
        StopBansNobody(RunOf(front).table, last.order);
      }
    }
  }

  lemma {:induction false} StopBansNobody(t: Table, order: seq<nat>)
    ensures StopAll(t, order).table.banned == t.banned
  {
    if order != [] {
      StopBansNobody(t, order[..|order| - 1]);
    }
  }

  // A push reaches exactly the agent of its user's session; if that agent's mailbox is full
  // the session ends instead. Others are dropped.
  lemma PushesExactly(inputs: seq<Input>, uid: nat, present: bool, accepted: bool, play: bool)
    ensures var t, log, after := RunOf(inputs).table, RunOf(inputs).effects, RunOf(inputs + [PushMsg(uid, present, accepted, play)]);
            if !present || uid !in t.sessions then after == RunOf(inputs)
            else if accepted then after.table == t && after.effects == log + [Deliver(t.sessions[uid].pid)]
            else
              && after.table == t.(sessions := t.sessions - {uid})
              && after.effects == log + [StopAgent(t.sessions[uid].pid)] + if play then [NotifyClosed(uid)] else []
  {
    assert (inputs + [PushMsg(uid, present, accepted, play)])[..|inputs|] == inputs;
    hide RunOf;
    assert RunOf(inputs).effects + [] == RunOf(inputs).effects;
  }

  // Two users never share an agent or a generation.
  lemma SessionsAreDistinct(inputs: seq<Input>, u: nat, v: nat)
    requires NewPids(inputs) && u in RunOf(inputs).table.sessions && v in RunOf(inputs).table.sessions && u != v
    ensures var t := RunOf(inputs).table;
            t.sessions[u].generation != t.sessions[v].generation && t.sessions[u].pid != t.sessions[v].pid
  {
    hide RunOf, NewPids;
    SessionsAreSane(inputs);
  }

  // After a stop every agent ever spawned has been told to stop.
  lemma StopLeavesNoAgent(inputs: seq<Input>, order: seq<nat>, s: Session)
    requires NewPids(inputs + [Stop(order)]) && Visits(order, RunOf(inputs).table.sessions.Keys)
    requires s in Spawned(RunOf(inputs + [Stop(order)]).effects)
    ensures s.pid in Stopped(RunOf(inputs + [Stop(order)]).effects)
  {
    hide NewPids, StopAll;
    SessionsAreSane(inputs + [Stop(order)]);
    assert (inputs + [Stop(order)])[..|inputs|] == inputs;
    StopEmpties(RunOf(inputs).table, order);
  }

  lemma {:induction false} StoppedAreGone(t: Table, order: seq<nat>)
    ensures forall u :: u in StopAll(t, order).table.sessions ==> u in t.sessions && u !in order
  {
    if order != [] {
      StoppedAreGone(t, order[..|order| - 1]);
    }
  }

  lemma StopEmpties(t: Table, order: seq<nat>)
    requires Visits(order, t.sessions.Keys)
    ensures StopAll(t, order).table.sessions == map[]
  {
    StoppedAreGone(t, order);
  }

  // ---- what the game is told ----

  // A session of the user was opened, and the game was not told since that it is gone.
  predicate Untold(log: seq<Effect>, uid: nat) {
    if log == [] then false else
      var last := log[|log| - 1];
      if last.Spawn? && last.session.uid == uid then true
      else if last == NotifyClosed(uid) then false
      else Untold(log[..|log| - 1], uid)
  }

  // The user's last session was ended by a stop of the gate, or while the game could not be
  // looked up.
  predicate EndedSilently(inputs: seq<Input>, uid: nat) {
    if inputs == [] then false else
      var front, last := inputs[..|inputs| - 1], inputs[|inputs| - 1];
      var was, now := RunOf(front).table.sessions, RunOf(inputs).table.sessions;
      if uid in now then false
      else if uid in was then last.Stop? || !LooksUp(last)
      else EndedSilently(front, uid)
  }

  predicate LooksUp(input: Input) {
    (input.CloseMsg? || input.PushMsg? || input.Ban?) && input.play
  }

  lemma UntoldAppend(log: seq<Effect>, e: Effect, uid: nat)
    ensures Untold(log + [e], uid) ==
            if e.Spawn? && e.session.uid == uid then true else if e == NotifyClosed(uid) then false else Untold(log, uid)
  {
  }

  // Over every run: a session is untold while it lasts, and after its end exactly if it ended
  // silently. So a game that takes its users for present until told otherwise is right about
  // a user if and only if his last session did not end silently.
  lemma {:induction false} NoticesAreExact(inputs: seq<Input>, uid: nat)
    ensures var log, sessions := RunOf(inputs).effects, RunOf(inputs).table.sessions;
            && (Untold(log, uid) <==> uid in sessions || EndedSilently(inputs, uid))
            && ((Untold(log, uid) <==> uid in sessions) <==> !EndedSilently(inputs, uid))
  {
    hide Handle, Untold;
    if inputs == [] {
      NobodyYet(uid);
    } else {
      NoticesAreExact(inputs[..|inputs| - 1], uid);
      var before := RunOf(inputs[..|inputs| - 1]);
      HandleTells(before.table, before.effects, inputs[|inputs| - 1], uid);
    }
  }

  // A ban while the game cannot be looked up ends the session and tells nobody.
  lemma UnheardBan()
    ensures var r := RunOf([Open(Some(7), 1), Ban(7, false)]);
            Untold(r.effects, 7) && 7 !in r.table.sessions && 7 in r.table.banned
  {
    var open, ban := Open(Some(7), 1), Ban(7, false);
    assert [open, ban][..1] == [open] && [open][..0] == [];
    assert RunOf([open]).table == Table(map[7 := Session(1, 1, 7)], {}, 1);
    NoticesAreExact([open, ban], 7);
  }

  lemma NobodyYet(uid: nat)
    ensures !Untold([], uid)
  {
  }

  // Effects that say nothing about who is online.
  predicate Silent(e: Effect) {
    !e.Spawn? && !e.NotifyClosed?
  }

  lemma UntoldGrows(log: seq<Effect>, es: seq<Effect>, k: nat, uid: nat)
    requires k < |es| && forall i :: 0 <= i < |es| && i != k ==> Silent(es[i])
    ensures Untold(log + es, uid) == Untold(log + [es[k]], uid)
    decreases |es|
  {
    hide Untold;
    var n := |es| - 1;
    if n > k {
      UntoldGrows(log, es[..n], k, uid);
      assert log + es == (log + es[..n]) + [es[n]];
      UntoldAppend(log + es[..n], es[n], uid);
    } else {
      UntoldStays(log, es[..n], uid);
      assert log + es == (log + es[..n]) + [es[n]];
      UntoldAppend(log + es[..n], es[n], uid);
      UntoldAppend(log, es[n], uid);
    }
  }

  lemma {:induction false} UntoldStays(log: seq<Effect>, es: seq<Effect>, uid: nat)
    requires forall e :: e in es ==> Silent(e)
    ensures Untold(log + es, uid) == Untold(log, uid)
    decreases |es|
  {
    hide Untold;
    if es == [] {
      assert log + es == log;
    } else {
      var n := |es| - 1;
      assert Silent(es[n]);
      UntoldStays(log, es[..n], uid);
      assert log + es == (log + es[..n]) + [es[n]];
      UntoldAppend(log + es[..n], es[n], uid);
    }
  }

  lemma {:induction false} StopAllIsSilent(t: Table, order: seq<nat>)
    ensures forall e :: e in StopAll(t, order).effects ==> Silent(e)
    ensures StopAll(t, order).table.sessions.Keys <= t.sessions.Keys
  {
    if order != [] {
      StopAllIsSilent(t, order[..|order| - 1]);
    }
  }

  // One turn tells the game of a user exactly if it ends his session and looks the game up.
  lemma HandleTells(t: Table, log: seq<Effect>, input: Input, uid: nat)
    ensures var r := Handle(t, input);
            Untold(log + r.effects, uid) ==
              if uid in r.table.sessions && uid !in t.sessions then true
              else if uid in t.sessions && uid !in r.table.sessions && LooksUp(input) then false
              else if input.Open? && input.login == Some(uid) && uid in r.table.sessions && uid !in t.banned then true
              else Untold(log, uid)
  {
    hide Untold, StopAll;
    var es := Handle(t, input).effects;
    if input.Open? && input.login.Some? && input.login.value !in t.banned {
      var k := if input.login.value in t.sessions then 1 else 0;
      UntoldGrows(log, es, k, uid);
      UntoldAppend(log, es[k], uid);
    } else if input.Stop? {
      StopAllIsSilent(t, input.order);
      UntoldStays(log, es, uid);
    } else if |es| == 2 {
      UntoldGrows(log, es, 1, uid);
      UntoldAppend(log, es[1], uid);
    } else {
      UntoldStays(log, es, uid);
    }
  }
}
