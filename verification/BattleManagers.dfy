// The battle manager (battle/service/internal/ctl_battle.go): it spawns one actor per
// accepted request and keeps the registry of the actors that have not reported their stop.
module BattleManagers {
  import opened Common
  import opened Protocol
  import opened BattleActors

  // A start request; a nil one is a request whose fields are zero.
  datatype Request = Request(uid: nat, serverId: nat, sourceNodeId: nat, typed: bool)

  type Registry = map<string, nat>

  const RETRY_ATTEMPTS := 3

  predicate Accepts(req: Request) {
    req.uid != 0 && req.serverId != 0 && req.sourceNodeId != 0 && req.typed
  }

  function SourceOf(req: Request): Source {
    Source(req.serverId, req.sourceNodeId)
  }

  function ParamsFor(manager: nat, battleId: string, req: Request): Params {
    Params(battleId, req.uid, SourceOf(req), manager, ModeRun, NO_REPORT, RETRY_ATTEMPTS)
  }

  // A stop is believed only from the actor the registry holds for that battle.
  function Forget(active: Registry, battleId: string, pid: nat): Registry {
    if battleId != "" && battleId in active && active[battleId] == pid then active - {battleId} else active
  }

  // A stop report removes at most its own entry, and that one exactly if the registry holds
  // the reporting actor for it: a late report of an earlier actor takes nothing away.
  lemma ForgetsExactly(active: Registry, battleId: string, pid: nat, b: string)
    ensures b in Forget(active, battleId, pid) <==> b in active && !(b == battleId && b != "" && active[b] == pid)
    ensures b in Forget(active, battleId, pid) ==> Forget(active, battleId, pid)[b] == active[b]
  {
  }

  class Server {
    const self: nat
    var active: Registry
    var spawned: seq<BattleActor>

    constructor (self: nat)
      ensures this.self == self && active == map[] && spawned == []
    {
      this.self := self;
      active, spawned := map[], [];
    }

    // battleId is the generated identifier, `seeded` whether a seed could be drawn, pid the
    // identity the actor system gives the spawned actor.
    method OnCreateBattle(req: Request, battleId: string, seeded: bool, pid: nat) returns (ack: Option<string>)
      modifies this
      ensures ack == if req.uid != 0 && req.serverId != 0 && req.sourceNodeId != 0 && req.typed && seeded then Some(battleId) else None
      ensures ack.None? ==> active == old(active) && spawned == old(spawned)
      ensures ack.Some? ==>
                && active == old(active)[battleId := pid]
                && |spawned| == |old(spawned)| + 1
                && spawned[..|old(spawned)|] == old(spawned)
                && fresh(spawned[|spawned| - 1])
                && spawned[|spawned| - 1].State() == Fresh(ParamsFor(self, battleId, req))
                && var p := spawned[|spawned| - 1].p;
                   && p.battleId == battleId && p.uid == req.uid
                   && p.source.serverId == req.serverId && p.source.nodeId == req.sourceNodeId
                   && p.managerPid == self && p.mode.ModeRun? && p.retryAttempts == 3
    {
      if req.uid == 0 || req.serverId == 0 || req.sourceNodeId == 0 {
        return None;
      }
      if !req.typed {
        return None;
      }
      if !seeded {
        return None;
      }
      var actor := new BattleActor(ParamsFor(self, battleId, req));
      spawned := spawned + [actor];
      active := active[battleId := pid];
      return Some(battleId);
    }

    method OnActorStopped(battleId: string, pid: nat)
      modifies this`active
      ensures active == Forget(old(active), battleId, pid)
      ensures active == if battleId != "" && battleId in old(active) && old(active)[battleId] == pid
                        then map b | b in old(active) && b != battleId :: old(active)[b] else old(active)
    {
      if battleId == "" {
        return;
      }
      if battleId in active && active[battleId] == pid {
        active := active - {battleId};
      }
    }
  }
}
