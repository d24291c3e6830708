// Messages, reports and addresses of the delivery protocol between a battle process and
// the game nodes (battle/battle/internal/types.go, report.go).
module Protocol {
  import opened BattleModel

  // A game node; also the address results are pushed back to.
  datatype Source = Source(serverId: int, nodeId: int)

  // What a battle tells the game node that asked for it.
  datatype Message =
    | Created(battleId: string, uid: nat)
    | Action(battleId: string, uid: nat, event: Event)
    | Finished(battleId: string, uid: nat, outcome: Outcome, units: seq<UnitResult>, checksum: string)

  // The durable hand-off between battle execution and result delivery.
  datatype Report = Report(battleId: string, uid: nat, source: Source, result: Result, confirmed: bool)

  function FinishedOf(r: Report): Message {
    Finished(r.battleId, r.uid, r.result.outcome, r.result.units, r.result.checksum)
  }

  // ---- the report store (memory_repository.go) ----

  type Reports = map<string, Report>

  function Confirm(reports: Reports, battleId: string): Reports {
    if battleId in reports then reports[battleId := reports[battleId].(confirmed := true)] else reports
  }

  class MemoryRepository {
    var reports: Reports

    constructor ()
      ensures reports == map[]
    {
      reports := map[];
    }

    method Save(report: Report)
      modifies this
      ensures reports == old(reports)[report.battleId := report]
    {
      reports := reports[report.battleId := report];
    }

    // `found` is false exactly for ErrReportNotFound.
    method Get(battleId: string) returns (found: bool, report: Report)
      ensures found <==> battleId in reports
      ensures found ==> report == reports[battleId]
    {
      found := battleId in reports;
      report := if found then reports[battleId] else NO_REPORT;
    }

    method MarkConfirmed(battleId: string) returns (found: bool)
      modifies this
      ensures found <==> battleId in old(reports)
      ensures reports == Confirm(old(reports), battleId)
    {
      found := battleId in reports;
      if found {
        var report := reports[battleId];
        report := report.(confirmed := true);
        reports := reports[battleId := report];
      }
    }
  }

  const NO_REPORT := Report("", 0, Source(0, 0), Result("", NoOutcome, 0, [], [], ""), false)

  // Confirming is idempotent and changes nothing but the flag of the one report.
  lemma ConfirmOnlyConfirms(reports: Reports, battleId: string, other: string)
    ensures Confirm(reports, battleId).Keys == reports.Keys
    ensures Confirm(Confirm(reports, battleId), battleId) == Confirm(reports, battleId)
    ensures other in reports && other != battleId ==> Confirm(reports, battleId)[other] == reports[other]
    ensures battleId in reports ==> Confirm(reports, battleId)[battleId] == reports[battleId].(confirmed := true)
  {
  }
}
