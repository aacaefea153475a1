/** Over whole runs of a CS control: suppressed sessions, disconnect reasons, and the query for them. */
module CsSessions {
  import opened CallTypes
  import opened CallTable
  import opened Encapsulation
  import opened CsSpec
  import opened TableTheorems
  import opened Observer
  import opened CsTheorems

  // ----- a session is reported completely or not at all

  function CountReport(n: nat, e: Event): nat {
    n + if e.CallsReport? then 1 else 0
  }

  function ReportCount(log: Log): nat {
    Fold(log, 0, CountReport)
  }

  lemma SilentAddsNoReport(log: Log, log': Log)
    requires Continues(log, log', IsSilent)
    ensures ReportCount(log') == ReportCount(log)
  {
    FoldContinues(log, log', IsSilent, 0, CountReport);
  }

  lemma ReportCounts(log: Log, slot: int, rs: seq<CallReport>)
    ensures ReportCount(log + [CallsReport(slot, rs)]) == ReportCount(log) + 1
  {}

  /** A call list that is reconciled with the table, not only queried about. */
  predicate Reconciles(s: Control, e: CsEvent) {
    e.Snapshot? && !Queries(s, e)
  }

  /** The number of call lists reconciled in a run. */
  function Reconciled(s: Control, run: Run): nat
    decreases run
  {
    if run == [] then 0
    else (if Reconciles(s, run[0].0) then 1 else 0) + Reconciled(Step(s, run[0].0, run[0].1), run[1..])
  }

  /** No operation of the run finds the table empty, and the service is not restarted: the run stays in one session, and
      may close it at the end. */
  ghost predicate InSession(s: Control, run: Run)
    decreases run
  {
    run != [] ==>
      s.table != map[] && !run[0].0.Restarted? && InSession(Step(s, run[0].0, run[0].1), run[1..])
  }

  /** One operation that is reported once if `reported`, and keeps the session suppressed or not while it lasts. */
  ghost predicate ReportsOnceIf(s: Control, s': Control, reported: bool) {
    && ReportCount(s'.log) == ReportCount(s.log) + (if reported && !s.ignored then 1 else 0)
    && (s'.table != map[] ==> s'.ignored == s.ignored)
  }

  lemma SnapshotReports(s: Control, e: CsEvent, env: Env)
    requires CsInv(s) && e.Snapshot? && WellFormedCs(e.list) && s.table != map[]
    ensures ReportsOnceIf(s, Step(s, e, env), !Queries(s, e))
  {
    if Queries(s, e) {
      SilentAddsNoReport(s.log, Issue(s.log, QueryReason(e.slot), env));
    } else if e.list.callSize <= 0 {
      HangUpReportsOnce(s, e.slot);
    } else {
      UpdateReportsOnce(s, e.slot, Promote(CsListed(e.slot, e.list.calls)), env);
    }
  }

  lemma StepReports(s: Control, e: CsEvent, env: Env)
    requires CsInv(s) && WellFormedEvent(e) && s.table != map[] && !e.Restarted?
    ensures ReportsOnceIf(s, Step(s, e, env), Reconciles(s, e))
  {
    if e.Snapshot? {
      SnapshotReports(s, e, env);
    } else if LeavesCalls(e) {
      StepSameCalls(s, e, env);
      SilentAddsNoReport(s.log, Step(s, e, env).log);
    }
  }

  lemma HangUpReportsOnce(s: Control, slot: int)
    requires s.table != map[] && !s.silent
    ensures HangUpAllCalls(Cs, s, slot).table == map[]
    ensures ReportCount(HangUpAllCalls(Cs, s, slot).log) == ReportCount(s.log) + if s.ignored then 0 else 1
  {}

  lemma UpdateReportsOnce(s: Control, slot: int, calls: seq<Listed>, env: Env)
    requires Idle(s.table)
    ensures Update(Cs, s, slot, calls, env).ignored == s.ignored
    ensures ReportCount(Update(Cs, s, slot, calls, env).log) == ReportCount(s.log) + if s.ignored then 0 else 1
  {
    MarkAndSweepExact(Cs, s, slot, calls, env);
    var played :| UpdateSent(Cs, s, Update(Cs, s, slot, calls, env), slot, calls, played);
    ContinuesWeaken(s.log, played, IsPostDialEvent, IsSilent);
    SilentAddsNoReport(s.log, played);
    ReportCounts(played, slot, UpdateVector(Cs, s.table, calls));
  }

  lemma StaysInStep(s: Control, e: CsEvent, env: Env)
    requires CsInv(s) && WellFormedEvent(e) && !e.Restarted? && Step(s, e, env).table != map[]
    ensures CsInv(Step(s, e, env))
  {
    StepKeepsInvIff(s, e, env);
  }

  lemma {:induction false} SessionReports(s: Control, run: Run)
    requires CsInv(s) && WellFormedRun(run) && InSession(s, run)
    ensures ReportCount(After(s, run).log) == ReportCount(s.log) + if s.ignored then 0 else Reconciled(s, run)
    decreases run
  {
    if run != [] {
      var (e, env) := run[0];
      var s1 := Step(s, e, env);
      StepReports(s, e, env);
      if s1.table == map[] {
        assert run[1..] == [];
      } else {
        StaysInStep(s, e, env);
        SessionReports(s1, run[1..]);
      }
    }
  }

  /** From the call list that opens a session to the one that closes it, either every call list is reported or,
      when the opening one was withheld, none is. */
  lemma SessionAllOrNothing(s: Control, opening: CsEvent, env: Env, run: Run)
    requires CsInv(s) && s.table == map[]
    requires opening.Snapshot? && WellFormedCs(opening.list) && opening.list.callSize > 0
    requires WellFormedRun(run) && InSession(Step(s, opening, env), run)
    ensures var sent := ReportCount(After(Step(s, opening, env), run).log) - ReportCount(s.log);
            sent == if Withheld(CsListed(opening.slot, opening.list.calls), env) then 0
                    else 1 + Reconciled(Step(s, opening, env), run)
  {
    var calls := CsListed(opening.slot, opening.list.calls);
    var s1 := Step(s, opening, env);
    assert s1 == FillEmpty(s, opening.slot, calls, env);
    StepKeepsInvIff(s, opening, env);
    ReportCounts(s.log, opening.slot, Reports(calls));
    SessionReports(s1, run);
  }
}
