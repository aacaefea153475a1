/** Which call lists an IMS control asks the network about, over runs. */
module ImsQueries {
  import opened CallTypes
  import opened CallTable
  import opened Encapsulation
  import opened ImsSpec
  import opened TableTheorems
  import opened Observer
  import opened ImsTheorems
  import opened ListReports

  /** A list that is to be queried about, unless it opens a session. */
  predicate Asks(s: Control, e: ImsEvent) {
    e.Snapshot? && e.isNeedQuery && (e.list.callSize <= 0 || |s.table| > 0)
  }

  lemma SnapshotQueries(s: Control, e: ImsEvent, env: Env)
    requires Steady(s.table) && e.Snapshot?
    ensures QueriesIf(s, Step(s, e, env), Asks(s, e), e.slot, env)
  {
    var calls := ImsListed(e.slot, e.list.calls);
    assert |s.table| > 0 <==> s.table != map[];
    if !Asks(s, e) && e.list.callSize > 0 && s.table != map[] {
      UpdateQueriesNothing(Ims, s, e.slot, Promote(calls), env);
    }
  }

  /** A list asks the network exactly if it is to and does not open a session; it then does nothing else, and no other
      operation asks. */
  lemma StepQueries(s: Control, e: ImsEvent, env: Env)
    requires Steady(s.table)
    ensures QueriesIf(s, Step(s, e, env), Asks(s, e), if e.Snapshot? then e.slot else 0, env)
  {
    if e.Snapshot? {
      SnapshotQueries(s, e, env);
    } else if IsUserOrNetwork(e) {
      UserOperationsStep(s, e, env);
      ContinuesWeaken(s.log, Step(s, e, env).log, IsUserEvent, IsNoQuery);
    } else if e.PostDialTimer? {
      ExecutePlaysOnly(s, e.slot, e.id, env);
      ContinuesWeaken(s.log, Step(s, e, env).log, IsPostDialEvent, IsNoQuery);
    } else if e.UserProceed? {
      ProceedPlaysOnly(s, e.who, e.proceed, env);
      ContinuesWeaken(s.log, Step(s, e, env).log, IsPostDialEvent, IsNoQuery);
    }
  }

  /** The lists of a run that ask. */
  function AskedIn(s: Control, run: Run): nat
    decreases run
  {
    if run == [] then 0
    else (if Asks(s, run[0].0) then 1 else 0) + AskedIn(Step(s, run[0].0, run[0].1), run[1..])
  }

  /** Over every run, the queries sent are those of the lists that asked, one each. */
  lemma {:induction false} QueriesCount(s: Control, run: Run)
    requires Steady(s.table)
    ensures QueryCount(After(s, run).log) == QueryCount(s.log) + AskedIn(s, run)
    decreases run
  {
    if run != [] {
      var (e, env) := run[0];
      StepSteady(s, e, env);
      StepQueries(s, e, env);
      QueriesCounted(s, Step(s, e, env), Asks(s, e), if e.Snapshot? then e.slot else 0, env);
      QueriesCount(Step(s, e, env), run[1..]);
    }
  }
}
