/** Which call lists a CS control asks the network about, over runs. */
module CsQueries {
  import opened CallTypes
  import opened CallTable
  import opened Encapsulation
  import opened CsSpec
  import opened TableTheorems
  import opened Observer
  import opened CsTheorems
  import opened ListReports

  /** A list that may query, while some call that it does not name has no reason. */
  ghost predicate Asks(s: Control, e: CsEvent) {
    && e.Snapshot? && e.isNeedQuery
    && exists k :: k in s.table && s.table[k].reason == Invalid
                   && forall call | call in e.list.calls :: call.index != s.table[k].index
  }

  lemma AsksIff(s: Control, e: CsEvent)
    requires e.Snapshot?
    ensures Asks(s, e) <==> Queries(s, e)
  {
    if Asks(s, e) {
      var k :| k in s.table && s.table[k].reason == Invalid
               && forall call | call in e.list.calls :: call.index != s.table[k].index;
      assert EndedWithoutReason(s.table[k], ListedIndices(e.list));
    }
    if Queries(s, e) {
      var k :| k in s.table && EndedWithoutReason(s.table[k], ListedIndices(e.list));
      assert forall call | call in e.list.calls :: call.index in ListedIndices(e.list);
    }
  }

  lemma SnapshotQueries(s: Control, e: CsEvent, env: Env)
    requires Steady(s.table) && e.Snapshot?
    ensures QueriesIf(s, Step(s, e, env), Asks(s, e), e.slot, env)
  {
    AsksIff(s, e);
    var calls := CsListed(e.slot, e.list.calls);
    if Queries(s, e) {
    } else if e.list.callSize > 0 && s.table != map[] {
      UpdateQueriesNothing(Cs, s, e.slot, Promote(calls), env);
    }
  }

  /** A list asks the network exactly if it may and a call it does not name has no reason; it then does nothing else,
      and no other operation asks. */
  lemma StepQueries(s: Control, e: CsEvent, env: Env)
    requires Steady(s.table)
    ensures QueriesIf(s, Step(s, e, env), Asks(s, e), if e.Snapshot? then e.slot else 0, env)
  {
    if e.Snapshot? {
      SnapshotQueries(s, e, env);
    } else if IsUserOrNetwork(e) {
      UserOperationsStep(s, e, env);
      ContinuesWeaken(s.log, Step(s, e, env).log, IsUserEvent, IsNoQuery);
    } else if e.PostDialTimer? {
      ExecutePlaysOnly(s, e.slot, e.id, env);
      ContinuesWeaken(s.log, Step(s, e, env).log, IsPostDialEvent, IsNoQuery);
    } else if e.UserProceed? {
      ProceedPlaysOnly(s, e.who, e.proceed, env);
      ContinuesWeaken(s.log, Step(s, e, env).log, IsPostDialEvent, IsNoQuery);
    }
  }

  /** The lists of a run that ask. */
  ghost function AskedIn(s: Control, run: Run): nat
    decreases run
  {
    if run == [] then 0
    else (if Asks(s, run[0].0) then 1 else 0) + AskedIn(Step(s, run[0].0, run[0].1), run[1..])
  }

  /** Over every run, the queries sent are those of the lists that asked, one each. */
  lemma {:induction false} QueriesCount(s: Control, run: Run)
    requires Steady(s.table)
    ensures QueryCount(After(s, run).log) == QueryCount(s.log) + AskedIn(s, run)
    decreases run
  {
    if run != [] {
      var (e, env) := run[0];
      StepSteady(s, e, env);
      StepQueries(s, e, env);
      QueriesCounted(s, Step(s, e, env), Asks(s, e), if e.Snapshot? then e.slot else 0, env);
      QueriesCount(Step(s, e, env), run[1..]);
    }
  }
}
