/** Where the disconnect reason of a CS call comes from, and when the query for it ends. */
module CsReasons {
  import opened CallTypes
  import opened OrderedKeys
  import opened CallTable
  import opened Encapsulation
  import opened CsSpec
  import opened TableTheorems
  import opened Observer
  import opened CsTheorems
  import opened Attribution

  // ----- attribution over runs

  /** What an operation writes for call `k`. The network's reason goes to calls that are not listed any more. */
  function WriteFor(s: Control, e: CsEvent, k: int): Write {
    match e
    case UserHangUp(who, TypeDefault) => if who.index == k then ByUser(UserTerminated, None) else NoWrite
    case UserHangUp(who, HangUpAll) => ByUser(UserTerminated, None)
    case UserHangUp(who, OtherType) => NoWrite
    case UserHangUp(who, _) => if who.callId == k then ByUser(UserTerminated, None) else NoWrite
    case UserReject(who) =>
      if who.index == k && k in s.table && IsRinging(s.table[k].report.state) then ByUser(UserDecline, None)
      else NoWrite
    case NetworkReason(list, reason) => if k !in ListedIndices(list) then ByNetwork(reason, "") else NoWrite
    case _ => NoWrite
  }

  lemma SnapshotKeepsReasons(s: Control, e: CsEvent, env: Env, k: int)
    requires Steady(s.table) && e.Snapshot?
    requires k in s.table && k in Step(s, e, env).table
    ensures Step(s, e, env).table[k].reason == s.table[k].reason
  {
    if !Queries(s, e) && e.list.callSize > 0 {
      var calls := Promote(CsListed(e.slot, e.list.calls));
      assert Step(s, e, env) == Update(Cs, s, e.slot, calls, env);
      MarkAndSweepExact(Cs, s, e.slot, calls, env);
      assert Carried(Before(s.table, k), Step(s, e, env).table[k]);
    }
  }

  lemma UserWritesReason(s: Control, e: CsEvent, env: Env, k: int)
    requires Coherent(s.table) && k in s.table && (e.UserHangUp? || e.UserReject?)
    ensures k in Step(s, e, env).table
    ensures Step(s, e, env).table[k].reason == Written((s.table[k].reason, ""), WriteFor(s, e, k)).0
  {
    FindIsLookup(s.table, e.who.index);
    FindIsLookup(s.table, e.who.callId);
  }

  lemma PostDialKeepsReason(s: Control, slot: int, id: int, env: Env, k: int)
    requires k in s.table
    ensures k in ExecutePostDial(s, slot, id, env).table
    ensures ExecutePostDial(s, slot, id, env).table[k].reason == s.table[k].reason
  {}

  lemma StepReason(s: Control, e: CsEvent, env: Env, k: int)
    requires Steady(s.table) && k in s.table && k in Step(s, e, env).table
    ensures Step(s, e, env).table[k].reason == Written((s.table[k].reason, ""), WriteFor(s, e, k)).0
  {
    match e
    case Snapshot(_, _, _) => SnapshotKeepsReasons(s, e, env, k);
    case NetworkReason(list, reason) => assert s.table[k].index == k;
    case UserHangUp(_, _) => UserWritesReason(s, e, env, k);
    case UserReject(_) => UserWritesReason(s, e, env, k);
    case UserAnswer(_) =>
    case UserDial(_, _, _, _) =>
    case PostDialTimer(slot, id) => PostDialKeepsReason(s, slot, id, env, k);
    case Restarted(_, _) =>
    case Release =>
    case UserProceed(who, proceed) =>
      var key := FindByIndex(s.table, who.index);
      if key.Some? { PostDialKeepsReason(s, who.slotId, s.table[key.value].index, env, k); }
  }

  lemma {:induction false} ReasonHistory(s: Control, run: Run, k: int, message: string)
    requires Steady(s.table) && Alive(s, run, Step, k)
    ensures k in After(s, run).table && UsersGiveReasons(History(s, run, Step, WriteFor, k))
    ensures After(s, run).table[k].reason
            == AllWritten((s.table[k].reason, message), History(s, run, Step, WriteFor, k)).0
    decreases run
  {
    if run != [] {
      var (e, env) := run[0];
      var s1 := Step(s, e, env);
      StepSteady(s, e, env);
      StepReason(s, e, env, k);
      ReasonHistory(s1, run[1..], k, Written((s.table[k].reason, message), WriteFor(s, e, k)).1);
    }
  }

  /** Over any run that `k` survives, whatever the modem lists, its reason is the last one a user operation wrote, else
      the one it had, else the first one the network gave; call lists never change it. */
  lemma ReasonAttribution(s: Control, run: Run, k: int)
    requires Steady(s.table) && Alive(s, run, Step, k)
    ensures k in After(s, run).table
    ensures After(s, run).table[k].reason
            == AttributedReason(s.table[k].reason, History(s, run, Step, WriteFor, k))
  {
    ReasonHistory(s, run, k, "");
    WritesAttributed((s.table[k].reason, ""), History(s, run, Step, WriteFor, k));
  }

  /** The last thing sent is a call report that declares call `k` disconnected for `reason`. */
  ghost predicate EndsCall(log: Log, k: int, reason: Reason) {
    && log != [] && log[|log| - 1].CallsReport?
    && exists r :: r in log[|log| - 1].reports && r.index == k && r.state == Disconnected && r.reason == reason
  }

  lemma UpdateEndsCall(s: Control, slot: int, calls: seq<Listed>, env: Env, k: int)
    requires Idle(s.table) && !s.ignored && k in s.table && k !in Indices(calls)
    ensures EndsCall(Update(Cs, s, slot, calls, env).log, k, s.table[k].reason)
  {
    MarkAndSweepExact(Cs, s, slot, calls, env);
    var played :| UpdateSent(Cs, s, Update(Cs, s, slot, calls, env), slot, calls, played);
    GoneIsReported(Cs, s.table, s.table.Keys - Indices(calls), k);
    assert DisconnectReport(Cs, s.table[k]) in UpdateVector(Cs, s.table, calls);
  }

  /** The report that ends call `k` when a call list no longer names it carries exactly that reason. */
  lemma EndReportCarriesReason(s: Control, e: CsEvent, env: Env, k: int)
    requires CsInv(s) && e.Snapshot? && WellFormedCs(e.list) && !Queries(s, e) && !s.ignored
    requires k in s.table && k !in ListedIndices(e.list)
    ensures EndsCall(Step(s, e, env).log, k, s.table[k].reason)
  {
    if e.list.callSize <= 0 {
      AllAreReported(Cs, s.table, e.slot, k);
    } else {
      var calls := CsListed(e.slot, e.list.calls);
      CsListable(e.slot, e.list);
      CsIndices(e.slot, e.list);
      PromoteListable(calls);
      UpdateEndsCall(s, e.slot, Promote(calls), env, k);
    }
  }

  // ----- the query converges

  /** After the network's answer, no listed-out call lacks a reason, unless that answer is itself `Invalid`. */
  lemma AnswerSettlesReasons(kind: Kind, t: Table, listed: set<int>, reason: Reason, message: string)
    ensures HasEndCallWithoutReason(UpdateDisconnectedReason(kind, t, listed, reason, message), listed)
            <==> reason == Invalid && HasEndCallWithoutReason(t, listed)
  {
    var t' := UpdateDisconnectedReason(kind, t, listed, reason, message);
    if reason == Invalid && HasEndCallWithoutReason(t, listed) {
      var k :| k in t && EndedWithoutReason(t[k], listed);
      assert k in t' && EndedWithoutReason(t'[k], listed);
    }
    if HasEndCallWithoutReason(t', listed) {
      var k :| k in t' && EndedWithoutReason(t'[k], listed);
      assert k in t && EndedWithoutReason(t[k], listed);
    }
  }

  predicate Explained(e: Event) {
    e.CallsReport? ==>
      forall i | 0 <= i < |e.reports| :: e.reports[i].state == Disconnected ==> e.reports[i].reason != Invalid
  }

  lemma UpdateIsExplained(s: Control, slot: int, calls: seq<Listed>, env: Env)
    requires Idle(s.table) && Listable(calls) && !HasEndCallWithoutReason(s.table, Indices(calls))
    ensures Continues(s.log, Update(Cs, s, slot, calls, env).log, Explained)
  {
    MarkAndSweepExact(Cs, s, slot, calls, env);
    var played :| UpdateSent(Cs, s, Update(Cs, s, slot, calls, env), slot, calls, played);
    ContinuesWeaken(s.log, played, IsPostDialEvent, Explained);
    ExplainedAll(s.table, SortedKeys(s.table.Keys - Indices(calls)), Indices(calls));
    ContinuesWith(s.log, played, CallsReport(slot, UpdateVector(Cs, s.table, calls)), Explained);
  }

  lemma HangUpIsExplained(s: Control, slot: int)
    requires Idle(s.table) && s.table != map[] && !HasEndCallWithoutReason(s.table, {})
    ensures Continues(s.log, HangUpAllCalls(Cs, s, slot).log, Explained)
  {}

  /** Once reasons are settled, no disconnect report goes out without one. */
  lemma SettledReportsAreExplained(s: Control, e: CsEvent, env: Env)
    requires CsInv(s) && s.table != map[] && e.Snapshot? && WellFormedCs(e.list)
    requires !HasEndCallWithoutReason(s.table, ListedIndices(e.list))
    ensures Continues(s.log, Step(s, e, env).log, Explained)
  {
    var calls := CsListed(e.slot, e.list.calls);
    if e.list.callSize <= 0 {
      assert ListedIndices(e.list) == {};
      HangUpIsExplained(s, e.slot);
    } else {
      CsIndices(e.slot, e.list);
      CsListable(e.slot, e.list);
      PromoteListable(calls);
      UpdateIsExplained(s, e.slot, Promote(calls), env);
    }
  }

  lemma ExplainedAll(t: Table, ks: seq<int>, listed: set<int>)
    requires Coherent(t) && !HasEndCallWithoutReason(t, listed)
    requires forall i | 0 <= i < |ks| :: ks[i] in t && ks[i] !in listed
    ensures forall i | 0 <= i < |ks| :: Disconnections(Cs, t, ks)[i].reason != Invalid
  {
    forall i | 0 <= i < |ks| ensures Disconnections(Cs, t, ks)[i].reason != Invalid {
      var k := ks[i];
      assert k in t && t[k].index == k;
      assert EndedWithoutReason(t[k], listed) ==> HasEndCallWithoutReason(t, listed);
    }
  }

  /** A query sends one request and leaves everything else alone, the observer too. */
  lemma QueryChangesNothing(s: Control, e: CsEvent, env: Env)
    requires CsInv(s) && e.Snapshot? && Queries(s, e)
    ensures var asked := Step(s, e, env);
            && CsInv(asked) && Observe(asked.log) == Observe(s.log)
            && asked == s.(log := s.log + [Request(QueryReason(e.slot), env.results(|s.log|))])
  {
    var asked := s.(log := Issue(s.log, QueryReason(e.slot), env));
    assert Step(s, e, env) == asked;
    SameCallsObserved(s, asked);
  }

  /** Once the answer to a query is written, the list it was about lacks no reason. */
  lemma AnswerEndsQuery(s: Control, e: CsEvent, reason: Reason, env: Env)
    requires CsInv(s) && e.Snapshot? && s.table != map[] && reason != Invalid
    ensures var told := Step(s, NetworkReason(e.list, reason), env);
            && CsInv(told) && told.table.Keys == s.table.Keys
            && !HasEndCallWithoutReason(told.table, ListedIndices(e.list))
  {
    StepKeepsInvIff(s, NetworkReason(e.list, reason), env);
    AnswerSettlesReasons(Cs, s.table, ListedIndices(e.list), reason, "");
  }

  lemma SettledListsAgree(s: Control, e: CsEvent, env: Env)
    requires e.Snapshot? && !HasEndCallWithoutReason(s.table, ListedIndices(e.list))
    ensures !Queries(s, e) && Step(s, e, env) == Step(s, e.(isNeedQuery := false), env)
  {}

  /** A query sends one request and leaves everything else alone, the observer too. Once its answer is written, the
      same call list is reconciled at once, whether or not it may query, and no disconnect report it sends lacks a
      reason. */
  lemma ReasonQueryConverges(s: Control, e: CsEvent, reason: Reason, env: Env)
    requires CsInv(s) && e.Snapshot? && WellFormedCs(e.list) && Queries(s, e) && reason != Invalid
    ensures var asked := Step(s, e, env);
            var told := Step(asked, NetworkReason(e.list, reason), env);
            && asked == s.(log := s.log + [Request(QueryReason(e.slot), env.results(|s.log|))])
            && Observe(asked.log) == Observe(s.log)
            && !Queries(told, e)
            && Step(told, e, env) == Step(told, e.(isNeedQuery := false), env)
            && Continues(told.log, Step(told, e, env).log, Explained)
  {
    var asked := Step(s, e, env);
    var told := Step(asked, NetworkReason(e.list, reason), env);
    QueryChangesNothing(s, e, env);
    AnswerEndsQuery(asked, e, reason, env);
    SettledListsAgree(told, e, env);
    SettledReportsAreExplained(told, e, env);
  }
}
