/** Safety of a CS control over whole runs. */
module CsTheorems {
  import opened CallTypes
  import opened OrderedKeys
  import opened CallTable
  import opened Encapsulation
  import opened CsSpec
  import opened TableTheorems
  import opened Observer

  lemma CsListable(slot: int, list: CallInfoList)
    requires WellFormedCs(list)
    ensures Listable(CsListed(slot, list.calls))
  {}

  lemma CsIndices(slot: int, list: CallInfoList)
    ensures Indices(CsListed(slot, list.calls)) == ListedIndices(list)
  {
    var calls := CsListed(slot, list.calls);
    forall k | k in Indices(calls) ensures k in ListedIndices(list) {
      var i :| 0 <= i < |calls| && calls[i].index == k;
      assert list.calls[i] in list.calls;
    }
    forall k | k in ListedIndices(list) ensures k in Indices(calls) {
      var call :| call in list.calls && call.index == k;
      var i :| 0 <= i < |list.calls| && list.calls[i] == call;
      assert calls[i].index == k;
    }
  }

  // ----- operations that leave the calls alone

  lemma AnswerStep(s: Control, who: CallerInfo, env: Env)
    ensures UserStep(s, Answer(s, who, env).0)
  {
    if FindByIndex(s.table, who.index).Some? {
      var (log, ret) := ClearHolding(Cs, s.table, s.log, env);
      var log1 := if IsInState(s.table, Active) then Issue(log, Swap(who.slotId, 0), env) else log;
      var log2 := Issue(log1, AnswerCommand(who.slotId, "", 0, 0, false), env);
      ClearHoldingSends(Cs, s.table, s.log, env);
      IssueSends(s.log, log, Swap(who.slotId, 0), env);
      IssueSends(s.log, log1, AnswerCommand(who.slotId, "", 0, 0, false), env);
      LogUserStep(s, log);
      LogUserStep(s, log1);
      LogUserStep(s, log2);
    } else {
      LogUserStep(s, s.log);
    }
  }

  lemma HangUpStep(s: Control, who: CallerInfo, kind: SupplementType, env: Env)
    ensures UserStep(s, HangUp(s, who, kind, env).0)
  {
    var s' := HangUp(s, who, kind, env).0;
    match kind
    case TypeDefault =>
      var key := FindByIndex(s.table, who.index);
      if key.Some? {
        var c := s.table[key.value];
        SingleReportSends(s.log, c.report);
        IssueSends(s.log, s.log + [SingleReport(c.report.(state := Disconnecting))],
                   HangUpCommand(who.slotId, "", c.index), env);
      }
    case HangUpAll => IssueSends(s.log, s.log, RejectCommand(who.slotId, "", 0), env);
    case OtherType =>
    case _ => IssueSends(s.log, s.log, Supplement(who.slotId, kind), env);
  }

  lemma NetworkReasonStep(s: Control, list: CallInfoList, reason: Reason)
    ensures UserStep(s, DisconnectReasonResponse(s, list, reason))
  {}

  lemma RejectStep(s: Control, who: CallerInfo, env: Env)
    ensures UserStep(s, Reject(s, who, env).0)
  {
    var key := FindByIndex(s.table, who.index);
    if key.Some? {
      var c := s.table[key.value];
      SingleReportSends(s.log, c.report);
      IssueSends(s.log, s.log + [SingleReport(c.report.(state := Disconnecting))],
                 RejectCommand(who.slotId, "", 0), env);
    }
  }

  lemma DialStep(s: Control, slot: int, phone: string, clir: ClirMode, cdma: bool, env: Env)
    ensures UserStep(s, Dial(s, slot, phone, clir, cdma, env).0)
  {}

  predicate IsUserOrNetwork(e: CsEvent) {
    e.NetworkReason? || e.UserHangUp? || e.UserAnswer? || e.UserReject? || e.UserDial?
  }

  /** The operations that neither reconcile nor clear the table. */
  predicate LeavesCalls(e: CsEvent) {
    IsUserOrNetwork(e) || e.PostDialTimer? || e.UserProceed?
  }

  lemma UserOperationsStep(s: Control, e: CsEvent, env: Env)
    requires IsUserOrNetwork(e)
    ensures UserStep(s, Step(s, e, env))
  {
    match e
    case NetworkReason(list, reason) => NetworkReasonStep(s, list, reason);
    case UserHangUp(who, kind) => HangUpStep(s, who, kind, env);
    case UserAnswer(who) => AnswerStep(s, who, env);
    case UserReject(who) => RejectStep(s, who, env);
    case UserDial(slot, phone, clir, cdma) => DialStep(s, slot, phone, clir, cdma, env);
  }

  lemma StepSameCalls(s: Control, e: CsEvent, env: Env)
    requires LeavesCalls(e)
    ensures SameCalls(s, Step(s, e, env))
  {
    if IsUserOrNetwork(e) {
      UserOperationsStep(s, e, env);
      UserStepSameCalls(s, Step(s, e, env));
    } else if e.PostDialTimer? {
      ExecutePostDialSameCalls(s, e.slot, e.id, env);
    } else {
      ProceedSameCalls(s, e.who, e.proceed, env);
    }
  }

  // ----- the observer rebuilds the table

  /** Between operations: an idle table, which the observer knows exactly unless this session is suppressed. */
  ghost predicate CsInv(s: Control) {
    && Idle(s.table) && !s.silent
    && Observe(s.log) == (if s.ignored then map[] else States(s.table))
    && (s.ignored ==> s.table != map[])
  }

  ghost predicate WellFormedEvent(e: CsEvent) {
    e.Snapshot? ==> WellFormedCs(e.list)
  }

  ghost predicate WellFormedRun(run: Run) {
    forall i | 0 <= i < |run| :: WellFormedEvent(run[i].0)
  }

  /** Whether this call list only triggers the query for a disconnect reason. */
  predicate Queries(s: Control, e: CsEvent)
    requires e.Snapshot?
  {
    && e.isNeedQuery && HasEndCallWithoutReason(s.table, ListedIndices(e.list))
    && (e.list.callSize <= 0 || s.table != map[])
  }

  lemma QueryKeepsInv(s: Control, e: CsEvent, env: Env)
    requires CsInv(s) && e.Snapshot? && Queries(s, e)
    ensures CsInv(Step(s, e, env))
  {}

  lemma HangUpKeepsInv(s: Control, slot: int)
    requires CsInv(s)
    ensures CsInv(HangUpAllCalls(Cs, s, slot))
  {
    HangUpObserved(Cs, s, slot);
  }

  lemma SnapshotKeepsInv(s: Control, e: CsEvent, env: Env)
    requires CsInv(s) && e.Snapshot? && WellFormedCs(e.list)
    ensures CsInv(Step(s, e, env))
  {
    var calls := CsListed(e.slot, e.list.calls);
    CsListable(e.slot, e.list);
    if Queries(s, e) {
      QueryKeepsInv(s, e, env);
    } else if e.list.callSize <= 0 {
      HangUpKeepsInv(s, e.slot);
    } else if s.table == map[] {
      FillKeepsInv(s, e.slot, calls, env);
    } else {
      UpdateKeepsInv(s, e.slot, calls, env);
    }
  }

  lemma FillKeepsInv(s: Control, slot: int, calls: seq<Listed>, env: Env)
    requires CsInv(s) && Listable(calls) && calls != [] && s.table == map[]
    ensures CsInv(FillEmpty(s, slot, calls, env))
  {
    FillObserved(s, slot, calls, env);
    assert calls[0].index in Indices(calls);
  }

  lemma UpdateKeepsInv(s: Control, slot: int, calls: seq<Listed>, env: Env)
    requires CsInv(s) && Listable(calls) && calls != []
    ensures CsInv(Update(Cs, s, slot, Promote(calls), env))
  {
    PromoteListable(calls);
    UpdateObserved(Cs, s, slot, Promote(calls), env);
    IdleBlursNothing(s.table, Promote(calls));
    WithoutNothing(Update(Cs, s, slot, Promote(calls), env).table, {});
    MarkAndSweepExact(Cs, s, slot, Promote(calls), env);
    assert calls[0].index in Indices(calls);
  }

  /** The table is cleared while the observer or a suppressed session still counts on it: by a release of calls, or
      after a restart that names not all of them or finds the session suppressed. */
  ghost predicate Strands(s: Control, e: CsEvent) {
    || (e.Release? && s.table != map[])
    || (e.Restarted? && (s.ignored || !(s.table.Keys <= LostIndices(Cs, e.infos, e.slot))))
  }

  lemma RestartKeepsInvIff(s: Control, infos: seq<CallerInfo>, slot: int)
    requires CsInv(s)
    ensures var lost := LostIndices(Cs, infos, slot);
            CsInv(ReportHangUp(Cs, s, infos, slot)) <==> !s.ignored && s.table.Keys <= lost
  {
    var lost := LostIndices(Cs, infos, slot);
    LostObserved(Cs, s, infos, slot);
    WithoutAll(s.table, lost);
  }

  /** One operation leaves the observer out of step exactly if it strands it. */
  lemma StepKeepsInvIff(s: Control, e: CsEvent, env: Env)
    requires CsInv(s) && WellFormedEvent(e)
    ensures CsInv(Step(s, e, env)) <==> !Strands(s, e)
  {
    match e
    case Snapshot(_, _, _) => SnapshotKeepsInv(s, e, env);
    case Restarted(infos, slot) => RestartKeepsInvIff(s, infos, slot);
    case Release =>
    case _ =>
      StepSameCalls(s, e, env);
      SameCallsObserved(s, Step(s, e, env));
      assert Step(s, e, env).table.Keys == s.table.Keys;
  }

  /** Every operation keeps the table coherent and unmarked, whatever the modem lists. */
  lemma StepSteady(s: Control, e: CsEvent, env: Env)
    requires Steady(s.table)
    ensures Steady(Step(s, e, env).table)
  {
    if LeavesCalls(e) {
      StepSameCalls(s, e, env);
    } else if !e.Snapshot? {
      assert Step(s, e, env).table == map[];
    } else if s.table == map[] {
      FillSteady(s, e.slot, CsListed(e.slot, e.list.calls), env);
    } else {
      MarkAndSweepExact(Cs, s, e.slot, Promote(CsListed(e.slot, e.list.calls)), env);
    }
  }

  lemma {:induction false} AfterSteady(s: Control, run: Run)
    requires Steady(s.table)
    ensures Steady(After(s, run).table)
    decreases run
  {
    if run != [] {
      StepSteady(s, run[0].0, run[0].1);
      AfterSteady(Step(s, run[0].0, run[0].1), run[1..]);
    }
  }

  ghost predicate NeverStrands(s: Control, run: Run)
    decreases run
  {
    run != [] ==> !Strands(s, run[0].0) && NeverStrands(Step(s, run[0].0, run[0].1), run[1..])
  }

  ghost predicate AlwaysInStep(s: Control, run: Run)
    decreases run
  {
    CsInv(s) && (run != [] ==> AlwaysInStep(Step(s, run[0].0, run[0].1), run[1..]))
  }

  /** In every run the observer knows the state of every call in the table, or nothing at all when the session is
      suppressed, throughout the run exactly if no operation strands it. */
  lemma {:induction false} ObserverRebuildsTableIff(s: Control, run: Run)
    requires CsInv(s) && WellFormedRun(run)
    ensures AlwaysInStep(s, run) <==> NeverStrands(s, run)
    ensures NeverStrands(s, run) ==> CsInv(After(s, run))
    decreases run
  {
    if run != [] {
      var s1 := Step(s, run[0].0, run[0].1);
      StepKeepsInvIff(s, run[0].0, run[0].1);
      if CsInv(s1) {
        ObserverRebuildsTableIff(s1, run[1..]);
      } else {
        assert !AlwaysInStep(s1, run[1..]);
      }
    }
  }

  /** Only a release or a restart can strand the observer: in every other run it knows exactly the table, or nothing
      while the session is suppressed. */
  lemma {:induction false} ObserverRebuildsTable(s: Control, run: Run)
    requires CsInv(s) && WellFormedRun(run)
    requires forall i | 0 <= i < |run| :: !run[i].0.Release? && !run[i].0.Restarted?
    ensures NeverStrands(s, run) && CsInv(After(s, run))
    decreases run
  {
    if run != [] {
      StepKeepsInvIff(s, run[0].0, run[0].1);
      ObserverRebuildsTable(Step(s, run[0].0, run[0].1), run[1..]);
    }
  }

  /** A new control starts in step with its observer. */
  lemma EmptyControlInStep()
    ensures CsInv(EMPTY_CONTROL)
  {}

  /** In every reachable table, whatever the modem listed, a search by index is a lookup, a call not found can be
      inserted, and a reason written for one call touches at most the entry under that key. */
  lemma IndexCoherence(run: Run, index: int, reason: Reason)
    ensures var t := After(EMPTY_CONTROL, run).table;
            && FindByIndex(t, index) == (if index in t then Some(index) else None)
            && (FindByIndex(t, index).None? ==> index !in t)
            && UpdateCallDisconnectReason(Cs, t, index, reason, "")
               == if index in t then t[index := t[index].(reason := reason)] else t
  {
    AfterSteady(EMPTY_CONTROL, run);
    FindIsLookup(After(EMPTY_CONTROL, run).table, index);
  }
}
