/** The observer of an IMS control over whole runs: when it knows a call that is gone, and when it heals. */
module ImsTheorems {
  import opened CallTypes
  import opened PostDial
  import opened CallTable
  import opened ControlBase
  import opened Encapsulation
  import opened ImsSpec
  import opened TableTheorems
  import opened Observer

  lemma ImsListable(slot: int, list: ImsCallList)
    requires WellFormedIms(list)
    ensures Listable(ImsListed(slot, list.calls))
  {}

  lemma ImsIndices(slot: int, list: ImsCallList)
    ensures Indices(ImsListed(slot, list.calls)) == ListedIndices(list)
  {
    var calls := ImsListed(slot, list.calls);
    forall k | k in Indices(calls) ensures k in ListedIndices(list) {
      var i :| 0 <= i < |calls| && calls[i].index == k;
      assert list.calls[i] in list.calls;
    }
    forall k | k in ListedIndices(list) ensures k in Indices(calls) {
      var call :| call in list.calls && call.index == k;
      var i :| 0 <= i < |list.calls| && list.calls[i] == call;
      assert calls[i].index == k;
    }
  }

  // ----- operations that leave the calls alone

  lemma SwitchCallStep(s: Control, k: int, slot: int, videoState: int, env: Env)
    requires k in s.table
    ensures UserStep(s, SwitchCall(s, k, slot, videoState, env).0)
  {}

  lemma UserStepCompose(a: Control, b: Control, c: Control)
    requires UserStep(a, b) && UserStep(b, c)
    ensures UserStep(a, c)
  {}

  lemma TakeCallStep(s: Control, k: int, who: CallerInfo, env: Env)
    requires k in s.table
    ensures UserStep(s, TakeCall(s, k, who, env).0)
  {
    var con := FindByState(s.table, Active);
    if con.Some? { SwitchCallStep(s, con.value, who.slotId, who.videoState, env); }
    IssueSends(s.log, s.log, AnswerCommand(who.slotId, who.phoneNum, who.videoState, who.index, who.isRtt), env);
  }

  lemma AnswerStep(s: Control, who: CallerInfo, env: Env)
    ensures UserStep(s, Answer(s, who, env).0)
  {
    var key := FindByIndex(s.table, who.index);
    if key.Some? {
      ClearHoldingSends(Ims, s.table, s.log, env);
      var s1 := s.(log := ClearHolding(Ims, s.table, s.log, env).0);
      TakeCallStep(s1, key.value, who, env);
      UserStepCompose(s, s1, TakeCall(s1, key.value, who, env).0);
    }
  }

  lemma HangUpStep(s: Control, who: CallerInfo, kind: SupplementType, env: Env)
    ensures UserStep(s, HangUp(s, who, kind, env).0)
  {
    match kind
    case TypeDefault =>
      var key := FindByIndex(s.table, who.index);
      if key.Some? {
        var c := s.table[key.value];
        SingleReportSends(s.log, c.report);
        IssueSends(s.log, s.log + [SingleReport(c.report.(state := Disconnecting))],
                   HangUpCommand(who.slotId, who.phoneNum, who.index), env);
      }
    case HangUpAll => IssueSends(s.log, s.log, RejectCommand(who.slotId, who.phoneNum, who.index), env);
    case OtherType =>
    case _ => IssueSends(s.log, s.log, Supplement(who.slotId, kind), env);
  }

  lemma RejectStep(s: Control, who: CallerInfo, env: Env)
    ensures UserStep(s, Reject(s, who, env).0)
  {
    var key := FindByIndex(s.table, who.index);
    if key.Some? {
      var c := s.table[key.value];
      SingleReportSends(s.log, c.report);
      IssueSends(s.log, s.log + [SingleReport(c.report.(state := Disconnecting))],
                 RejectCommand(who.slotId, who.phoneNum, who.index), env);
    }
  }

  lemma DialStep(s: Control, slot: int, info: DialInfo, env: Env)
    ensures UserStep(s, DialJudgment(s, slot, info, env).0)
  {
    var key := ToHold(s.table);
    if CanCall(s.table) && key.Some? {
      var k := key.value;
      var c := Park(s.table[k], info.phoneNum, info.clirMode, info.videoState, info.emergency);
      var s1 := s.(pending := info.phoneNum, table := s.table[k := c]);
      SwitchCallStep(s1, k, slot, info.videoState, env);
      UserStepCompose(s, s1, SwitchCall(s1, k, slot, info.videoState, env).0);
    }
    IssueSends(s.log, s.log, DialCommand(slot, info), env);
  }

  lemma HeldStep(s: Control, slot: int, env: Env)
    ensures UserStep(s, DialAfterHold(s, slot, env))
  {}

  lemma NetworkReasonStep(s: Control, list: ImsCallList, reason: Reason, message: string)
    ensures UserStep(s, DisconnectReasonResponse(s, list, reason, message))
  {}

  /** The operations of users and the network on the calls there are. */
  predicate IsUserOrNetwork(e: ImsEvent) {
    e.NetworkReason? || e.UserHangUp? || e.UserAnswer? || e.UserReject? || e.UserDial? || e.Held? || e.SwapAnswered?
  }

  lemma UserOperationsStep(s: Control, e: ImsEvent, env: Env)
    requires IsUserOrNetwork(e)
    ensures UserStep(s, Step(s, e, env))
  {
    match e
    case NetworkReason(list, reason, message) => NetworkReasonStep(s, list, reason, message);
    case UserHangUp(who, kind) => HangUpStep(s, who, kind, env);
    case UserAnswer(who) => AnswerStep(s, who, env);
    case UserReject(who) => RejectStep(s, who, env);
    case UserDial(slot, info) => DialStep(s, slot, info, env);
    case Held(slot) => HeldStep(s, slot, env);
    case SwapAnswered =>
  }

  /** The operations that neither reconcile, restore or release the table nor set the redial flag. */
  predicate LeavesCalls(e: ImsEvent) {
    IsUserOrNetwork(e) || e.PostDialTimer? || e.UserProceed?
  }

  lemma StepSameCalls(s: Control, e: ImsEvent, env: Env)
    requires LeavesCalls(e)
    ensures SameCalls(s, Step(s, e, env))
  {
    if IsUserOrNetwork(e) {
      UserOperationsStep(s, e, env);
      UserStepSameCalls(s, Step(s, e, env));
    } else if e.PostDialTimer? {
      ExecutePostDialSameCalls(s, e.slot, e.id, env);
    } else {
      ProceedSameCalls(s, e.who, e.proceed, env);
    }
  }

  // ----- the observer

  /** Between operations: each entry is reported under its own key, or under 0 when it was restored; the observer knows
      calls of the table only, and only under their own key. */
  ghost predicate InStep(s: Control) {
    && Steady(s.table) && Known(Observe(s.log), s.table)
    && forall k | k in s.table :: s.table[k].report.index == k || s.table[k].report.index == 0
  }

  /** The observer knows no call that is gone. */
  ghost predicate NotAhead(s: Control) {
    Observe(s.log).Keys <= s.table.Keys
  }

  ghost predicate WellFormedEvent(e: ImsEvent) {
    e.Snapshot? ==> WellFormedIms(e.list)
  }

  ghost predicate WellFormedRun(run: Run) {
    forall i | 0 <= i < |run| :: WellFormedEvent(run[i].0)
  }

  /** A call list that is reconciled with a non-empty table. */
  predicate Updates(s: Control, e: ImsEvent) {
    e.Snapshot? && e.list.callSize > 0 && s.table != map[] && !e.isNeedQuery
  }

  /** A call list that ends all calls. */
  predicate Closes(e: ImsEvent) {
    e.Snapshot? && e.list.callSize <= 0 && !e.isNeedQuery
  }

  /** Entries are dropped without a report while the observer knows of them: by a release, by a closing list that is
      ignored or silent, or by an ignored update that does not list them. */
  ghost predicate Strands(s: Control, e: ImsEvent) {
    || (e.Release? && Observe(s.log) != map[])
    || (Closes(e) && (s.ignored || s.silent) && Observe(s.log) != map[])
    || (Updates(s, e) && s.ignored && !(Observe(s.log).Keys <= ListedIndices(e.list)))
  }

  lemma InStepNotAhead(s: Control)
    requires InStep(s)
    ensures NotAhead(s)
  {
    forall k | k in Observe(s.log).Keys ensures k in s.table.Keys {}
  }

  lemma IdleInStep(s: Control)
    requires Idle(s.table)
    ensures InStep(s) <==> NotAhead(s)
  {
    if InStep(s) { InStepNotAhead(s); }
    if NotAhead(s) {
      forall k | k in Observe(s.log) ensures k in s.table && s.table[k].report.index == k {
        assert k in Observe(s.log).Keys;
      }
    }
  }

  /** Without entries the observer is in step exactly if it knows nothing. */
  lemma KnowsNothing(s: Control)
    requires s.table == map[]
    ensures InStep(s) <==> Observe(s.log) == map[]
    ensures NotAhead(s) <==> Observe(s.log) == map[]
  {
    IdleInStep(s);
    assert Observe(s.log).Keys <= {} <==> Observe(s.log) == map[];
  }

  lemma SameCallsInStep(s: Control, s': Control)
    requires InStep(s) && SameCalls(s, s')
    ensures InStep(s') && NotAhead(s')
  {
    SameCallsObserved(s, s');
    InStepNotAhead(s');
  }

  /** What an update leaves to the observer: everything, but for the calls that the report of a dropped entry names. */
  lemma UpdateInStep(s: Control, slot: int, list: ImsCallList, env: Env)
    requires InStep(s) && WellFormedIms(list)
    ensures var calls := ImsListed(slot, list.calls);
            var s' := Update(Ims, s, slot, Promote(calls), env);
            && Idle(s'.table) && s'.table.Keys == ListedIndices(list) && !s'.ignored && s'.silent == s.silent
            && Observe(s'.log) == if s.ignored then Observe(s.log)
                                  else Without(States(s'.table), Blurred(s.table, calls))
  {
    var calls := ImsListed(slot, list.calls);
    ImsListable(slot, list);
    ImsIndices(slot, list);
    PromoteListable(calls);
    UpdateObserved(Ims, s, slot, Promote(calls), env);
    MarkAndSweepExact(Ims, s, slot, Promote(calls), env);
  }

  lemma FillInStep(s: Control, slot: int, list: ImsCallList, env: Env)
    requires InStep(s) && WellFormedIms(list) && s.table == map[]
    ensures var calls := ImsListed(slot, list.calls);
            var s' := FillEmpty(s, slot, calls, env);
            && Idle(s'.table) && s'.table.Keys == ListedIndices(list) && s'.silent == s.silent
            && Observe(s'.log) == (if Withheld(calls, env) then map[] else States(s'.table))
            && s'.ignored == (s.ignored || Withheld(calls, env))
  {
    assert Observe(s.log) == map[] by { assert forall k :: k !in Observe(s.log); }
    ImsListable(slot, list);
    ImsIndices(slot, list);
    FillObserved(s, slot, ImsListed(slot, list.calls), env);
  }

  lemma RestartInStep(s: Control, infos: seq<CallerInfo>, slot: int)
    requires InStep(s)
    ensures InStep(ReportHangUp(Ims, s, infos, slot)) && NotAhead(ReportHangUp(Ims, s, infos, slot))
    ensures Observe(s.log) == map[] ==> Observe(ReportHangUp(Ims, s, infos, slot).log) == map[]
  {
    LostObserved(Ims, s, infos, slot);
    InStepNotAhead(ReportHangUp(Ims, s, infos, slot));
  }

  lemma RestoreInStep(s: Control, infos: seq<CallerInfo>, slot: int, env: Env)
    requires InStep(s)
    ensures var s' := Step(s, Restore(infos, slot), env); InStep(s') && NotAhead(s') && s.table.Keys <= s'.table.Keys
  {
    var s' := Step(s, Restore(infos, slot), env);
    RestoreAdds(s.table, infos, slot);
    InStepNotAhead(s');
    forall k | k in s.table.Keys ensures k in s'.table.Keys {}
  }

  /** Restoring keeps what is there and adds entries without a report. */
  lemma {:induction false} RestoreAdds(t: Table, infos: seq<CallerInfo>, slot: int)
    requires Steady(t)
    ensures var t' := RestoreConnection(t, infos, slot);
            && Steady(t') && (forall k | k in t :: k in t' && t'[k] == t[k])
            && forall k | k in t' && k !in t ::
                 t'[k].report == ZERO_REPORT && t'[k].postDial == UNARMED && t'[k].dial == NEW_CONNECTION.dial
    decreases infos
  {
    if infos != [] {
      var info := infos[0];
      var t1 := if info.callType == TypeIms && info.slotId == slot && info.index !in t
                then t[info.index := NEW_CONNECTION.(index := info.index, number := info.phoneNum)] else t;
      RestoreAdds(t1, infos[1..], slot);
    }
  }

  /** Every operation keeps the table coherent and unmarked, whatever the modem lists. */
  lemma StepSteady(s: Control, e: ImsEvent, env: Env)
    requires Steady(s.table)
    ensures Steady(Step(s, e, env).table)
  {
    if LeavesCalls(e) {
      StepSameCalls(s, e, env);
    } else if e.Snapshot? && s.table == map[] {
      FillSteady(s, e.slot, ImsListed(e.slot, e.list.calls), env);
    } else if e.Snapshot? {
      MarkAndSweepExact(Ims, s, e.slot, Promote(ImsListed(e.slot, e.list.calls)), env);
    } else if e.Restore? {
      RestoreAdds(s.table, e.infos, e.slot);
    }
  }

  lemma {:induction false} AfterSteady(s: Control, run: Run)
    requires Steady(s.table)
    ensures Steady(After(s, run).table)
    decreases run
  {
    if run != [] {
      StepSteady(s, run[0].0, run[0].1);
      AfterSteady(Step(s, run[0].0, run[0].1), run[1..]);
    }
  }

  lemma SnapshotStrandsIff(s: Control, e: ImsEvent, env: Env)
    requires InStep(s) && e.Snapshot? && WellFormedIms(e.list)
    ensures InStep(Step(s, e, env)) <==> !Strands(s, e)
    ensures NotAhead(Step(s, e, env)) <==> !Strands(s, e)
  {
    if Closes(e) {
      HangUpObserved(Ims, s, e.slot);
      KnowsNothing(Step(s, e, env));
    } else if Updates(s, e) {
      UpdateInStep(s, e.slot, e.list, env);
      IdleInStep(Step(s, e, env));
    } else if e.list.callSize > 0 && s.table == map[] {
      FillInStep(s, e.slot, e.list, env);
      IdleInStep(Step(s, e, env));
    } else {
      SameCallsInStep(s, Step(s, e, env));
    }
  }

  /** One operation leaves the observer ahead of the table exactly if it strands it. */
  lemma StepStrandsIff(s: Control, e: ImsEvent, env: Env)
    requires InStep(s) && WellFormedEvent(e)
    ensures InStep(Step(s, e, env)) <==> !Strands(s, e)
    ensures NotAhead(Step(s, e, env)) <==> !Strands(s, e)
  {
    if e.Snapshot? {
      SnapshotStrandsIff(s, e, env);
    } else if LeavesCalls(e) {
      StepSameCalls(s, e, env);
      SameCallsInStep(s, Step(s, e, env));
    } else if e.Restarted? {
      RestartInStep(s, e.infos, e.slot);
    } else if e.Restore? {
      RestoreInStep(s, e.infos, e.slot, env);
    } else if e.SilentCsRedial? {
      InStepNotAhead(s);
    } else {
      KnowsNothing(Step(s, e, env));
    }
  }

  ghost predicate AlwaysNotAhead(s: Control, run: Run)
    decreases run
  {
    NotAhead(s) && (run != [] ==> AlwaysNotAhead(Step(s, run[0].0, run[0].1), run[1..]))
  }

  ghost predicate NeverStrands(s: Control, run: Run)
    decreases run
  {
    run != [] ==> !Strands(s, run[0].0) && NeverStrands(Step(s, run[0].0, run[0].1), run[1..])
  }

  /** Over every run, whatever it restores, releases or redials silently, the observer's calls are calls of the table
      throughout exactly if no operation strands it. */
  lemma {:induction false} NeverAheadIff(s: Control, run: Run)
    requires InStep(s) && WellFormedRun(run)
    ensures AlwaysNotAhead(s, run) <==> NeverStrands(s, run)
    ensures NeverStrands(s, run) ==> InStep(After(s, run))
    decreases run
  {
    InStepNotAhead(s);
    if run != [] {
      var s1 := Step(s, run[0].0, run[0].1);
      StepStrandsIff(s, run[0].0, run[0].1);
      if InStep(s1) {
        NeverAheadIff(s1, run[1..]);
      } else {
        assert !AlwaysNotAhead(s1, run[1..]);
      }
    }
  }

  /** All operations but a release and a silent redial. */
  predicate Ordinary(e: ImsEvent) {
    !e.Release? && !(e.SilentCsRedial? && e.silent)
  }

  /** While reports are suppressed there is a session, of which the observer knows nothing. */
  ghost predicate OrdinaryInv(s: Control) {
    InStep(s) && !s.silent && (s.ignored ==> s.table != map[] && Observe(s.log) == map[])
  }

  /** A new control starts in step with its observer. */
  lemma EmptyControlOrdinary()
    ensures OrdinaryInv(EMPTY_CONTROL)
  {}

  lemma OrdinarySnapshot(s: Control, e: ImsEvent, env: Env)
    requires OrdinaryInv(s) && e.Snapshot? && WellFormedIms(e.list)
    ensures OrdinaryInv(Step(s, e, env))
  {
    SnapshotStrandsIff(s, e, env);
    if Closes(e) {
      HangUpObserved(Ims, s, e.slot);
    } else if Updates(s, e) {
      UpdateInStep(s, e.slot, e.list, env);
    } else if e.list.callSize > 0 && s.table == map[] {
      FillInStep(s, e.slot, e.list, env);
      assert e.list.calls[0].index in ListedIndices(e.list);
    } else {
      SameCallsObserved(s, Step(s, e, env));
    }
  }

  lemma OrdinaryStep(s: Control, e: ImsEvent, env: Env)
    requires OrdinaryInv(s) && WellFormedEvent(e) && Ordinary(e)
    ensures !Strands(s, e) && OrdinaryInv(Step(s, e, env))
  {
    StepStrandsIff(s, e, env);
    if e.Snapshot? {
      OrdinarySnapshot(s, e, env);
    } else if LeavesCalls(e) {
      StepSameCalls(s, e, env);
      SameCallsObserved(s, Step(s, e, env));
      assert Step(s, e, env).table.Keys == s.table.Keys;
    } else if e.Restarted? {
      RestartInStep(s, e.infos, e.slot);
    } else if e.Restore? {
      RestoreInStep(s, e.infos, e.slot, env);
    }
  }

  /** Over every run without releases and silent redials the observer's calls are calls of the table throughout. */
  lemma {:induction false} ObserverNeverAhead(s: Control, run: Run)
    requires OrdinaryInv(s) && WellFormedRun(run) && forall i | 0 <= i < |run| :: Ordinary(run[i].0)
    ensures AlwaysNotAhead(s, run) && NeverStrands(s, run) && OrdinaryInv(After(s, run))
    decreases run
  {
    InStepNotAhead(s);
    if run != [] {
      OrdinaryStep(s, run[0].0, run[0].1);
      ObserverNeverAhead(Step(s, run[0].0, run[0].1), run[1..]);
    }
  }

  /** The report of entry `k`, which `list` drops, names call `i`. */
  ghost predicate DropsAs(t: Table, list: ImsCallList, k: int, i: int) {
    k in t && k !in ListedIndices(list) && t[k].report.index == i
  }

  /** An entry that `list` drops is reported under an index that `list` names; only a restored entry can be. */
  ghost predicate NamesDropped(t: Table, list: ImsCallList) {
    exists k, i :: i in ListedIndices(list) && DropsAs(t, list, k, i)
  }

  /** Every call in `obs` is listed, or named by the report of an entry that `list` drops. */
  ghost predicate Accounts(obs: Observed, t: Table, list: ImsCallList) {
    forall i | i in obs :: i in ListedIndices(list) || exists k :: DropsAs(t, list, k, i)
  }

  lemma NamedIsDropped(t: Table, list: ImsCallList, i: int)
    ensures i in Named(t, t.Keys - ListedIndices(list)) <==> exists k :: DropsAs(t, list, k, i)
  {
    if i in Named(t, t.Keys - ListedIndices(list)) {
      var k :| k in t.Keys - ListedIndices(list) && k in t && t[k].report.index == i;
      assert DropsAs(t, list, k, i);
    }
    if k :| DropsAs(t, list, k, i) {
      assert k in t.Keys - ListedIndices(list);
    }
  }

  lemma HealsIff(obs: Observed, t: Table, list: ImsCallList)
    ensures var gone := Named(t, t.Keys - ListedIndices(list));
            gone !! ListedIndices(list) && obs.Keys <= ListedIndices(list) + gone
            <==> !NamesDropped(t, list) && Accounts(obs, t, list)
  {
    var gone := Named(t, t.Keys - ListedIndices(list));
    forall i ensures i in gone <==> exists k :: DropsAs(t, list, k, i) {
      NamedIsDropped(t, list, i);
    }
    assert gone !! ListedIndices(list) <==> !NamesDropped(t, list);
    if Accounts(obs, t, list) {
      forall i | i in obs.Keys ensures i in ListedIndices(list) + gone {}
    }
  }

  lemma KnownAccounts(s: Control, list: ImsCallList)
    requires InStep(s)
    ensures Accounts(Observe(s.log), s.table, list)
    ensures 0 !in ListedIndices(list) ==> !NamesDropped(s.table, list)
  {
    forall i | i in Observe(s.log) && i !in ListedIndices(list) ensures exists k :: DropsAs(s.table, list, k, i) {
      assert DropsAs(s.table, list, i, i);
    }
  }

  /** After any run, whatever it restores, releases or redials silently, an update that is reported leaves the observer
      with exactly the table, whatever was suppressed before, if and only if the list names no call that the report of a
      dropped entry names, and accounts for every call the observer knew. The second always holds unless the run
      strands the observer, and then the first does for a list that numbers its calls from 1. */
  lemma ReportedUpdateHealsIff(s: Control, run: Run, e: ImsEvent, env: Env)
    requires Steady(s.table) && WellFormedEvent(e) && Updates(After(s, run), e) && !After(s, run).ignored
    ensures var was := After(s, run);
            var s' := Step(was, e, env);
            && (Observe(s'.log) == States(s'.table)
                <==> !NamesDropped(was.table, e.list) && Accounts(Observe(was.log), was.table, e.list))
            && (InStep(s) && WellFormedRun(run) && NeverStrands(s, run) ==>
                  && Accounts(Observe(was.log), was.table, e.list)
                  && (0 !in ListedIndices(e.list) ==> Observe(s'.log) == States(s'.table)))
  {
    var was := After(s, run);
    var calls := ImsListed(e.slot, e.list.calls);
    AfterSteady(s, run);
    ImsListable(e.slot, e.list);
    ImsIndices(e.slot, e.list);
    PromoteListable(calls);
    UpdateShowsIff(Ims, was, e.slot, Promote(calls), env);
    HealsIff(Observe(was.log), was.table, e.list);
    if InStep(s) && WellFormedRun(run) && NeverStrands(s, run) {
      NeverAheadIff(s, run);
      KnownAccounts(was, e.list);
    }
  }

  /** One call, `k`, which was restored. */
  ghost predicate OnlyRestored(s: Control, k: int) {
    InStep(s) && !s.ignored && s.table.Keys == {k} && s.table[k].report.index == 0
  }

  lemma RestoreOne(info: CallerInfo, env: Env)
    requires info.callType == TypeIms
    ensures OnlyRestored(Step(EMPTY_CONTROL, Restore([info], info.slotId), env), info.index)
  {
    var t1: Table := map[info.index := NEW_CONNECTION.(index := info.index, number := info.phoneNum)];
    assert [info][1..] == [];
    assert RestoreConnection(t1, [], info.slotId) == t1;
    RestoreInStep(EMPTY_CONTROL, [info], info.slotId, env);
  }

  lemma OneBlurs(t: Table, k: int, slot: int, list: ImsCallList)
    requires t.Keys == {k} && k != 0 && t[k].report.index == 0 && ListedIndices(list) == {0}
    ensures Blurred(t, ImsListed(slot, list.calls)) == {0}
  {
    var calls := ImsListed(slot, list.calls);
    ImsIndices(slot, list);
    assert k in t.Keys - Indices(calls);
    assert 0 in Named(t, t.Keys - Indices(calls)) && 0 in Indices(calls);
  }

  lemma DroppedHidesCall(s: Control, k: int, e: ImsEvent, env: Env)
    requires OnlyRestored(s, k) && k != 0
    requires e.Snapshot? && WellFormedIms(e.list) && !e.isNeedQuery && ListedIndices(e.list) == {0}
    ensures Updates(s, e) && Step(s, e, env).table.Keys == {0} && Observe(Step(s, e, env).log) == map[]
  {
    UpdateInStep(s, e.slot, e.list, env);
    OneBlurs(s.table, k, e.slot, e.list);
  }

  /** The condition can fail: a list that comes before the restored calls are released, and drops one of them, hides
      call 0. */
  lemma RestoredEntryHidesCall(info: CallerInfo, e: ImsEvent, env: Env)
    requires info.callType == TypeIms && info.index != 0
    requires e.Snapshot? && WellFormedIms(e.list) && !e.isNeedQuery && ListedIndices(e.list) == {0}
    ensures var s := Step(EMPTY_CONTROL, Restore([info], info.slotId), env);
            var s' := Step(s, e, env);
            Updates(s, e) && s'.table.Keys == {0} && Observe(s'.log) == map[]
  {
    RestoreOne(info, env);
    DroppedHidesCall(Step(EMPTY_CONTROL, Restore([info], info.slotId), env), info.index, e, env);
  }

  /** Of two updates in a row the second always does, even when reports before it were suppressed. */
  lemma SecondUpdateHeals(s: Control, run: Run, e1: ImsEvent, env1: Env, e2: ImsEvent, env2: Env)
    requires InStep(s) && WellFormedRun(run) && NeverStrands(s, run) && WellFormedEvent(e1) && WellFormedEvent(e2)
    requires Updates(After(s, run), e1) && !Strands(After(s, run), e1)
    requires Updates(Step(After(s, run), e1, env1), e2)
    ensures var s' := Step(Step(After(s, run), e1, env1), e2, env2); Observe(s'.log) == States(s'.table)
  {
    var was := After(s, run);
    var s1 := Step(was, e1, env1);
    NeverAheadIff(s, run);
    StepStrandsIff(was, e1, env1);
    UpdateInStep(was, e1.slot, e1.list, env1);
    ReportedUpdateHealsIff(s1, [], e2, env2);
  }

  /** With the redial flag set, the closing call list leaves the observer behind exactly when it knew a call. */
  lemma SilentRedialStrandsObserver(s: Control, slot: int, list: ImsCallList, env: Env)
    requires InStep(s) && list.callSize <= 0
    ensures var s' := ReportImsCallsData(s, slot, list, false, env);
            s'.table == map[] && (NotAhead(s') <==> !(s.silent || s.ignored) || Observe(s.log) == map[])
  {
    HangUpObserved(Ims, s, slot);
    KnowsNothing(ReportImsCallsData(s, slot, list, false, env));
  }

  /** A release leaves the observer behind exactly when it knew a call. */
  lemma ReleaseStrandsObserver(s: Control, env: Env)
    ensures NotAhead(Step(s, Release, env)) <==> Observe(s.log) == map[]
  {
    KnowsNothing(Step(s, Release, env));
  }
}
