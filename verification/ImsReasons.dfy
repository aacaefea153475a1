/** Where the disconnect reason and message of an IMS call come from. */
module ImsReasons {
  import opened CallTypes
  import opened OrderedKeys
  import opened CallTable
  import opened Encapsulation
  import opened ImsSpec
  import opened TableTheorems
  import opened Observer
  import opened ImsTheorems
  import opened ImsHoldDial
  import opened Attribution

  /** What an operation writes for call `k`: a hang-up clears the message, a decline leaves it. The network's reason and
      message go to calls that are not listed any more. */
  function WriteFor(s: Control, e: ImsEvent, k: int): Write {
    match e
    case UserHangUp(who, TypeDefault) => if who.index == k then ByUser(UserTerminated, Some("")) else NoWrite
    case UserHangUp(who, HangUpAll) => ByUser(UserTerminated, Some(""))
    case UserHangUp(who, OtherType) => NoWrite
    case UserHangUp(who, _) => if who.callId == k then ByUser(UserTerminated, Some("")) else NoWrite
    case UserReject(who) =>
      if who.index == k && k in s.table && IsRinging(s.table[k].report.state) then ByUser(UserDecline, None)
      else NoWrite
    case NetworkReason(list, reason, message) =>
      if k !in ListedIndices(list) then ByNetwork(reason, message) else NoWrite
    case _ => NoWrite
  }

  /** What an entry says about the end of its call. */
  function Ending(c: Connection): (Reason, string) {
    (c.reason, c.message)
  }

  lemma SnapshotKeepsEnding(s: Control, e: ImsEvent, env: Env, k: int)
    requires Steady(s.table) && e.Snapshot? && k in s.table && k in Step(s, e, env).table
    ensures Ending(Step(s, e, env).table[k]) == Ending(s.table[k])
  {
    if !e.isNeedQuery && e.list.callSize > 0 {
      var calls := Promote(ImsListed(e.slot, e.list.calls));
      assert Step(s, e, env) == Update(Ims, s, e.slot, calls, env);
      MarkAndSweepExact(Ims, s, e.slot, calls, env);
      assert Carried(Before(s.table, k), Step(s, e, env).table[k]);
    }
  }

  lemma HangUpWrites(s: Control, e: ImsEvent, env: Env, k: int)
    requires Coherent(s.table) && k in s.table && e.UserHangUp?
    ensures k in Step(s, e, env).table
    ensures Ending(Step(s, e, env).table[k]) == Written(Ending(s.table[k]), WriteFor(s, e, k))
  {
    FindIsLookup(s.table, e.who.index);
    FindIsLookup(s.table, e.who.callId);
  }

  lemma RejectWrites(s: Control, e: ImsEvent, env: Env, k: int)
    requires Coherent(s.table) && k in s.table && e.UserReject?
    ensures k in Step(s, e, env).table
    ensures Ending(Step(s, e, env).table[k]) == Written(Ending(s.table[k]), WriteFor(s, e, k))
  {
    FindIsLookup(s.table, e.who.index);
  }

  lemma AnswerKeepsEnding(s: Control, who: CallerInfo, env: Env, k: int)
    requires k in s.table
    ensures k in Answer(s, who, env).0.table && Ending(Answer(s, who, env).0.table[k]) == Ending(s.table[k])
  {}

  lemma DialKeepsEnding(s: Control, slot: int, info: DialInfo, env: Env, k: int)
    requires k in s.table
    ensures k in DialJudgment(s, slot, info, env).0.table
    ensures Ending(DialJudgment(s, slot, info, env).0.table[k]) == Ending(s.table[k])
  {}

  lemma PostDialKeepsEnding(s: Control, slot: int, id: int, env: Env, k: int)
    requires k in s.table
    ensures k in ExecutePostDial(s, slot, id, env).table
    ensures Ending(ExecutePostDial(s, slot, id, env).table[k]) == Ending(s.table[k])
  {}

  lemma StepWrites(s: Control, e: ImsEvent, env: Env, k: int)
    requires Steady(s.table) && k in s.table && k in Step(s, e, env).table
    ensures Ending(Step(s, e, env).table[k]) == Written(Ending(s.table[k]), WriteFor(s, e, k))
  {
    match e
    case Snapshot(_, _, _) => SnapshotKeepsEnding(s, e, env, k);
    case NetworkReason(_, _, _) => assert s.table[k].index == k;
    case UserHangUp(_, _) => HangUpWrites(s, e, env, k);
    case UserReject(_) => RejectWrites(s, e, env, k);
    case UserAnswer(who) => AnswerKeepsEnding(s, who, env, k);
    case UserDial(slot, info) => DialKeepsEnding(s, slot, info, env, k);
    case PostDialTimer(slot, id) => PostDialKeepsEnding(s, slot, id, env, k);
    case UserProceed(who, proceed) =>
      var key := FindByIndex(s.table, who.index);
      if key.Some? { PostDialKeepsEnding(s, who.slotId, s.table[key.value].index, env, k); }
    case Restore(infos, slot) => RestoreAdds(s.table, infos, slot);
    case _ =>
  }

  lemma {:induction false} EndingHistory(s: Control, run: Run, k: int)
    requires Steady(s.table) && Alive(s, run, Step, k)
    ensures k in After(s, run).table && UsersGiveReasons(History(s, run, Step, WriteFor, k))
    ensures Ending(After(s, run).table[k]) == AllWritten(Ending(s.table[k]), History(s, run, Step, WriteFor, k))
    decreases run
  {
    if run != [] {
      StepSteady(s, run[0].0, run[0].1);
      StepWrites(s, run[0].0, run[0].1, k);
      EndingHistory(Step(s, run[0].0, run[0].1), run[1..], k);
    }
  }

  /** Over any run that `k` survives, its reason is the last one a user operation wrote, else the one it had, else the
      first one the network gave; and its message is the last one a hang-up wrote, else the one it had with a reason,
      else the one that came with the network's first reason, as long as the user had not declined before. Call lists,
      restores and the holding protocol change neither. */
  lemma ReasonAttribution(s: Control, run: Run, k: int)
    requires Steady(s.table) && Alive(s, run, Step, k)
    ensures k in After(s, run).table
    ensures var c, c', ws := s.table[k], After(s, run).table[k], History(s, run, Step, WriteFor, k);
            c'.reason == AttributedReason(c.reason, ws) && c'.message == AttributedMessage((c.reason, c.message), ws)
  {
    EndingHistory(s, run, k);
    WritesAttributed(Ending(s.table[k]), History(s, run, Step, WriteFor, k));
  }

  /** A decline after the network's answer keeps the answer's message under the user's reason; a hang-up clears it. */
  lemma DeclineKeepsNetworkMessage(s: Control, list: ImsCallList, reason: Reason, message: string, who: CallerInfo,
                                   env: Env)
    requires Steady(s.table) && who.index in s.table && IsRinging(s.table[who.index].report.state)
    requires s.table[who.index].reason == Invalid && who.index !in ListedIndices(list)
    ensures var told := Step(s, NetworkReason(list, reason, message), env);
            var declined, ended := Step(told, UserReject(who), env), Step(told, UserHangUp(who, TypeDefault), env);
            && who.index in declined.table && Ending(declined.table[who.index]) == (UserDecline, message)
            && who.index in ended.table && Ending(ended.table[who.index]) == (UserTerminated, "")
  {
    var told := Step(s, NetworkReason(list, reason, message), env);
    StepSteady(s, NetworkReason(list, reason, message), env);
    StepWrites(s, NetworkReason(list, reason, message), env, who.index);
    RejectWrites(told, UserReject(who), env, who.index);
    HangUpWrites(told, UserHangUp(who, TypeDefault), env, who.index);
  }

  /** A user's message is always empty. */
  lemma {:induction false} UsersGiveNoMessage(s: Control, run: Run, k: int)
    ensures var given := LastUserMessage(History(s, run, Step, WriteFor, k)); given.Some? ==> given.value == ""
    decreases run
  {
    if run != [] { UsersGiveNoMessage(Step(s, run[0].0, run[0].1), run[1..], k); }
  }

  /** A call that starts without reason and message and is declined after a run holds the user's reason, under the
      message the network gave for it before, if it gave one and no hang-up was asked for; else under none. */
  lemma DeclineAfterRun(s: Control, run: Run, who: CallerInfo, env: Env)
    requires Steady(s.table) && Alive(s, run, Step, who.index) && Ending(s.table[who.index]) == (Invalid, "")
    requires who.index in After(s, run).table && IsRinging(After(s, run).table[who.index].report.state)
    ensures var t := Step(After(s, run), UserReject(who), env).table;
            var ws := History(s, run, Step, WriteFor, who.index);
            && who.index in t && t[who.index].reason == UserDecline
            && t[who.index].message == if LastUserMessage(ws).None? && NetworkMessage(ws).Some?
                                       then NetworkMessage(ws).value else ""
  {
    ReasonAttribution(s, run, who.index);
    UsersGiveNoMessage(s, run, who.index);
    AfterSteady(s, run);
    RejectWrites(After(s, run), UserReject(who), env, who.index);
  }

  // ----- the report that ends a call

  /** An entry that an update drops is reported with its reason and message, in the vector the update sends. */
  lemma UpdateReportsReasonAndMessage(s: Control, slot: int, calls: seq<Listed>, env: Env, k: int)
    requires Steady(s.table) && !s.ignored && k in s.table && k !in Indices(calls)
    ensures var log := Update(Ims, s, slot, calls, env).log;
            var c := s.table[k];
            && log != [] && log[|log| - 1].CallsReport?
            && c.report.(state := Disconnected, reason := c.reason, message := c.message) in log[|log| - 1].reports
  {
    MarkAndSweepExact(Ims, s, slot, calls, env);
    var played :| UpdateSent(Ims, s, Update(Ims, s, slot, calls, env), slot, calls, played);
    GoneIsReported(Ims, s.table, s.table.Keys - Indices(calls), k);
    assert DisconnectReport(Ims, s.table[k]) in UpdateVector(Ims, s.table, calls);
  }

  /** The last thing sent is a call report with the disconnection of `c`: its own report but for the account, with the
      reason and message of the entry. */
  ghost predicate EndsCall(log: Log, c: Connection, account: int) {
    && log != [] && log[|log| - 1].CallsReport?
    && c.report.(state := Disconnected, reason := c.reason, message := c.message, accountId := account)
       in log[|log| - 1].reports
  }

  /** However call `k` ends, by a list that drops it or by one that ends all calls, the report that ends it carries
      its reason and message, unless reports are suppressed. */
  lemma EndReportCarriesReasonAndMessage(s: Control, e: ImsEvent, env: Env, k: int)
    requires Steady(s.table) && !s.ignored && k in s.table
    requires (Closes(e) && !s.silent) || (Updates(s, e) && k !in ListedIndices(e.list))
    ensures EndsCall(Step(s, e, env).log, s.table[k], if Closes(e) then e.slot else s.table[k].report.accountId)
  {
    if Closes(e) {
      AllAreReported(Ims, s.table, e.slot, k);
    } else {
      var calls := ImsListed(e.slot, e.list.calls);
      ImsIndices(e.slot, e.list);
      PromoteIndices(calls);
      UpdateReportsReasonAndMessage(s, e.slot, Promote(calls), env, k);
    }
  }
}
