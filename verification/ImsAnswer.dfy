/** Answering over runs of an IMS control: the active call is asked to swap out at most once. */
module ImsAnswer {
  import opened CallTypes
  import opened OrderedKeys
  import opened CallTable
  import opened Encapsulation
  import opened ImsSpec
  import opened TableTheorems
  import opened Observer
  import opened ImsTheorems

  predicate IsSwap(e: Event) {
    e.Request? && e.command.Swap? && e.result == Success
  }

  predicate IsNoSwap(e: Event) { !IsSwap(e) }

  function CountSwap(n: nat, e: Event): nat {
    n + if IsSwap(e) then 1 else 0
  }

  /** The swaps that succeeded so far. */
  function SwapCount(log: Log): nat {
    Fold(log, 0, CountSwap)
  }

  lemma NoSwapCounts(log: Log, log': Log)
    requires Continues(log, log', IsNoSwap)
    ensures SwapCount(log') == SwapCount(log)
  {
    FoldContinues(log, log', IsNoSwap, 0, CountSwap);
  }

  /** Whether the first active call may still be asked to swap out: it is not already about to be held. */
  function SwapsLeft(s: Control): nat {
    match FindByState(s.table, Active)
    case None => 0
    case Some(k) => if s.table[k].report.isPendingHold then 0 else 1
  }

  /** The user operations of an answering sequence. */
  predicate Answering(e: ImsEvent) {
    e.UserAnswer? || e.UserHangUp? || e.UserReject?
  }

  lemma SameStatesSameCall(t: Table, t': Table, state: TelCallState)
    requires t'.Keys == t.Keys && forall k | k in t :: t'[k].report.state == t[k].report.state
    ensures FindByState(t', state) == FindByState(t, state)
  {
    var hits := set k | k in t && t[k].report.state == state;
    var hits' := set k | k in t' && t'[k].report.state == state;
    assert forall k :: k in hits' <==> k in hits;
    assert hits' == hits;
  }

  lemma {:induction false} HangUpEachSwapsNothing(t: Table, ks: seq<int>, log: Log, env: Env)
    requires forall i | 0 <= i < |ks| :: ks[i] in t
    ensures Continues(log, HangUpEach(Ims, t, ks, log, env).0, IsNoSwap)
    decreases ks
  {
    if ks != [] {
      var log1 := Issue(log, HeldHangUp(Ims, t[ks[0]]), env);
      HangUpEachSwapsNothing(t, ks[1..], log1, env);
      ContinuesTransitive(log, log1, HangUpEach(Ims, t, ks[1..], log1, env).0, IsNoSwap);
    }
  }

  /** Making room sends hang-ups only. */
  lemma ClearHoldingSwapsNothing(t: Table, log: Log, env: Env)
    ensures Continues(log, ClearHolding(Ims, t, log, env).0, IsNoSwap)
    ensures SwapCount(ClearHolding(Ims, t, log, env).0) == SwapCount(log)
  {
    HangUpEachSwapsNothing(t, SortedKeys(t.Keys * InStateKeys(t, Holding)), log, env);
    NoSwapCounts(log, ClearHolding(Ims, t, log, env).0);
  }

  lemma IssueSwaps(log: Log, command: Command, env: Env)
    ensures SwapCount(Issue(log, command, env))
            == SwapCount(log) + if command.Swap? && env.results(|log|) == Success then 1 else 0
  {}

  /** What has been swapped and what may still be swapped stay the same in sum. */
  ghost predicate Balanced(s: Control, s': Control) {
    SwapCount(s'.log) + SwapsLeft(s') == SwapCount(s.log) + SwapsLeft(s)
  }

  ghost predicate SameHolds(t: Table, t': Table) {
    && t'.Keys == t.Keys
    && forall k | k in t :: t'[k].report.state == t[k].report.state
                            && t'[k].report.isPendingHold == t[k].report.isPendingHold
  }

  lemma SameHoldsBalanced(s: Control, s': Control)
    requires SameHolds(s.table, s'.table) && Continues(s.log, s'.log, IsNoSwap)
    ensures Balanced(s, s')
  {
    NoSwapCounts(s.log, s'.log);
    SameStatesSameCall(s.table, s'.table, Active);
  }

  lemma SwitchBalanced(s: Control, k: int, slot: int, videoState: int, env: Env)
    requires FindByState(s.table, Active) == Some(k) && !s.table[k].report.isPendingHold
    ensures Balanced(s, SwitchCall(s, k, slot, videoState, env).0)
  {
    var s' := SwitchCall(s, k, slot, videoState, env).0;
    IssueSwaps(s.log, Swap(slot, videoState), env);
    SameStatesSameCall(s.table, s'.table, Active);
  }

  lemma CommandBalanced(s: Control, command: Command, env: Env)
    requires !command.Swap?
    ensures Balanced(s, s.(log := Issue(s.log, command, env)))
  {
    IssueSwaps(s.log, command, env);
  }

  /** A swap uses up the one the active call had left. */
  lemma TakeCallBalanced(s: Control, k: int, who: CallerInfo, env: Env)
    requires k in s.table
    ensures Balanced(s, TakeCall(s, k, who, env).0)
  {
    var con := FindByState(s.table, Active);
    if con.Some? && !s.table[con.value].report.isPendingHold && s.table[k].report.state == Waiting {
      SwitchBalanced(s, con.value, who.slotId, who.videoState, env);
    } else if IsRinging(s.table[k].report.state) {
      CommandBalanced(s, AnswerCommand(who.slotId, who.phoneNum, who.videoState, who.index, who.isRtt), env);
    } else {
      assert TakeCall(s, k, who, env).0 == s;
    }
  }

  lemma AnswerBalanced(s: Control, who: CallerInfo, env: Env)
    ensures Balanced(s, Answer(s, who, env).0)
  {
    var key := FindByIndex(s.table, who.index);
    if key.Some? {
      ClearHoldingSwapsNothing(s.table, s.log, env);
      var s1 := s.(log := ClearHolding(Ims, s.table, s.log, env).0);
      assert Balanced(s, s1);
      TakeCallBalanced(s1, key.value, who, env);
    }
  }

  lemma HangUpBalanced(s: Control, who: CallerInfo, kind: SupplementType, env: Env)
    ensures Balanced(s, HangUp(s, who, kind, env).0)
  {
    var s' := HangUp(s, who, kind, env).0;
    assert SameHolds(s.table, s'.table);
    assert Continues(s.log, s'.log, IsNoSwap);
    SameHoldsBalanced(s, s');
  }

  lemma RejectBalanced(s: Control, who: CallerInfo, env: Env)
    ensures Balanced(s, Reject(s, who, env).0)
  {
    var s' := Reject(s, who, env).0;
    assert SameHolds(s.table, s'.table);
    assert Continues(s.log, s'.log, IsNoSwap);
    SameHoldsBalanced(s, s');
  }

  /** Along any answers, hang-ups and rejections, in any order, at most one swap of the active call succeeds, and none
      when it is already about to be held. */
  lemma {:induction false} NeverSwapsTwice(s: Control, run: Run)
    requires forall i | 0 <= i < |run| :: Answering(run[i].0)
    ensures SwapCount(After(s, run).log) + SwapsLeft(After(s, run)) == SwapCount(s.log) + SwapsLeft(s)
    ensures SwapCount(After(s, run).log) <= SwapCount(s.log) + 1
    decreases run
  {
    if run != [] {
      var (e, env) := run[0];
      match e {
        case UserAnswer(who) => AnswerBalanced(s, who, env);
        case UserHangUp(who, kind) => HangUpBalanced(s, who, kind, env);
        case UserReject(who) => RejectBalanced(s, who, env);
      }
      NeverSwapsTwice(Step(s, e, env), run[1..]);
    }
  }

  /** Once a swap has succeeded along such a run, answering a ringing call hangs up the held calls if it must, and
      unless that fails asks for the answer itself. */
  lemma LaterAnswersAnswer(s: Control, run: Run, who: CallerInfo, env: Env, k: int)
    requires forall i | 0 <= i < |run| :: Answering(run[i].0)
    requires SwapCount(After(s, run).log) > SwapCount(s.log)
    requires FindByIndex(After(s, run).table, who.index) == Some(k)
    requires IsRinging(After(s, run).table[k].report.state)
    ensures var now := After(s, run);
            var (log, failure) := ClearHolding(Ims, now.table, now.log, env);
            var answer := AnswerCommand(who.slotId, who.phoneNum, who.videoState, who.index, who.isRtt);
            Answer(now, who, env) == if failure != Success then (now.(log := log), failure)
                                     else (now.(log := Issue(log, answer, env)), env.results(|log|))
  {
    NeverSwapsTwice(s, run);
    assert SwapsLeft(After(s, run)) == 0;
  }

  /** A reconciled call list clears every pending hold. */
  lemma UpdateClearsPendingHold(s: Control, slot: int, list: ImsCallList, env: Env)
    requires Steady(s.table) && WellFormedIms(list)
    ensures var t := Update(Ims, s, slot, Promote(ImsListed(slot, list.calls)), env).table;
            forall k | k in t :: !t[k].report.isPendingHold
  {
    var calls := Promote(ImsListed(slot, list.calls));
    ImsListable(slot, list);
    PromoteListable(ImsListed(slot, list.calls));
    UpdateStoresReports(Ims, s, slot, calls, env);
    var t := Update(Ims, s, slot, calls, env).table;
    forall k | k in t ensures !t[k].report.isPendingHold {
      var i :| 0 <= i < |calls| && calls[i].index == k;
      assert !calls[i].report.isPendingHold;
    }
  }
}
