/** "Hold, then dial" over whole runs of an IMS control: no dial is made that was not asked for. */
module ImsHoldDial {
  import opened CallTypes
  import opened OrderedKeys
  import opened PostDial
  import opened CallTable
  import opened ControlBase
  import opened Encapsulation
  import opened ImsSpec
  import opened TableTheorems
  import opened Observer
  import opened ImsTheorems
  import opened Attribution

  function CountDial(n: nat, e: Event): nat {
    n + if e.Request? && e.command.DialCommand? then 1 else 0
  }

  /** The dials requested so far. */
  function DialCount(log: Log): nat {
    Fold(log, 0, CountDial)
  }

  predicate IsNoDial(e: Event) {
    e.Request? ==> !e.command.DialCommand?
  }

  lemma NoDialCounts(log: Log, log': Log)
    requires Continues(log, log', IsNoDial)
    ensures DialCount(log') == DialCount(log)
  {
    FoldContinues(log, log', IsNoDial, 0, CountDial);
  }

  lemma DialCounts(log: Log, slot: int, info: DialInfo, env: Env)
    ensures DialCount(Issue(log, DialCommand(slot, info), env)) == DialCount(log) + 1
  {}

  /** A user dial that the table has room for. */
  predicate Accepted(s: Control, e: ImsEvent) {
    e.UserDial? && |s.table| <= 6
  }

  function AcceptedDials(s: Control, run: Run): nat
    decreases run
  {
    if run == [] then 0
    else (if Accepted(s, run[0].0) then 1 else 0) + AcceptedDials(Step(s, run[0].0, run[0].1), run[1..])
  }

  /** Dials made, and dials still parked. */
  function Outstanding(s: Control): nat {
    DialCount(s.log) + |ParkedKeys(s.table)|
  }

  // ----- steps that neither park nor dial

  /** Exactly the parked dials of the entries that stay remain parked, and nothing is dialled. */
  ghost predicate NoNewDial(s: Control, s': Control) {
    && (forall k | k in s'.table :: s'.table[k].dial.needToDial <==> k in s.table && s.table[k].dial.needToDial)
    && Continues(s.log, s'.log, IsNoDial)
  }

  /** The dials parked on entries that are not there any more. */
  function Dropped(s: Control, s': Control): set<int> {
    ParkedKeys(s.table) - s'.table.Keys
  }

  lemma NoNewDialOutstanding(s: Control, s': Control)
    requires NoNewDial(s, s')
    ensures Outstanding(s') + |Dropped(s, s')| == Outstanding(s)
  {
    var parked, parked' := ParkedKeys(s.table), ParkedKeys(s'.table);
    NoDialCounts(s.log, s'.log);
    forall k ensures k in parked' + Dropped(s, s') <==> k in parked {
      assert k in parked' <==> k in s'.table && s'.table[k].dial.needToDial;
      assert k in parked <==> k in s.table && s.table[k].dial.needToDial;
    }
    assert parked' + Dropped(s, s') == parked;
    assert forall k | k in parked' :: k in s'.table.Keys;
    assert parked' !! Dropped(s, s');
  }

  lemma UpdateParksNothing(s: Control, slot: int, calls: seq<Listed>, env: Env)
    requires Steady(s.table)
    ensures var s' := Update(Ims, s, slot, calls, env); NoNewDial(s, s') && Steady(s'.table)
  {
    var s' := Update(Ims, s, slot, calls, env);
    MarkAndSweepExact(Ims, s, slot, calls, env);
    var played :| UpdateSent(Ims, s, s', slot, calls, played);
    ContinuesWeaken(s.log, played, IsPostDialEvent, IsNoDial);
    ContinuesWith(s.log, played, CallsReport(slot, UpdateVector(Ims, s.table, calls)), IsNoDial);
    forall k | k in s'.table
      ensures s'.table[k].dial.needToDial <==> k in s.table && s.table[k].dial.needToDial
    {
      assert Carried(Before(s.table, k), s'.table[k]);
    }
  }

  lemma FillParksNothing(s: Control, slot: int, calls: seq<Listed>, env: Env)
    requires s.table == map[]
    ensures var s' := FillEmpty(s, slot, calls, env); NoNewDial(s, s') && Steady(s'.table)
  {
    InsertAllEffect(s.table, calls);
    var s' := FillEmpty(s, slot, calls, env);
    forall k | k in s'.table ensures !s'.table[k].dial.needToDial && !s'.table[k].flag {
      assert Carried(NEW_CONNECTION, s'.table[k]);
    }
  }

  lemma SnapshotParksNothing(s: Control, e: ImsEvent, env: Env)
    requires Steady(s.table) && e.Snapshot?
    ensures NoNewDial(s, Step(s, e, env)) && Steady(Step(s, e, env).table)
  {
    var calls := ImsListed(e.slot, e.list.calls);
    if e.isNeedQuery && (e.list.callSize <= 0 || s.table != map[]) {
      assert Step(s, e, env) == s.(log := Issue(s.log, QueryReason(e.slot), env));
    } else if e.list.callSize <= 0 {
      assert Step(s, e, env) == HangUpAllCalls(Ims, s, e.slot);
    } else if s.table == map[] {
      FillParksNothing(s, e.slot, calls, env);
    } else {
      UpdateParksNothing(s, e.slot, Promote(calls), env);
    }
  }

  lemma {:induction false} HangUpEachDialsNothing(t: Table, ks: seq<int>, log: Log, env: Env)
    requires forall i | 0 <= i < |ks| :: ks[i] in t
    ensures Continues(log, HangUpEach(Ims, t, ks, log, env).0, IsNoDial)
    decreases ks
  {
    if ks != [] {
      var log1 := Issue(log, HeldHangUp(Ims, t[ks[0]]), env);
      HangUpEachDialsNothing(t, ks[1..], log1, env);
      ContinuesTransitive(log, log1, HangUpEach(Ims, t, ks[1..], log1, env).0, IsNoDial);
    }
  }

  /** The same entries with the same parked dials, and nothing dialled. */
  ghost predicate KeepsDials(s: Control, s': Control) {
    && s'.table.Keys == s.table.Keys
    && (forall k | k in s.table :: SameParked(s.table[k].dial, s'.table[k].dial))
    && Continues(s.log, s'.log, IsNoDial)
  }

  predicate SameParked(d: DialState, d': DialState) {
    d'.needToDial == d.needToDial && d'.holdToDial == d.holdToDial
  }

  lemma SwitchKeepsDials(s: Control, k: int, slot: int, videoState: int, env: Env)
    requires k in s.table
    ensures KeepsDials(s, SwitchCall(s, k, slot, videoState, env).0)
  {}

  lemma TakeCallKeepsDials(s: Control, k: int, who: CallerInfo, env: Env)
    requires k in s.table
    ensures KeepsDials(s, TakeCall(s, k, who, env).0)
  {
    var con := FindByState(s.table, Active);
    if con.Some? { SwitchKeepsDials(s, con.value, who.slotId, who.videoState, env); }
  }

  lemma AnswerKeepsDials(s: Control, who: CallerInfo, env: Env)
    ensures KeepsDials(s, Answer(s, who, env).0)
  {
    var key := FindByIndex(s.table, who.index);
    if key.Some? {
      HangUpEachDialsNothing(s.table, SortedKeys(s.table.Keys * InStateKeys(s.table, Holding)), s.log, env);
      var s1 := s.(log := ClearHolding(Ims, s.table, s.log, env).0);
      assert Continues(s.log, s1.log, IsNoDial);
      TakeCallKeepsDials(s1, key.value, who, env);
      ContinuesTransitive(s.log, s1.log, TakeCall(s1, key.value, who, env).0.log, IsNoDial);
    }
  }

  lemma HangUpKeepsDials(s: Control, who: CallerInfo, kind: SupplementType, env: Env)
    ensures KeepsDials(s, HangUp(s, who, kind, env).0)
  {}

  lemma PostDialKeepsDials(s: Control, slot: int, id: int, env: Env)
    ensures KeepsDials(s, ExecutePostDial(s, slot, id, env))
  {
    var key := FindByIndex(s.table, id);
    if key.Some? {
      var c := s.table[key.value];
      PlayContinues(c.postDial, slot, c.index, env, s.log);
      ContinuesWeaken(s.log, Play(c.postDial, slot, c.index, env, s.log), IsPostDialEvent, IsNoDial);
    }
  }

  lemma ProceedKeepsDials(s: Control, who: CallerInfo, proceed: bool, env: Env)
    ensures KeepsDials(s, PostDialProceed(s, who, proceed, env).0)
  {
    var key := FindByIndex(s.table, who.index);
    if key.Some? { PostDialKeepsDials(s, who.slotId, s.table[key.value].index, env); }
  }

  lemma RejectKeepsDials(s: Control, who: CallerInfo, env: Env)
    ensures KeepsDials(s, Reject(s, who, env).0)
  {}

  lemma OthersKeepDials(s: Control, e: ImsEvent, env: Env)
    requires LeavesCalls(e) && !e.UserDial? && !e.Held?
    ensures KeepsDials(s, Step(s, e, env))
  {
    match e
    case UserHangUp(who, kind) => HangUpKeepsDials(s, who, kind, env);
    case UserAnswer(who) => AnswerKeepsDials(s, who, env);
    case UserReject(who) => RejectKeepsDials(s, who, env);
    case PostDialTimer(slot, id) => PostDialKeepsDials(s, slot, id, env);
    case UserProceed(who, proceed) => ProceedKeepsDials(s, who, proceed, env);
    case _ =>
  }

  /** Every operation but a user dial and a completed hold. */
  lemma OthersParkNothing(s: Control, e: ImsEvent, env: Env)
    requires Steady(s.table) && !e.UserDial? && !e.Held?
    ensures NoNewDial(s, Step(s, e, env))
  {
    if e.Snapshot? {
      SnapshotParksNothing(s, e, env);
    } else if e.Restore? {
      RestoreAdds(s.table, e.infos, e.slot);
    } else if LeavesCalls(e) {
      OthersKeepDials(s, e, env);
    }
  }

  // ----- the two steps that park or dial

  /** Entry `k` has to be held before a dial: the first active call that is not being hung up. */
  ghost predicate HoldsFirst(t: Table, k: int) {
    && k in t && t[k].report.state == Active && !t[k].dial.pendingHangup
    && forall j | j in t && t[j].report.state == Active && !t[j].dial.pendingHangup :: k <= j
  }

  lemma ToHoldIs(t: Table)
    ensures match ToHold(t)
            case None => forall k | k in t :: !(t[k].report.state == Active && !t[k].dial.pendingHangup)
            case Some(k) => HoldsFirst(t, k)
  {
    var hits := set k | k in t && t[k].report.state == Active && !t[k].dial.pendingHangup;
    forall k | k in t && t[k].report.state == Active && !t[k].dial.pendingHangup ensures k in hits {}
  }

  /** With an active call to hold, an accepted dial asks for one swap and is parked on that call, whatever becomes of
      the swap; success marks the call as about to be held. */
  ghost predicate DialIsParked(s: Control, s': Control, k: int, slot: int, info: DialInfo, result: Ret)
    requires k in s.table
  {
    && s'.log == s.log + [Request(Swap(slot, info.videoState), result)]
    && s'.table.Keys == s.table.Keys && (forall j | j in s.table && j != k :: s'.table[j] == s.table[j])
    && s'.table[k].dial.needToDial && s'.table[k].dial.holdToDial.phoneNum == info.phoneNum
    && s'.table[k].dial.holdToDial.clirMode == info.clirMode
    && s'.table[k].dial.holdToDial.videoState == info.videoState
    && s'.table[k].dial.holdToDial.emergency == info.emergency
    && s'.table[k].dial.pendingHangup == s.table[k].dial.pendingHangup
    && s'.table[k].report.isPendingHold == (s.table[k].report.isPendingHold || result == Success)
    && s'.table[k].(dial := s.table[k].dial, report := s.table[k].report) == s.table[k]
    && s'.table[k].report.(isPendingHold := s.table[k].report.isPendingHold) == s.table[k].report
  }

  /** What a user dial does: with more than six calls it is refused; with an active call that is not being hung up it is
      parked on the first such call, which is asked to swap out; else it is requested at once, as it is. */
  lemma DialCommands(s: Control, slot: int, info: DialInfo, env: Env)
    ensures Step(s, UserDial(slot, info), env) == DialJudgment(s, slot, info, env).0
    ensures var (s', ret) := DialJudgment(s, slot, info, env);
            var result := env.results(|s.log|);
            if |s.table| > 6 then s' == s && ret == CountsExceedLimit
            else
              && ret == result && s'.pending == info.phoneNum && s'.ignored == s.ignored && s'.silent == s.silent
              && (forall k | HoldsFirst(s.table, k) :: DialIsParked(s, s', k, slot, info, result))
              && ((forall k | k in s.table :: s.table[k].report.state != Active || s.table[k].dial.pendingHangup) ==>
                    s'.table == s.table && s'.log == s.log + [Request(DialCommand(slot, info), result)])
  {
    ToHoldIs(s.table);
    var (s', _) := DialJudgment(s, slot, info, env);
    if |s.table| <= 6 {
      forall k | HoldsFirst(s.table, k) ensures DialIsParked(s, s', k, slot, info, env.results(|s.log|)) {
        assert ToHold(s.table) == Some(k);
      }
    }
  }

  /** An accepted dial that takes the place of one parked before. */
  ghost predicate Overwrites(s: Control, e: ImsEvent) {
    Accepted(s, e) && exists k :: HoldsFirst(s.table, k) && s.table[k].dial.needToDial
  }

  lemma ParkedKeysAfterDial(s: Control, s': Control, k: int, slot: int, info: DialInfo, result: Ret)
    requires k in s.table && DialIsParked(s, s', k, slot, info, result)
    ensures ParkedKeys(s'.table) == ParkedKeys(s.table) + {k}
  {
    forall j ensures j in ParkedKeys(s'.table) <==> j in ParkedKeys(s.table) || j == k {
      assert j in s'.table <==> j in s.table;
    }
  }

  lemma SizeWith(a: set<int>, k: int)
    ensures |a + {k}| == |a| + if k in a then 0 else 1
  {
    if k in a { assert a + {k} == a; } else { assert a !! {k}; }
  }

  lemma ParkedOutstanding(s: Control, s': Control, k: int, slot: int, info: DialInfo, result: Ret)
    requires k in s.table && DialIsParked(s, s', k, slot, info, result)
    ensures Outstanding(s') + (if s.table[k].dial.needToDial then 1 else 0) == Outstanding(s) + 1
  {
    ParkedKeysAfterDial(s, s', k, slot, info, result);
    SizeWith(ParkedKeys(s.table), k);
    assert Continues(s.log, s'.log, IsNoDial);
    NoDialCounts(s.log, s'.log);
  }

  lemma OverwritesIff(s: Control, e: ImsEvent, k: int)
    requires Accepted(s, e) && HoldsFirst(s.table, k)
    ensures Overwrites(s, e) <==> s.table[k].dial.needToDial
  {}

  lemma DialOutstanding(s: Control, e: ImsEvent, env: Env)
    requires e.UserDial?
    ensures Outstanding(Step(s, e, env)) + (if Overwrites(s, e) then 1 else 0)
            == Outstanding(s) + if Accepted(s, e) then 1 else 0
  {
    DialCommands(s, e.slot, e.info, env);
    ToHoldIs(s.table);
    var key := ToHold(s.table);
    if Accepted(s, e) && key.Some? {
      ParkedOutstanding(s, Step(s, e, env), key.value, e.slot, e.info, env.results(|s.log|));
      OverwritesIff(s, e, key.value);
    } else if Accepted(s, e) {
      DialCounts(s.log, e.slot, e.info, env);
    }
  }

  /** A completed hold makes the first parked dial as it was parked, and unparks it. */
  lemma HeldDialsParked(s: Control, slot: int, env: Env)
    ensures var s' := DialAfterHold(s, slot, env);
            match FirstKey(ParkedKeys(s.table))
            case None => s' == s
            case Some(k) =>
              && s'.log == Issue(s.log, DialCommand(slot, s.table[k].dial.holdToDial), env)
              && ParkedKeys(s'.table) == ParkedKeys(s.table) - {k}
              && Outstanding(s') == Outstanding(s)
  {}

  /** The parked dials that an operation gives up: those on entries that go, and one that a new dial takes the place
      of. */
  ghost function GivenUp(s: Control, e: ImsEvent, env: Env): nat {
    |Dropped(s, Step(s, e, env))| + if Overwrites(s, e) then 1 else 0
  }

  lemma DialGivesUp(s: Control, e: ImsEvent, env: Env)
    requires e.UserDial?
    ensures Outstanding(Step(s, e, env)) + GivenUp(s, e, env) == Outstanding(s) + if Accepted(s, e) then 1 else 0
  {
    DialOutstanding(s, e, env);
    DialStep(s, e.slot, e.info, env);
    assert Dropped(s, Step(s, e, env)) == {};
  }

  lemma HeldGivesUpNothing(s: Control, e: ImsEvent, env: Env)
    requires e.Held?
    ensures Outstanding(Step(s, e, env)) == Outstanding(s) && GivenUp(s, e, env) == 0
  {
    HeldDialsParked(s, e.slot, env);
    HeldStep(s, e.slot, env);
    assert Dropped(s, Step(s, e, env)) == {};
  }

  lemma StepOutstanding(s: Control, e: ImsEvent, env: Env)
    requires Steady(s.table)
    ensures Outstanding(Step(s, e, env)) + GivenUp(s, e, env) == Outstanding(s) + if Accepted(s, e) then 1 else 0
  {
    if e.UserDial? {
      DialGivesUp(s, e, env);
    } else if e.Held? {
      HeldGivesUpNothing(s, e, env);
    } else {
      OthersParkNothing(s, e, env);
      NoNewDialOutstanding(s, Step(s, e, env));
    }
  }

  ghost function GivenUpIn(s: Control, run: Run): nat
    decreases run
  {
    if run == [] then 0
    else GivenUp(s, run[0].0, run[0].1) + GivenUpIn(Step(s, run[0].0, run[0].1), run[1..])
  }

  /** Over every run each accepted dial has been made, is still parked, or was given up, and nothing else was dialled or
      parked; so the dials made and parked are never more than those accepted. */
  lemma {:induction false} DialsConserved(s: Control, run: Run)
    requires Steady(s.table)
    ensures Outstanding(After(s, run)) + GivenUpIn(s, run) == Outstanding(s) + AcceptedDials(s, run)
    decreases run
  {
    if run != [] {
      StepOutstanding(s, run[0].0, run[0].1);
      StepSteady(s, run[0].0, run[0].1);
      DialsConserved(Step(s, run[0].0, run[0].1), run[1..]);
    }
  }

  // ----- what is parked is what was asked for

  /** The dial that an operation parks on entry `k`; RTT is dropped. */
  function ParkedBy(s: Control, e: ImsEvent, k: int): Option<DialInfo> {
    if Accepted(s, e) && ToHold(s.table) == Some(k) then Some(e.info.(isRtt := false)) else None
  }

  function LastParked(s: Control, run: Run, k: int): Option<DialInfo>
    decreases run
  {
    if run == [] then None
    else
      var later := LastParked(Step(s, run[0].0, run[0].1), run[1..], k);
      if later.Some? then later else ParkedBy(s, run[0].0, k)
  }

  lemma SnapshotKeepsParked(s: Control, e: ImsEvent, env: Env, k: int)
    requires Steady(s.table) && e.Snapshot? && k in s.table && k in Step(s, e, env).table
    ensures Step(s, e, env).table[k].dial == s.table[k].dial
  {
    if !e.isNeedQuery && e.list.callSize > 0 {
      var calls := Promote(ImsListed(e.slot, e.list.calls));
      assert Step(s, e, env) == Update(Ims, s, e.slot, calls, env);
      MarkAndSweepExact(Ims, s, e.slot, calls, env);
      assert Carried(Before(s.table, k), Step(s, e, env).table[k]);
    }
  }

  lemma DialParks(s: Control, e: ImsEvent, env: Env, k: int)
    requires e.UserDial? && k in s.table && !s.table[k].dial.holdToDial.isRtt
    ensures var s' := Step(s, e, env);
            k in s'.table && s'.table[k].dial.holdToDial
                             == if ParkedBy(s, e, k).Some? then ParkedBy(s, e, k).value else s.table[k].dial.holdToDial
  {}

  lemma HeldKeepsParked(s: Control, slot: int, env: Env, k: int)
    requires k in s.table
    ensures k in DialAfterHold(s, slot, env).table
    ensures DialAfterHold(s, slot, env).table[k].dial.holdToDial == s.table[k].dial.holdToDial
  {}

  lemma StepParked(s: Control, e: ImsEvent, env: Env, k: int)
    requires Steady(s.table) && k in s.table && k in Step(s, e, env).table
    requires !s.table[k].dial.holdToDial.isRtt
    ensures Step(s, e, env).table[k].dial.holdToDial
            == if ParkedBy(s, e, k).Some? then ParkedBy(s, e, k).value else s.table[k].dial.holdToDial
  {
    if e.Snapshot? {
      SnapshotKeepsParked(s, e, env, k);
    } else if e.Restore? {
      RestoreAdds(s.table, e.infos, e.slot);
    } else if e.UserDial? {
      DialParks(s, e, env, k);
    } else if e.Held? {
      HeldKeepsParked(s, e.slot, env, k);
    } else if LeavesCalls(e) {
      OthersKeepDials(s, e, env);
    }
  }

  /** Over any run that entry `k` survives, the dial it holds is the last one parked on it: number, CLIR mode, video
      state and emergency flag as asked for, and never as an RTT call. */
  lemma {:induction false} ParkedDialIsLast(s: Control, run: Run, k: int)
    requires Steady(s.table) && Alive(s, run, Step, k) && !s.table[k].dial.holdToDial.isRtt
    ensures k in After(s, run).table
    ensures After(s, run).table[k].dial.holdToDial
            == if LastParked(s, run, k).Some? then LastParked(s, run, k).value else s.table[k].dial.holdToDial
    decreases run
  {
    if run != [] {
      StepSteady(s, run[0].0, run[0].1);
      StepParked(s, run[0].0, run[0].1, k);
      ParkedDialIsLast(Step(s, run[0].0, run[0].1), run[1..], k);
    }
  }

  // ----- every dial made after a hold was asked for

  /** No entry holds an RTT dial. */
  ghost predicate NoRtt(t: Table) {
    forall k | k in t :: !t[k].dial.holdToDial.isRtt
  }

  /** What one operation does to the parked dials of the entries it leaves. */
  ghost predicate ParksAtMost(s: Control, s': Control, e: ImsEvent, k: int)
    requires k in s'.table
  {
    match ParkedBy(s, e, k)
    case Some(info) => s'.table[k].dial.needToDial ==> s'.table[k].dial.holdToDial == info
    case None =>
      s'.table[k].dial.needToDial ==>
        k in s.table && s.table[k].dial.needToDial && s'.table[k].dial.holdToDial == s.table[k].dial.holdToDial
  }

  lemma DialParksAtMost(s: Control, e: ImsEvent, env: Env, k: int)
    requires e.UserDial? && k in s.table && NoRtt(s.table)
    ensures k in Step(s, e, env).table && ParksAtMost(s, Step(s, e, env), e, k)
  {
    DialParks(s, e, env, k);
  }

  lemma StepParksAtMost(s: Control, e: ImsEvent, env: Env, k: int)
    requires Steady(s.table) && NoRtt(s.table) && k in Step(s, e, env).table
    ensures ParksAtMost(s, Step(s, e, env), e, k)
  {
    if e.UserDial? {
      UserOperationsStep(s, e, env);
      DialParksAtMost(s, e, env, k);
    } else if e.Held? {
      HeldDialsParked(s, e.slot, env);
      HeldStep(s, e.slot, env);
      StepParked(s, e, env, k);
      assert k in ParkedKeys(Step(s, e, env).table) ==> k in ParkedKeys(s.table);
    } else {
      OthersParkNothing(s, e, env);
      if k in s.table { StepParked(s, e, env, k); }
    }
  }

  lemma UpdateAddsNoDial(s: Control, slot: int, calls: seq<Listed>, env: Env, k: int)
    requires Steady(s.table) && k in Update(Ims, s, slot, calls, env).table && k !in s.table
    ensures Update(Ims, s, slot, calls, env).table[k].dial == NEW_CONNECTION.dial
  {
    MarkAndSweepExact(Ims, s, slot, calls, env);
    assert Carried(Before(s.table, k), Update(Ims, s, slot, calls, env).table[k]);
  }

  lemma FillAddsNoDial(t: Table, calls: seq<Listed>, k: int)
    requires t == map[] && k in InsertAll(t, calls)
    ensures InsertAll(t, calls)[k].dial == NEW_CONNECTION.dial
  {
    InsertAllEffect(t, calls);
    assert Carried(NEW_CONNECTION, InsertAll(t, calls)[k]);
  }

  lemma ListedHoldsNoDial(s: Control, e: ImsEvent, env: Env, k: int)
    requires Steady(s.table) && e.Snapshot? && k in Step(s, e, env).table && k !in s.table
    ensures Step(s, e, env).table[k].dial == NEW_CONNECTION.dial
  {
    var calls := ImsListed(e.slot, e.list.calls);
    if s.table == map[] {
      FillAddsNoDial(s.table, calls, k);
    } else {
      UpdateAddsNoDial(s, e.slot, Promote(calls), env, k);
    }
  }

  /** An entry that an operation adds holds no dial. */
  lemma AddedHoldsNoDial(s: Control, e: ImsEvent, env: Env, k: int)
    requires Steady(s.table) && k in Step(s, e, env).table && k !in s.table
    ensures Step(s, e, env).table[k].dial == NEW_CONNECTION.dial
  {
    if LeavesCalls(e) {
      StepSameCalls(s, e, env);
    } else if e.Restore? {
      RestoreAdds(s.table, e.infos, e.slot);
    } else if e.Snapshot? {
      ListedHoldsNoDial(s, e, env, k);
    }
  }

  lemma StepNoRtt(s: Control, e: ImsEvent, env: Env)
    requires Steady(s.table) && NoRtt(s.table)
    ensures NoRtt(Step(s, e, env).table)
  {
    var t := Step(s, e, env).table;
    forall k | k in t ensures !t[k].dial.holdToDial.isRtt {
      if k in s.table { StepParked(s, e, env, k); } else { AddedHoldsNoDial(s, e, env, k); }
    }
  }

  /** What is parked at the end of a run is what the run parked last under that key, or was parked from the start. */
  lemma {:induction false} ParkedInRun(s: Control, run: Run, k: int)
    requires Steady(s.table) && NoRtt(s.table)
    requires k in After(s, run).table && After(s, run).table[k].dial.needToDial
    ensures match LastParked(s, run, k)
            case Some(info) => After(s, run).table[k].dial.holdToDial == info
            case None => k in s.table && s.table[k].dial.needToDial
                         && After(s, run).table[k].dial.holdToDial == s.table[k].dial.holdToDial
    decreases run
  {
    if run != [] {
      var (e, env) := run[0];
      var s1 := Step(s, e, env);
      StepSteady(s, e, env);
      StepNoRtt(s, e, env);
      ParkedInRun(s1, run[1..], k);
      if LastParked(s1, run[1..], k).None? { StepParksAtMost(s, e, env, k); }
    }
  }

  /** From a control with nothing parked, a dial made after a hold, at any point of any run, is the one that the run
      parked last under the key it is taken from: no dial is made up, and none is made with other parameters. */
  lemma DeferredDialIsLastParked(s: Control, run: Run, slot: int, env: Env, k: int)
    requires Steady(s.table) && NoRtt(s.table) && ParkedKeys(s.table) == {}
    requires FirstKey(ParkedKeys(After(s, run).table)) == Some(k)
    ensures LastParked(s, run, k).Some?
    ensures Step(After(s, run), Held(slot), env).log
            == Issue(After(s, run).log, DialCommand(slot, LastParked(s, run, k).value), env)
  {
    ParkedInRun(s, run, k);
    assert k !in ParkedKeys(s.table);
    HeldDialsParked(After(s, run), slot, env);
  }
}
