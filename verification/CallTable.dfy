/** The call table of a control, the operations both kinds of control share, and the observer of their reports. */
module CallTable {
  import opened CallTypes
  import opened OrderedKeys
  import opened PostDial

  /** One entry of the table. Entries are stored by value; CS entries leave the IMS fields at their defaults. */
  datatype Connection = Connection(
    flag: bool, index: int, number: string, report: CallReport, postDial: PostDial,
    reason: Reason, message: string, dial: DialState)

  /** IMS only: a dial parked until the call is held, and whether the user is hanging the call up. */
  datatype DialState = DialState(needToDial: bool, holdToDial: DialInfo, pendingHangup: bool)

  const NEW_CONNECTION: Connection :=
    Connection(false, 1, "", ZERO_REPORT, UNARMED, Invalid, "", DialState(false, NO_DIAL, false))

  type Table = map<int, Connection>

  datatype Kind = Cs | Ims

  /** A control: its table and flags, and everything it has sent out. A CS control is never `silent`. */
  datatype Control = Control(table: Table, pending: string, ignored: bool, silent: bool, log: Log)

  const EMPTY_CONTROL: Control := Control(map[], "", false, false, [])

  /** A listed call after encapsulation: its own index and number, and the report built from it. */
  datatype Listed = Listed(index: int, number: string, report: CallReport)

  // ----- searches

  function FindByIndex(t: Table, index: int): Option<int> {
    FirstKey(set k | k in t && t[k].index == index)
  }

  function FindByState(t: Table, state: TelCallState): Option<int> {
    FirstKey(set k | k in t && t[k].report.state == state)
  }

  predicate IsInState(t: Table, state: TelCallState) {
    exists k :: k in t && t[k].report.state == state
  }

  predicate IsRinging(state: TelCallState) {
    state == Incoming || state == Waiting || state == Alerting
  }

  /** An outgoing call has left its set-up phase. */
  predicate IsConnectedOut(pre: TelCallState, cur: TelCallState) {
    (pre == Dialing || pre == Alerting) && !(cur == Dialing || cur == Alerting)
  }

  // ----- listed calls

  function Indices(calls: seq<Listed>): (s: set<int>) {
    set i | 0 <= i < |calls| :: calls[i].index
  }

  function Reports(calls: seq<Listed>): seq<CallReport> {
    seq(|calls|, i requires 0 <= i < |calls| => calls[i].report)
  }

  /** A single listed call that is waiting is taken as incoming. */
  function Promote(calls: seq<Listed>): seq<Listed> {
    if |calls| == 1 && calls[0].report.state == Waiting
    then [calls[0].(report := calls[0].report.(state := Incoming))]
    else calls
  }

  // ----- operations

  function ExecutePostDial(s: Control, slot: int, id: int, env: Env): Control {
    match FindByIndex(s.table, id)
    case None => s
    case Some(k) =>
      var c := s.table[k];
      s.(table := s.table[k := c.(postDial := Advance(c.postDial))],
         log := Play(c.postDial, slot, c.index, env, s.log))
  }

  function InsertOne(t: Table, call: Listed): Table {
    if call.index in t then t
    else t[call.index := NEW_CONNECTION.(index := call.index, number := call.number, report := call.report)]
  }

  /** Filling an empty table: of two calls with one index the first is kept. */
  function InsertAll(t: Table, calls: seq<Listed>): Table
    decreases calls
  {
    if calls == [] then t else InsertAll(InsertOne(t, calls[0]), calls[1..])
  }

  /** One more call of a list is entered, and reported. */
  lemma InsertNext(t: Table, calls: seq<Listed>, i: nat)
    requires i < |calls|
    ensures InsertAll(t, calls[i..]) == InsertAll(InsertOne(t, calls[i]), calls[i + 1..])
    ensures Reports(calls[..i + 1]) == Reports(calls[..i]) + [calls[i].report]
  {
    assert calls[i..][1..] == calls[i + 1..];
  }

  function FillEmpty(s: Control, slot: int, calls: seq<Listed>, env: Env): Control {
    var t := InsertAll(s.table, calls);
    if !env.registered && calls != [] && calls[0].report.state == TelCallState.Incoming
    then s.(table := t, ignored := true)
    else s.(table := t, log := s.log + [CallsReport(slot, Reports(calls))])
  }

  /** Marking one listed call: a new entry, or an update that may start post-dial. */
  function MarkOne(s: Control, slot: int, call: Listed, env: Env): Control {
    match FindByIndex(s.table, call.index)
    case None =>
      if call.index in s.table then s
      else
        s.(table := s.table[call.index := NEW_CONNECTION.(
             flag := true, index := call.index, number := call.number, report := call.report)])
    case Some(k) =>
      var was := s.table[k];
      var c := was.(flag := true, index := call.index, number := call.number, report := call.report);
      if IsConnectedOut(was.report.state, call.report.state) then
        ExecutePostDial(
          s.(table := s.table[k := c.(postDial := Arm(c.postDial, s.pending))], pending := ""),
          slot, call.index, env)
      else s.(table := s.table[k := c])
  }

  function MarkAll(s: Control, slot: int, calls: seq<Listed>, env: Env): Control
    decreases calls
  {
    if calls == [] then s else MarkAll(MarkOne(s, slot, calls[0], env), slot, calls[1..], env)
  }

  /** One more call of a list is marked, and reported. */
  lemma MarkNext(s: Control, slot: int, calls: seq<Listed>, i: nat, env: Env)
    requires i < |calls|
    ensures MarkAll(s, slot, calls[i..], env) == MarkAll(MarkOne(s, slot, calls[i], env), slot, calls[i + 1..], env)
    ensures Reports(calls[..i + 1]) == Reports(calls[..i]) + [calls[i].report]
  {
    assert calls[i..][1..] == calls[i + 1..];
  }

  function Unmarked(t: Table): set<int> {
    set k | k in t && !t[k].flag
  }

  function Swept(t: Table): Table {
    map k | k in t && t[k].flag :: t[k].(flag := false)
  }

  /** The table while a sweep has yet to visit the keys `rest`. */
  function PartlySwept(t: Table, rest: set<int>): Table {
    map k | k in t && (k in rest || t[k].flag) :: if k in rest then t[k] else t[k].(flag := false)
  }

  lemma PartlySweptStep(t: Table, rest: set<int>)
    requires {} != rest <= t.Keys
    ensures var k := MinKey(rest);
            PartlySwept(t, rest - {k})
            == if t[k].flag then PartlySwept(t, rest)[k := t[k].(flag := false)] else PartlySwept(t, rest) - {k}
  {}

  function DisconnectReport(kind: Kind, c: Connection): CallReport {
    var r := c.report.(state := Disconnected, reason := c.reason);
    if kind == Ims then r.(message := c.message) else r
  }

  /** One disconnect report per key, in the order of `ks`. */
  function Disconnections(kind: Kind, t: Table, ks: seq<int>): seq<CallReport>
    requires forall i | 0 <= i < |ks| :: ks[i] in t
  {
    seq(|ks|, i requires 0 <= i < |ks| => DisconnectReport(kind, t[ks[i]]))
  }

  lemma DisconnectionsCons(kind: Kind, t: Table, k: int, ks: seq<int>)
    requires k in t && forall i | 0 <= i < |ks| :: ks[i] in t
    ensures Disconnections(kind, t, [k] + ks) == [DisconnectReport(kind, t[k])] + Disconnections(kind, t, ks)
  {}

  /** The disconnect reports of the unmarked entries among `ks`, in key order. */
  function GoneReports(kind: Kind, t: Table, ks: set<int>): seq<CallReport> {
    Disconnections(kind, t, SortedKeys(ks * Unmarked(t)))
  }

  lemma GoneReportsStep(kind: Kind, t: Table, ks: set<int>)
    requires {} != ks <= t.Keys
    ensures var k := MinKey(ks);
            GoneReports(kind, t, ks)
            == (if t[k].flag then [] else [DisconnectReport(kind, t[k])]) + GoneReports(kind, t, ks - {k})
  {
    var k := MinKey(ks);
    SortedStep(ks, Unmarked(t));
    var later := SortedKeys((ks - {k}) * Unmarked(t));
    if t[k].flag {
      assert k !in Unmarked(t);
      assert [] + later == later;
    } else {
      DisconnectionsCons(kind, t, k, later);
    }
  }

  /** One step of the sweep: an unmarked entry is reported and dropped, a marked one is unmarked. */
  lemma SweepStep(kind: Kind, t: Table, rest: set<int>, sent: seq<CallReport>, goal: seq<CallReport>)
    requires {} != rest <= t.Keys && sent + GoneReports(kind, t, rest) == goal
    ensures var k := MinKey(rest);
            var now := PartlySwept(t, rest);
            && k in now && now[k] == t[k]
            && PartlySwept(t, rest - {k}) == (if t[k].flag then now[k := t[k].(flag := false)] else now - {k})
            && (if t[k].flag then sent else sent + [DisconnectReport(kind, t[k])]) + GoneReports(kind, t, rest - {k})
               == goal
  {
    var k := MinKey(rest);
    PartlySweptStep(t, rest);
    GoneReportsStep(kind, t, rest);
    var later := GoneReports(kind, t, rest - {k});
    assert [] + later == later;
    assert sent + ([DisconnectReport(kind, t[k])] + later) == sent + [DisconnectReport(kind, t[k])] + later;
  }

  lemma SweepEnds(kind: Kind, t: Table, sent: seq<CallReport>)
    ensures PartlySwept(t, t.Keys) == t && PartlySwept(t, {}) == Swept(t)
    ensures sent + GoneReports(kind, t, {}) == sent
  {}

  /** Reconciling a non-empty table with a list: mark, sweep, report. */
  function Update(kind: Kind, s: Control, slot: int, calls: seq<Listed>, env: Env): Control {
    var m := MarkAll(s, slot, calls, env);
    var swept := m.(table := Swept(m.table));
    var gone := GoneReports(kind, m.table, m.table.Keys);
    if !m.ignored then swept.(log := m.log + [CallsReport(slot, Reports(calls) + gone)])
    else if kind == Ims then swept.(ignored := false)
    else swept
  }

  function InSlot(slot: int, rs: seq<CallReport>): seq<CallReport> {
    seq(|rs|, i requires 0 <= i < |rs| => rs[i].(accountId := slot))
  }

  /** The disconnect reports of the entries `ks` when all calls have ended, in key order. */
  function HangUpReports(kind: Kind, t: Table, slot: int, ks: set<int>): seq<CallReport>
    requires ks <= t.Keys
  {
    InSlot(slot, Disconnections(kind, t, SortedKeys(ks)))
  }

  lemma InSlotCons(slot: int, r: CallReport, rs: seq<CallReport>)
    ensures InSlot(slot, [r] + rs) == [r.(accountId := slot)] + InSlot(slot, rs)
  {
    forall i | 0 <= i <= |rs|
      ensures InSlot(slot, [r] + rs)[i] == ([r.(accountId := slot)] + InSlot(slot, rs))[i]
    {
      if i > 0 { assert ([r] + rs)[i] == rs[i - 1]; }
    }
  }

  lemma HangUpReportsStep(kind: Kind, t: Table, slot: int, ks: set<int>)
    requires {} != ks <= t.Keys
    ensures var k := MinKey(ks);
            HangUpReports(kind, t, slot, ks)
            == [DisconnectReport(kind, t[k]).(accountId := slot)] + HangUpReports(kind, t, slot, ks - {k})
  {
    var k := MinKey(ks);
    var rest := SortedKeys(ks - {k});
    DisconnectionsCons(kind, t, k, rest);
    InSlotCons(slot, DisconnectReport(kind, t[k]), Disconnections(kind, t, rest));
  }

  lemma HangUpSent(kind: Kind, t: Table, slot: int, rest: set<int>, sent: seq<CallReport>, goal: seq<CallReport>)
    requires {} != rest <= t.Keys && sent + HangUpReports(kind, t, slot, rest) == goal
    ensures var k := MinKey(rest);
            sent + [DisconnectReport(kind, t[k]).(accountId := slot)] + HangUpReports(kind, t, slot, rest - {k}) == goal
  {
    HangUpReportsStep(kind, t, slot, rest);
  }

  /** The vector that ends all calls; an empty table is reported as one unnamed call. */
  function HangUpVector(kind: Kind, t: Table, slot: int): seq<CallReport> {
    if t == map[] then [ZERO_REPORT.(state := Disconnected, accountId := slot)]
    else HangUpReports(kind, t, slot, t.Keys)
  }

  /** All calls ended: report every entry as disconnected, unless suppressed, and clear the table. */
  function HangUpAllCalls(kind: Kind, s: Control, slot: int): Control {
    var cleared := s.(table := map[], ignored := false, silent := false);
    if s.ignored || s.silent then cleared
    else cleared.(log := s.log + [CallsReport(slot, HangUpVector(kind, s.table, slot))])
  }

  // ----- after a restart of the service

  /** The call belongs to this kind of control and to the slot. */
  predicate IsOf(kind: Kind, info: CallerInfo, slot: int) {
    info.callType == (if kind == Cs then TypeCs else TypeIms) && info.slotId == slot
  }

  /** The report that a call known to the call manager is gone. */
  function LostReport(kind: Kind, info: CallerInfo): CallReport {
    ZERO_REPORT.(index := info.index, accountId := info.slotId, state := Disconnected,
                 details := ZERO_DETAILS.(accountNum := info.phoneNum, callType := info.callType,
                                          callMode := if kind == Cs then Voice else Video))
  }

  function LostReports(kind: Kind, infos: seq<CallerInfo>, slot: int): seq<CallReport>
    decreases infos
  {
    if infos == [] then []
    else (if IsOf(kind, infos[0], slot) then [LostReport(kind, infos[0])] else []) + LostReports(kind, infos[1..], slot)
  }

  /** The calls that the call manager knows are reported as gone; a CS control also clears its table. */
  function ReportHangUp(kind: Kind, s: Control, infos: seq<CallerInfo>, slot: int): Control {
    var told := s.(log := s.log + [CallsReport(slot, LostReports(kind, infos, slot))]);
    if kind == Cs then told.(table := map[]) else told
  }

  // ----- disconnect reasons

  /** The entry has no disconnect reason and its call is not listed any more. */
  predicate EndedWithoutReason(c: Connection, listed: set<int>) {
    c.reason == Invalid && c.index !in listed
  }

  predicate HasEndCallWithoutReason(t: Table, listed: set<int>) {
    exists k :: k in t && EndedWithoutReason(t[k], listed)
  }

  /** Writing a disconnect reason; only IMS entries also hold a message. */
  function WithReason(kind: Kind, c: Connection, reason: Reason, message: string): Connection {
    if kind == Ims then c.(reason := reason, message := message) else c.(reason := reason)
  }

  function UpdateDisconnectedReason(kind: Kind, t: Table, listed: set<int>, reason: Reason, message: string): Table {
    map k | k in t :: if EndedWithoutReason(t[k], listed) then WithReason(kind, t[k], reason, message) else t[k]
  }

  /** The table while the walk that writes reasons has yet to visit the keys `rest`. */
  function PartlyExplained(
      kind: Kind, t: Table, listed: set<int>, reason: Reason, message: string, rest: set<int>): Table {
    map k | k in t ::
      if k !in rest && EndedWithoutReason(t[k], listed) then WithReason(kind, t[k], reason, message) else t[k]
  }

  lemma PartlyExplainedStep(kind: Kind, t: Table, listed: set<int>, reason: Reason, message: string, rest: set<int>)
    requires {} != rest <= t.Keys
    ensures var k := MinKey(rest);
            var now := PartlyExplained(kind, t, listed, reason, message, rest);
            && k in now && now[k] == t[k]
            && PartlyExplained(kind, t, listed, reason, message, rest - {k})
               == if EndedWithoutReason(t[k], listed) then now[k := WithReason(kind, t[k], reason, message)] else now
  {}

  lemma PartlyExplainedEnds(kind: Kind, t: Table, listed: set<int>, reason: Reason, message: string)
    ensures PartlyExplained(kind, t, listed, reason, message, t.Keys) == t
    ensures PartlyExplained(kind, t, listed, reason, message, {})
            == UpdateDisconnectedReason(kind, t, listed, reason, message)
  {}

  function UpdateCallDisconnectReason(kind: Kind, t: Table, id: int, reason: Reason, message: string): Table {
    match FindByIndex(t, id)
    case None => t
    case Some(k) => t[k := WithReason(kind, t[k], reason, message)]
  }

  function SetAllReasons(kind: Kind, t: Table, reason: Reason, message: string): Table {
    map k | k in t :: WithReason(kind, t[k], reason, message)
  }

  // ----- making room for an answer

  /** The request that hangs up a held call. */
  function HeldHangUp(kind: Kind, c: Connection): Command {
    if kind == Cs then HangUpCommand(c.report.accountId, "", c.index)
    else HangUpCommand(c.report.accountId, c.report.details.accountNum, c.report.index)
  }

  /** Hangs up the calls `ks` in turn, stopping at the first failure. */
  function HangUpEach(kind: Kind, t: Table, ks: seq<int>, log: Log, env: Env): (Log, Ret)
    requires forall i | 0 <= i < |ks| :: ks[i] in t
  {
    if ks == [] then (log, Success) else
      var log1 := Issue(log, HeldHangUp(kind, t[ks[0]]), env);
      if env.results(|log|) != Success then (log1, env.results(|log|)) else HangUpEach(kind, t, ks[1..], log1, env)
  }

  function InStateKeys(t: Table, state: TelCallState): set<int> {
    set k | k in t && t[k].report.state == state
  }

  /** Hangs up the held calls among `ks`, in key order. */
  function HangUpHolding(kind: Kind, t: Table, ks: set<int>, log: Log, env: Env): (Log, Ret) {
    HangUpEach(kind, t, SortedKeys(ks * InStateKeys(t, Holding)), log, env)
  }

  lemma HangUpHoldingStep(kind: Kind, t: Table, ks: set<int>, log: Log, env: Env)
    requires {} != ks <= t.Keys
    ensures var k := MinKey(ks);
            var log1 := Issue(log, HeldHangUp(kind, t[k]), env);
            HangUpHolding(kind, t, ks, log, env)
            == if t[k].report.state != Holding then HangUpHolding(kind, t, ks - {k}, log, env)
               else if env.results(|log|) != Success then (log1, env.results(|log|))
               else HangUpHolding(kind, t, ks - {k}, log1, env)
  {
    var k := MinKey(ks);
    SortedStep(ks, InStateKeys(t, Holding));
    var later := SortedKeys((ks - {k}) * InStateKeys(t, Holding));
    if t[k].report.state == Holding {
      assert ([k] + later)[1..] == later;
    } else {
      assert [] + later == later;
    }
  }

  /** Making room for an answer: with a held and an active call, the held calls are hung up. */
  function ClearHolding(kind: Kind, t: Table, log: Log, env: Env): (Log, Ret) {
    if IsInState(t, Holding) && IsInState(t, Active) then HangUpHolding(kind, t, t.Keys, log, env) else (log, Success)
  }

  function PostDialProceed(s: Control, who: CallerInfo, proceed: bool, env: Env): (Control, Ret) {
    match FindByIndex(s.table, who.index)
    case None => (s, LocalPtrNull)
    case Some(k) =>
      var c := s.table[k];
      if proceed then (ExecutePostDial(s, who.slotId, c.index, env), Success)
      else (s.(table := s.table[k := c.(postDial := c.postDial.(state := Canceled))]), Success)
  }
}
