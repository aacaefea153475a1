/** What each operation of an IMS control does to its state. */
module ImsSpec {
  import opened CallTypes
  import opened OrderedKeys
  import opened CallTable
  import opened ControlBase
  import opened Encapsulation

  function ListedIndices(list: ImsCallList): set<int> {
    set call | call in list.calls :: call.index
  }

  function ReportImsCallsData(s: Control, slot: int, list: ImsCallList, isNeedQuery: bool, env: Env): Control {
    var calls := ImsListed(slot, list.calls);
    if list.callSize <= 0 then
      if isNeedQuery then s.(log := Issue(s.log, QueryReason(slot), env)) else HangUpAllCalls(Ims, s, slot)
    else if s.table == map[] then FillEmpty(s, slot, calls, env)
    else if isNeedQuery then s.(log := Issue(s.log, QueryReason(slot), env))
    else Update(Ims, s, slot, Promote(calls), env)
  }

  function DisconnectReasonResponse(s: Control, list: ImsCallList, reason: Reason, message: string): Control {
    s.(table := UpdateDisconnectedReason(Ims, s.table, ListedIndices(list), reason, message))
  }

  function HangUp(s: Control, who: CallerInfo, kind: SupplementType, env: Env): (Control, Ret) {
    match kind
    case TypeDefault => (
      match FindByIndex(s.table, who.index)
      case None => (s, ConnectionNotExist)
      case Some(k) =>
        var c := s.table[k];
        var log := s.log + [SingleReport(c.report.(state := Disconnecting))];
        (s.(table := s.table[k := WithReason(Ims, c, UserTerminated, "").(dial := c.dial.(pendingHangup := true))],
            log := Issue(log, HangUpCommand(who.slotId, who.phoneNum, who.index), env)), env.results(|log|)))
    case HangUpAll =>
      (s.(table := SetAllReasons(Ims, s.table, UserTerminated, ""),
          log := Issue(s.log, RejectCommand(who.slotId, who.phoneNum, who.index), env)), env.results(|s.log|))
    case OtherType => (s, ArgumentInvalid)
    case _ =>
      (s.(table := UpdateCallDisconnectReason(Ims, s.table, who.callId, UserTerminated, ""),
          log := Issue(s.log, Supplement(who.slotId, kind), env)), env.results(|s.log|))
  }

  function WithPendingHold(c: Connection, pending: bool): Connection {
    c.(report := c.report.(isPendingHold := pending))
  }

  /** A swap asked on entry `k`; success marks the entry as about to be held. */
  function SwitchCall(s: Control, k: int, slot: int, videoState: int, env: Env): (Control, Ret)
    requires k in s.table
  {
    var ret := env.results(|s.log|);
    var log := Issue(s.log, Swap(slot, videoState), env);
    if ret == Success then (s.(table := s.table[k := WithPendingHold(s.table[k], true)], log := log), ret)
    else (s.(log := log), ret)
  }

  /** Taking call `k` once there is room: a waiting call first asks the active one to swap out, unless that one is
      about to be held already. */
  function TakeCall(s: Control, k: int, who: CallerInfo, env: Env): (Control, Ret)
    requires k in s.table
  {
    var con := FindByState(s.table, Active);
    var state := s.table[k].report.state;
    if con.Some? && !s.table[con.value].report.isPendingHold && state == Waiting
    then SwitchCall(s, con.value, who.slotId, who.videoState, env)
    else if IsRinging(state) then
      (s.(log := Issue(s.log, AnswerCommand(who.slotId, who.phoneNum, who.videoState, who.index, who.isRtt), env)),
       env.results(|s.log|))
    else (s, CallStateError)
  }

  function Answer(s: Control, who: CallerInfo, env: Env): (Control, Ret) {
    match FindByIndex(s.table, who.index)
    case None => (s, ConnectionNotExist)
    case Some(k) =>
      var (log, ret) := ClearHolding(Ims, s.table, s.log, env);
      if ret != Success then (s.(log := log), ret) else TakeCall(s.(log := log), k, who, env)
  }

  function Reject(s: Control, who: CallerInfo, env: Env): (Control, Ret) {
    match FindByIndex(s.table, who.index)
    case None => (s, ConnectionNotExist)
    case Some(k) =>
      var c := s.table[k];
      if !IsRinging(c.report.state) then (s, CallStateError) else
        var log := s.log + [SingleReport(c.report.(state := Disconnecting))];
        (s.(table := s.table[k := c.(reason := UserDecline)],
            log := Issue(log, RejectCommand(who.slotId, who.phoneNum, who.index), env)), env.results(|log|))
  }

  /** The call that has to be held before a new one is dialled. */
  function ToHold(t: Table): Option<int> {
    FirstKey(set k | k in t && t[k].report.state == Active && !t[k].dial.pendingHangup)
  }

  /** Parking a dial on an entry; whether it is an RTT call is not recorded. */
  function Park(c: Connection, phone: string, clir: ClirMode, videoState: int, emergency: bool): Connection {
    c.(dial := c.dial.(needToDial := true, holdToDial := c.dial.holdToDial.(
      phoneNum := phone, clirMode := clir, videoState := videoState, emergency := emergency)))
  }

  /** Dialling, once the number is known not to be a service code: with a call to hold, the dial is parked on it. */
  function DialJudgment(s: Control, slot: int, info: DialInfo, env: Env): (Control, Ret) {
    if !CanCall(s.table) then (s, CountsExceedLimit)
    else
      var s1 := s.(pending := info.phoneNum);
      match ToHold(s.table)
      case Some(k) =>
        var c := Park(s.table[k], info.phoneNum, info.clirMode, info.videoState, info.emergency);
        SwitchCall(s1.(table := s.table[k := c]), k, slot, info.videoState, env)
      case None => (s1.(log := Issue(s.log, DialCommand(slot, info), env)), env.results(|s.log|))
  }

  function ParkedKeys(t: Table): set<int> {
    set k | k in t && t[k].dial.needToDial
  }

  /** The swap has succeeded: the first parked dial is made. */
  function DialAfterHold(s: Control, slot: int, env: Env): Control {
    match FirstKey(ParkedKeys(s.table))
    case None => s
    case Some(k) =>
      var c := s.table[k];
      s.(table := s.table[k := c.(dial := c.dial.(needToDial := false))],
         log := Issue(s.log, DialCommand(slot, c.dial.holdToDial), env))
  }

  function RecoverPendingHold(s: Control): Control {
    match FirstKey(set k | k in s.table && s.table[k].report.isPendingHold)
    case None => s
    case Some(k) => s.(table := s.table[k := WithPendingHold(s.table[k], false)])
  }

  /** After a restart of the service: entries for the calls that the call manager knows, so that they can be hung up;
      the service then releases them at once, but a call list may arrive in between. */
  function RestoreConnection(t: Table, infos: seq<CallerInfo>, slot: int): Table
    decreases infos
  {
    if infos == [] then t
    else
      var info := infos[0];
      RestoreConnection(
        if info.callType == TypeIms && info.slotId == slot && info.index !in t
        then t[info.index := NEW_CONNECTION.(index := info.index, number := info.phoneNum)] else t,
        infos[1..], slot)
  }

  /** The operations that may reach an IMS control, in any order. */
  datatype ImsEvent =
    | Snapshot(slot: int, list: ImsCallList, isNeedQuery: bool)
    | NetworkReason(reasonList: ImsCallList, reason: Reason, message: string)
    | UserHangUp(who: CallerInfo, kind: SupplementType)
    | UserAnswer(who: CallerInfo)
    | UserReject(who: CallerInfo)
    | UserDial(slot: int, info: DialInfo)
    | Held(slot: int)
    | SwapAnswered
    | PostDialTimer(slot: int, id: int)
    | UserProceed(who: CallerInfo, proceed: bool)
    | Restarted(infos: seq<CallerInfo>, slot: int)
    | Restore(infos: seq<CallerInfo>, slot: int)
    | Release
    | SilentCsRedial(silent: bool)

  function Step(s: Control, e: ImsEvent, env: Env): Control {
    match e
    case Snapshot(slot, list, isNeedQuery) => ReportImsCallsData(s, slot, list, isNeedQuery, env)
    case NetworkReason(list, reason, message) => DisconnectReasonResponse(s, list, reason, message)
    case UserHangUp(who, kind) => HangUp(s, who, kind, env).0
    case UserAnswer(who) => Answer(s, who, env).0
    case UserReject(who) => Reject(s, who, env).0
    case UserDial(slot, info) => DialJudgment(s, slot, info, env).0
    case Held(slot) => DialAfterHold(s, slot, env)
    case SwapAnswered => RecoverPendingHold(s)
    case PostDialTimer(slot, id) => ExecutePostDial(s, slot, id, env)
    case UserProceed(who, proceed) => PostDialProceed(s, who, proceed, env).0
    case Restarted(infos, slot) => ReportHangUp(Ims, s, infos, slot)
    case Restore(infos, slot) => s.(table := RestoreConnection(s.table, infos, slot))
    case Release => s.(table := map[])
    case SilentCsRedial(silent) => s.(silent := silent)
  }

  /** A run: each operation with its surroundings. */
  type Run = seq<(ImsEvent, Env)>

  function After(s: Control, run: Run): Control
    decreases run
  {
    if run == [] then s else After(Step(s, run[0].0, run[0].1), run[1..])
  }
}
