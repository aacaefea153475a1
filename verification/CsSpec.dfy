/** What each operation of a CS control does to its state. */
module CsSpec {
  import opened CallTypes
  import opened CallTable
  import opened ControlBase
  import opened Encapsulation

  function ListedIndices(list: CallInfoList): set<int> {
    set call | call in list.calls :: call.index
  }

  function ReportCsCallsData(s: Control, slot: int, list: CallInfoList, isNeedQuery: bool, env: Env): Control {
    var calls := CsListed(slot, list.calls);
    var query := isNeedQuery && HasEndCallWithoutReason(s.table, ListedIndices(list));
    if list.callSize <= 0 then
      if query then s.(log := Issue(s.log, QueryReason(slot), env)) else HangUpAllCalls(Cs, s, slot)
    else if s.table == map[] then FillEmpty(s, slot, calls, env)
    else if query then s.(log := Issue(s.log, QueryReason(slot), env))
    else Update(Cs, s, slot, Promote(calls), env)
  }

  function DisconnectReasonResponse(s: Control, list: CallInfoList, reason: Reason): Control {
    s.(table := UpdateDisconnectedReason(Cs, s.table, ListedIndices(list), reason, ""))
  }

  function HangUp(s: Control, who: CallerInfo, kind: SupplementType, env: Env): (Control, Ret) {
    match kind
    case TypeDefault => (
      match FindByIndex(s.table, who.index)
      case None => (s, ConnectionNotExist)
      case Some(k) =>
        var c := s.table[k];
        var log := s.log + [SingleReport(c.report.(state := Disconnecting))];
        (s.(table := s.table[k := c.(reason := UserTerminated)],
            log := Issue(log, HangUpCommand(who.slotId, "", c.index), env)), env.results(|log|)))
    case HangUpAll =>
      (s.(table := SetAllReasons(Cs, s.table, UserTerminated, ""),
          log := Issue(s.log, RejectCommand(who.slotId, "", 0), env)), env.results(|s.log|))
    case OtherType => (s, ArgumentInvalid)
    case _ =>
      (s.(table := UpdateCallDisconnectReason(Cs, s.table, who.callId, UserTerminated, ""),
          log := Issue(s.log, Supplement(who.slotId, kind), env)), env.results(|s.log|))
  }

  function Answer(s: Control, who: CallerInfo, env: Env): (Control, Ret) {
    match FindByIndex(s.table, who.index)
    case None => (s, ConnectionNotExist)
    case Some(k) =>
      var (log, ret) := ClearHolding(Cs, s.table, s.log, env);
      if ret != Success then (s.(log := log), ret) else
        var log1 := if IsInState(s.table, Active) then Issue(log, Swap(who.slotId, 0), env) else log;
        if IsRinging(s.table[k].report.state)
        then (s.(log := Issue(log1, AnswerCommand(who.slotId, "", 0, 0, false), env)), env.results(|log1|))
        else (s.(log := log1), CallStateError)
  }

  function Reject(s: Control, who: CallerInfo, env: Env): (Control, Ret) {
    match FindByIndex(s.table, who.index)
    case None => (s, ConnectionNotExist)
    case Some(k) =>
      var c := s.table[k];
      if !IsRinging(c.report.state) then (s, CallStateError) else
        var log := s.log + [SingleReport(c.report.(state := Disconnecting))];
        (s.(table := s.table[k := c.(reason := UserDecline)],
            log := Issue(log, RejectCommand(who.slotId, "", 0), env)), env.results(|log|))
  }

  /** Dialling, once the number is known not to be a service code. */
  function Dial(s: Control, slot: int, phone: string, clir: ClirMode, cdma: bool, env: Env): (Control, Ret) {
    if !CanCall(s.table) then (s, CountsExceedLimit)
    else if IsInState(s.table, Active) && cdma then (s, Success)
    else
      var log := if IsInState(s.table, Active) then Issue(s.log, Swap(slot, 0), env) else s.log;
      (s.(pending := phone, log := Issue(log, DialCommand(slot, DialInfo(phone, clir, 0, false, false)), env)),
       env.results(|log|))
  }

  /** The operations that may reach a CS control, in any order. */
  datatype CsEvent =
    | Snapshot(slot: int, list: CallInfoList, isNeedQuery: bool)
    | NetworkReason(reasonList: CallInfoList, reason: Reason)
    | UserHangUp(who: CallerInfo, kind: SupplementType)
    | UserAnswer(who: CallerInfo)
    | UserReject(who: CallerInfo)
    | UserDial(slot: int, phone: string, clir: ClirMode, cdma: bool)
    | PostDialTimer(slot: int, id: int)
    | UserProceed(who: CallerInfo, proceed: bool)
    | Restarted(infos: seq<CallerInfo>, slot: int)
    | Release

  function Step(s: Control, e: CsEvent, env: Env): Control {
    match e
    case Snapshot(slot, list, isNeedQuery) => ReportCsCallsData(s, slot, list, isNeedQuery, env)
    case NetworkReason(list, reason) => DisconnectReasonResponse(s, list, reason)
    case UserHangUp(who, kind) => HangUp(s, who, kind, env).0
    case UserAnswer(who) => Answer(s, who, env).0
    case UserReject(who) => Reject(s, who, env).0
    case UserDial(slot, phone, clir, cdma) => Dial(s, slot, phone, clir, cdma, env).0
    case PostDialTimer(slot, id) => ExecutePostDial(s, slot, id, env)
    case UserProceed(who, proceed) => PostDialProceed(s, who, proceed, env).0
    case Restarted(infos, slot) => ReportHangUp(Cs, s, infos, slot)
    case Release => s.(table := map[])
  }

  /** A run: each operation with its surroundings. */
  type Run = seq<(CsEvent, Env)>

  function After(s: Control, run: Run): Control
    decreases run
  {
    if run == [] then s else After(Step(s, run[0].0, run[0].1), run[1..])
  }
}
