/** The values the call controls exchange with the modem, the IMS service and the call manager. */
module CallTypes {

  /** State of a call; the first six are the codes 0..5 of section 7.18 (+CLCC) of 3GPP TS 27.007. */
  datatype TelCallState =
    | Active | Holding | Dialing | Alerting | Incoming | Waiting
    | Disconnected | Disconnecting
    | Unlisted(code: int)

  /** The cast of a listed state code; a code outside 0..5 names no call state a modem may list. */
  function ToTelCallState(code: int): TelCallState {
    match code
    case 0 => Active
    case 1 => Holding
    case 2 => Dialing
    case 3 => Alerting
    case 4 => Incoming
    case 5 => Waiting
    case _ => Unlisted(code)
  }

  datatype CallType = TypeCs | TypeIms
  datatype VideoStateType = Voice | SendOnly | ReceiveOnly | Video

  /** Why a call ended: not yet known, ended by the user, or a network code. */
  datatype Reason = Invalid | UserTerminated | UserDecline | Network(code: int)

  /** The parts of a report that are only passed on. */
  datatype CallDetails = CallDetails(
    accountNum: string, voiceDomain: int, callType: CallType, callMode: VideoStateType, mpty: int, name: string,
    namePresentation: int, crsType: int, originalCallType: int, newCallUseBox: int, rttState: int,
    rttChannelId: int, imsDomain: int)

  /** What a control reports about one call. */
  datatype CallReport = CallReport(
    index: int, accountId: int, state: TelCallState, reason: Reason, message: string, isPendingHold: bool,
    details: CallDetails)

  const ZERO_DETAILS: CallDetails := CallDetails("", 0, TypeCs, Voice, 0, "", 0, 0, 0, 0, 0, 0, 0)

  /** A report whose memory was cleared: state code 0 is Active. */
  const ZERO_REPORT: CallReport := CallReport(0, 0, Active, Network(0), "", false, ZERO_DETAILS)

  /** One call of a CS call list. */
  datatype CallInfo = CallInfo(
    index: int, state: int, number: string, toa: int, voiceDomain: int, mpty: int, name: string,
    namePresentation: int)

  datatype CallInfoList = CallInfoList(callSize: int, flag: int, calls: seq<CallInfo>)

  /** One call of an IMS call list. */
  datatype ImsCall = ImsCall(
    index: int, dir: int, state: int, mode: int, mpty: int, voiceDomain: int, callType: int, number: string,
    name: string, addressType: int, alpha: string, toa: int, toneType: int, callInitialType: int,
    namePresentation: int, newCallUseBox: int, rttState: int, rttChannelId: int, imsDomain: int)

  datatype ImsCallList = ImsCallList(callSize: int, flag: int, calls: seq<ImsCall>)

  /** A user request that names a call. */
  datatype CallerInfo = CallerInfo(
    callId: int, index: int, slotId: int, phoneNum: string, videoState: int, isRtt: bool, callType: CallType)

  datatype SupplementType = TypeDefault | HangUpHoldWait | HangUpActive | HangUpAll | OtherType

  datatype ClirMode = ClirDefault | ClirTransfer | ClirInhibition

  datatype DialInfo = DialInfo(phoneNum: string, clirMode: ClirMode, videoState: int, emergency: bool, isRtt: bool)

  const NO_DIAL: DialInfo := DialInfo("", ClirDefault, 0, false, false)

  /** Return codes; a request that fails carries its own code. */
  datatype Ret =
    | Success | ConnectionNotExist | CallStateError | ArgumentInvalid | TelephonyError | LocalPtrNull
    | CountsExceedLimit | AirplaneModeOn | DialFailed | RequestFailed(code: int)

  /** The `*Request` members of the connection classes: what is asked of the radio or the IMS service. */
  datatype Command =
    | DialCommand(slot: int, info: DialInfo)
    | HangUpCommand(slot: int, phone: string, index: int)
    | AnswerCommand(slot: int, phone: string, videoState: int, index: int, isRtt: bool)
    | RejectCommand(slot: int, phone: string, index: int)
    | Swap(slot: int, videoState: int)
    | SendDtmf(slot: int, key: char, index: int)
    | QueryReason(slot: int)
    | Supplement(slot: int, kind: SupplementType)

  /** Everything a control sends out, in order: requests with their result, post-dial effects, reports. */
  datatype Event =
    | Request(command: Command, result: Ret)
    | PauseTimer(index: int)
    | PostDialChar(c: char)
    | PostDialDelay(left: string)
    | SingleReport(report: CallReport)
    | CallsReport(slot: int, reports: seq<CallReport>)

  type Log = seq<Event>

  /** What surrounds one operation: the result of a request issued when the log has length n is `results(n)`,
      whether the call manager is registered, and whether the slot has an event handler for timers. */
  datatype Env = Env(results: nat -> Ret, registered: bool, handler: bool)

  function Issue(log: Log, command: Command, env: Env): Log {
    log + [Request(command, env.results(|log|))]
  }

  /** `log'` continues `log`, and what was added satisfies `allowed`. */
  ghost predicate Continues(log: Log, log': Log, allowed: Event -> bool) {
    && |log| <= |log'| && log'[..|log|] == log
    && forall i | |log| <= i < |log'| :: allowed(log'[i])
  }

  lemma ContinuesTransitive(a: Log, b: Log, c: Log, allowed: Event -> bool)
    requires Continues(a, b, allowed) && Continues(b, c, allowed)
    ensures Continues(a, c, allowed)
  {}

  lemma ContinuesWith(a: Log, b: Log, e: Event, allowed: Event -> bool)
    requires Continues(a, b, allowed) && allowed(e)
    ensures Continues(a, b + [e], allowed)
  {}

  lemma ContinuesWeaken(a: Log, b: Log, strong: Event -> bool, weak: Event -> bool)
    requires Continues(a, b, strong)
    requires forall e | strong(e) :: weak(e)
    ensures Continues(a, b, weak)
  {}

  /** A summary of a log: `next` applied to its events in turn. */
  function Fold<A>(log: Log, start: A, next: (A, Event) -> A): A {
    if log == [] then start else next(Fold(log[..|log| - 1], start, next), log[|log| - 1])
  }

  /** Events that leave a summary alone leave it alone together. */
  lemma {:induction false} FoldContinues<A>(
      log: Log, log': Log, allowed: Event -> bool, start: A, next: (A, Event) -> A)
    requires Continues(log, log', allowed)
    requires forall a, e | allowed(e) :: next(a, e) == a
    ensures Fold(log', start, next) == Fold(log, start, next)
    decreases |log'|
  {
    if |log| < |log'| {
      var shorter := log'[..|log'| - 1];
      assert shorter[..|log|] == log;
      assert forall i | |log| <= i < |shorter| :: allowed(log'[i]);
      FoldContinues(log, shorter, allowed, start, next);
      assert allowed(log'[|log'| - 1]);
    } else {
      assert log'[..|log|] == log';
    }
  }
}
