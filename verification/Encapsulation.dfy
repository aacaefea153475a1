/** Building a report from a listed call. */
module Encapsulation {
  import opened CallTypes
  import opened CallTable

  /** Capacity of a report's number field; its value is set outside this repository, so none is assumed here. */
  const MAX_NUMBER_LEN: nat

  const TOA_INTERNATIONAL := 145

  /** An international number starts with '+'. */
  function FormatNumberAndToa(number: string, toa: int): string {
    if number != "" && toa == TOA_INTERNATIONAL && number[0] != '+' then "+" + number else number
  }

  function GetCallMode(callType: int): VideoStateType {
    match callType
    case 1 => SendOnly
    case 2 => ReceiveOnly
    case 3 => Video
    case _ => Voice
  }

  predicate NumberFits(number: string, toa: int) {
    |FormatNumberAndToa(number, toa)| <= MAX_NUMBER_LEN
  }

  /** A number that does not fit leaves the report cleared, with index 0. */
  function CsReport(slot: int, call: CallInfo): CallReport {
    if !NumberFits(call.number, call.toa) then ZERO_REPORT
    else ZERO_REPORT.(
      index := call.index, accountId := slot, state := ToTelCallState(call.state),
      details := ZERO_DETAILS.(
        accountNum := FormatNumberAndToa(call.number, call.toa), voiceDomain := call.voiceDomain,
        callType := TypeCs, callMode := Voice, mpty := call.mpty,
        name := if call.number == "" then "" else call.name, namePresentation := call.namePresentation))
  }

  function ImsReport(slot: int, call: ImsCall): CallReport {
    var named := ZERO_DETAILS.(name := if call.number == "" then "" else call.name);
    if !NumberFits(call.number, call.toa) then ZERO_REPORT.(details := named)
    else ZERO_REPORT.(
      index := call.index, accountId := slot, state := ToTelCallState(call.state),
      details := named.(
        accountNum := FormatNumberAndToa(call.number, call.toa), voiceDomain := call.voiceDomain,
        callType := TypeIms, callMode := GetCallMode(call.callType), mpty := call.mpty, crsType := call.toneType,
        originalCallType := call.callInitialType, namePresentation := call.namePresentation,
        newCallUseBox := call.newCallUseBox, rttState := call.rttState, rttChannelId := call.rttChannelId,
        imsDomain := call.imsDomain))
  }

  function CsListed(slot: int, calls: seq<CallInfo>): seq<Listed> {
    seq(|calls|, i requires 0 <= i < |calls| => Listed(calls[i].index, calls[i].number, CsReport(slot, calls[i])))
  }

  function ImsListed(slot: int, calls: seq<ImsCall>): seq<Listed> {
    seq(|calls|, i requires 0 <= i < |calls| => Listed(calls[i].index, calls[i].number, ImsReport(slot, calls[i])))
  }

  /** What a modem may send: a size that is the number of calls, states 0..5, each index once, numbers that fit. */
  ghost predicate WellFormedCs(list: CallInfoList) {
    && list.callSize == |list.calls|
    && (forall i | 0 <= i < |list.calls| ::
          0 <= list.calls[i].state <= 5 && NumberFits(list.calls[i].number, list.calls[i].toa))
    && forall i, j | 0 <= i < j < |list.calls| :: list.calls[i].index != list.calls[j].index
  }

  ghost predicate WellFormedIms(list: ImsCallList) {
    && list.callSize == |list.calls|
    && (forall i | 0 <= i < |list.calls| ::
          0 <= list.calls[i].state <= 5 && NumberFits(list.calls[i].number, list.calls[i].toa))
    && forall i, j | 0 <= i < j < |list.calls| :: list.calls[i].index != list.calls[j].index
  }
}
