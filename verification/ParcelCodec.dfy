/** The IMS callback's parcels: call lists and call-forwarding lists, as written by the proxy and read by the stub. */
module ParcelCodec {
  import opened CallTypes

  /** One written value; `Raw` is a block written as raw data. */
  datatype Item = I(value: int) | S(text: string) | Raw(info: int)

  /** What a read at a position yields; a missing value reads as zero or empty. */
  function IntAt(items: seq<Item>, at: nat): int {
    if at < |items| then match items[at] { case I(v) => v case _ => 0 } else 0
  }

  function StringAt(items: seq<Item>, at: nat): string {
    if at < |items| then match items[at] { case S(v) => v case _ => "" } else ""
  }

  class MessageParcel {
    const capacity: nat
    var items: seq<Item>
    var cursor: nat

    constructor (capacity: nat)
      ensures this.capacity == capacity && items == [] && cursor == 0
    {
      this.capacity := capacity;
      items, cursor := [], 0;
    }

    /** Writes in order up to the first failure; a write fails when the parcel is full. */
    method Write(values: seq<Item>) returns (ok: bool)
      modifies this`items
      ensures ok <==> |old(items)| + |values| <= capacity || values == []
      ensures ok ==> items == old(items) + values
    {
      var i := 0;
      while i < |values|
        invariant 0 <= i <= |values| && items == old(items) + values[..i]
        invariant i > 0 ==> |items| <= capacity
      {
        if |items| >= capacity {
          return false;
        }
        items := items + [values[i]];
        i := i + 1;
      }
      return true;
    }

    method ReadInt32() returns (v: int)
      modifies this`cursor
      ensures v == IntAt(items, old(cursor)) && cursor == old(cursor) + 1
    {
      v := IntAt(items, cursor);
      cursor := cursor + 1;
    }

    method ReadString() returns (v: string)
      modifies this`cursor
      ensures v == StringAt(items, old(cursor)) && cursor == old(cursor) + 1
    {
      v := StringAt(items, cursor);
      cursor := cursor + 1;
    }

    /** Without a raw block at the cursor the read fails and the cursor stays. */
    method ReadRawData() returns (found: bool, info: int)
      modifies this`cursor
      ensures found <==> old(cursor) < |items| && items[old(cursor)].Raw?
      ensures cursor == if found then old(cursor) + 1 else old(cursor)
      ensures found ==> items[old(cursor)] == Raw(info)
    {
      if cursor < |items| {
        match items[cursor] {
          case Raw(block) =>
            cursor := cursor + 1;
            return true, block;
          case _ =>
        }
      }
      return false, 0;
    }
  }

  const MAX_SIZE := 10
  const INVALID_INDEX := -1

  /** The cast of a size to a 32-bit signed integer. */
  function ToInt32(n: int): int {
    (n + 0x8000_0000) % 0x1_0000_0000 - 0x8000_0000
  }

  datatype Delivery<T> =
    | Delivered(slot: int, list: T)
    | InfoDelivered(slot: int, info: int)
    | Withheld
    | Rejected

  // ----- call lists

  const CALL_ITEMS := 19

  function CallItems(c: ImsCall): (items: seq<Item>)
    ensures |items| == CALL_ITEMS
  {
    [I(c.index), I(c.dir), I(c.state), I(c.mode), I(c.mpty), I(c.voiceDomain), I(c.callType), S(c.number), S(c.name),
     I(c.addressType), S(c.alpha), I(c.toa), I(c.toneType), I(c.callInitialType), I(c.namePresentation),
     I(c.newCallUseBox), I(c.rttState), I(c.rttChannelId), I(c.imsDomain)]
  }

  function CallsItems(calls: seq<ImsCall>): (items: seq<Item>)
    ensures |items| == CALL_ITEMS * |calls|
  {
    if calls == [] then [] else CallsItems(calls[..|calls| - 1]) + CallItems(calls[|calls| - 1])
  }

  function CallListHeader(slot: int, list: ImsCallList): seq<Item> {
    [I(slot), I(list.callSize), I(list.flag), I(ToInt32(|list.calls|))]
  }

  function CallListItems(slot: int, list: ImsCallList): seq<Item> {
    CallListHeader(slot, list) + CallsItems(list.calls)
  }

  /** The proxy: the parcel it sends, or a failed write with nothing sent. */
  method SendCallList(slot: int, list: ImsCallList, capacity: nat) returns (sent: bool, parcel: MessageParcel)
    ensures fresh(parcel) && parcel.cursor == 0
    ensures sent <==> |CallListItems(slot, list)| <= capacity
    ensures sent ==> parcel.items == CallListItems(slot, list)
  {
    parcel := new MessageParcel(capacity);
    sent := parcel.Write([I(slot)]);
    if !sent { return; }
    sent := parcel.Write([I(list.callSize), I(list.flag)]);
    if !sent { return; }
    sent := parcel.Write([I(ToInt32(|list.calls|))]);
    if !sent { return; }
    assert parcel.items == CallListHeader(slot, list);
    var i := 0;
    while i < |list.calls|
      invariant 0 <= i <= |list.calls| && fresh(parcel) && parcel.cursor == 0
      invariant parcel.items == CallListHeader(slot, list) + CallsItems(list.calls[..i])
      invariant |parcel.items| <= capacity == parcel.capacity
    {
      sent := parcel.Write(CallItems(list.calls[i]));
      if !sent { return; }
      assert list.calls[..i + 1][..i] == list.calls[..i];
      i := i + 1;
    }
    assert list.calls[..i] == list.calls;
    sent := true;
  }

  function DecodeCall(items: seq<Item>, at: nat): ImsCall {
    ImsCall(
      IntAt(items, at), IntAt(items, at + 1), IntAt(items, at + 2), IntAt(items, at + 3), IntAt(items, at + 4),
      IntAt(items, at + 5), IntAt(items, at + 6), StringAt(items, at + 7), StringAt(items, at + 8),
      IntAt(items, at + 9), StringAt(items, at + 10), IntAt(items, at + 11), IntAt(items, at + 12),
      IntAt(items, at + 13), IntAt(items, at + 14), IntAt(items, at + 15), IntAt(items, at + 16),
      IntAt(items, at + 17), IntAt(items, at + 18))
  }

  function DecodeCalls(items: seq<Item>, at: nat, count: nat): seq<ImsCall> {
    seq(count, i requires 0 <= i < count => DecodeCall(items, at + CALL_ITEMS * i))
  }

  /** What the stub makes of a parcel, and where its reads end. */
  function DecodeCallList(items: seq<Item>): (Delivery<ImsCallList>, nat) {
    if 1 < |items| && items[1].Raw? then (InfoDelivered(IntAt(items, 0), items[1].info), 2)
    else
      var len := IntAt(items, 3);
      if len < 0 || len > MAX_SIZE then (Rejected, 4)
      else
        (Delivered(IntAt(items, 0), ImsCallList(IntAt(items, 1), IntAt(items, 2), DecodeCalls(items, 4, len))),
         4 + CALL_ITEMS * len)
  }

  method ReadCall(parcel: MessageParcel) returns (call: ImsCall)
    modifies parcel`cursor
    ensures call == DecodeCall(parcel.items, old(parcel.cursor)) && parcel.cursor == old(parcel.cursor) + CALL_ITEMS
  {
    var index := parcel.ReadInt32();
    var dir := parcel.ReadInt32();
    var state := parcel.ReadInt32();
    var mode := parcel.ReadInt32();
    var mpty := parcel.ReadInt32();
    var voiceDomain := parcel.ReadInt32();
    var callType := parcel.ReadInt32();
    var number := parcel.ReadString();
    var name := parcel.ReadString();
    var addressType := parcel.ReadInt32();
    var alpha := parcel.ReadString();
    var toa := parcel.ReadInt32();
    var toneType := parcel.ReadInt32();
    var callInitialType := parcel.ReadInt32();
    var namePresentation := parcel.ReadInt32();
    var newCallUseBox := parcel.ReadInt32();
    var rttState := parcel.ReadInt32();
    var rttChannelId := parcel.ReadInt32();
    var imsDomain := parcel.ReadInt32();
    call := ImsCall(
      index, dir, state, mode, mpty, voiceDomain, callType, number, name, addressType, alpha, toa, toneType,
      callInitialType, namePresentation, newCallUseBox, rttState, rttChannelId, imsDomain);
  }

  /** The stub. */
  method OnGetImsCallsDataResponse(parcel: MessageParcel) returns (delivery: Delivery<ImsCallList>)
    requires parcel.cursor == 0
    modifies parcel`cursor
    ensures (delivery, parcel.cursor) == DecodeCallList(parcel.items)
  {
    var slot := parcel.ReadInt32();
    var found, info := parcel.ReadRawData();
    if found {
      return InfoDelivered(slot, info);
    }
    var callSize := parcel.ReadInt32();
    var flag := parcel.ReadInt32();
    var len := parcel.ReadInt32();
    if len < 0 || len > MAX_SIZE {
      return Rejected;
    }
    var calls := [];
    for i := 0 to len
      invariant parcel.cursor == 4 + CALL_ITEMS * i
      invariant calls == DecodeCalls(parcel.items, 4, i)
    {
      var call := ReadCall(parcel);
      calls := calls + [call];
    }
    delivery := Delivered(slot, ImsCallList(callSize, flag, calls));
  }

  /** `part` stands in the parcel from position `at` on. */
  ghost predicate Holds(items: seq<Item>, at: nat, part: seq<Item>) {
    at + |part| <= |items| && forall i | 0 <= i < |part| :: items[at + i] == part[i]
  }

  lemma HoldsBoth(items: seq<Item>, at: nat, a: seq<Item>, b: seq<Item>)
    requires Holds(items, at, a + b)
    ensures Holds(items, at, a) && Holds(items, at + |a|, b)
  {
    forall i | 0 <= i < |a| ensures items[at + i] == a[i] {
      assert (a + b)[i] == a[i];
    }
    forall i | 0 <= i < |b| ensures items[at + |a| + i] == b[i] {
      assert (a + b)[|a| + i] == b[i];
    }
  }

  lemma DecodeEncodedCall(items: seq<Item>, at: nat, c: ImsCall)
    requires Holds(items, at, CallItems(c))
    ensures DecodeCall(items, at) == c
  {
    var part := CallItems(c);
    assert items[at + 0] == part[0] && items[at + 1] == part[1] && items[at + 2] == part[2];
    assert items[at + 3] == part[3] && items[at + 4] == part[4] && items[at + 5] == part[5];
    assert items[at + 6] == part[6] && items[at + 7] == part[7] && items[at + 8] == part[8];
    assert items[at + 9] == part[9] && items[at + 10] == part[10] && items[at + 11] == part[11];
    assert items[at + 12] == part[12] && items[at + 13] == part[13] && items[at + 14] == part[14];
    assert items[at + 15] == part[15] && items[at + 16] == part[16] && items[at + 17] == part[17];
    assert items[at + 18] == part[18];
  }

  lemma DecodeCallsSnoc(items: seq<Item>, at: nat, n: nat)
    ensures DecodeCalls(items, at, n + 1) == DecodeCalls(items, at, n) + [DecodeCall(items, at + CALL_ITEMS * n)]
  {}

  lemma {:induction false} DecodeEncodedCalls(items: seq<Item>, at: nat, calls: seq<ImsCall>)
    requires Holds(items, at, CallsItems(calls))
    ensures DecodeCalls(items, at, |calls|) == calls
    decreases |calls|
  {
    if calls != [] {
      var n := |calls| - 1;
      HoldsBoth(items, at, CallsItems(calls[..n]), CallItems(calls[n]));
      DecodeEncodedCalls(items, at, calls[..n]);
      DecodeEncodedCall(items, at + CALL_ITEMS * n, calls[n]);
      DecodeCallsSnoc(items, at, n);
      assert calls == calls[..n] + [calls[n]];
    }
  }

  /** Where the parts of a written call list are. */
  ghost predicate CallListParts(items: seq<Item>, slot: int, list: ImsCallList) {
    && |items| == 4 + CALL_ITEMS * |list.calls|
    && IntAt(items, 0) == slot && items[1] == I(list.callSize) && IntAt(items, 2) == list.flag
    && IntAt(items, 3) == ToInt32(|list.calls|)
    && Holds(items, 4, CallsItems(list.calls))
  }

  lemma CallListHasParts(slot: int, list: ImsCallList)
    ensures CallListParts(CallListItems(slot, list), slot, list)
  {}

  lemma CallListDelivered(items: seq<Item>, slot: int, list: ImsCallList)
    requires |list.calls| <= MAX_SIZE && CallListParts(items, slot, list)
    ensures DecodeCallList(items) == (Delivered(slot, list), |items|)
  {
    DecodeEncodedCalls(items, 4, list.calls);
  }

  /** The stub delivers exactly the list the proxy wrote, having read exactly what was written, if its length is at
      most 10; it rejects the list, delivering nothing, if and only if the length, as a 32-bit integer, is outside
      0..10. `callSize` is kept as it is, whatever the length. */
  lemma CallListRoundTrip(slot: int, list: ImsCallList)
    ensures var (delivery, read) := DecodeCallList(CallListItems(slot, list));
            && (|list.calls| <= MAX_SIZE ==> delivery == Delivered(slot, list) && read == |CallListItems(slot, list)|)
            && (delivery == Rejected <==> !(0 <= ToInt32(|list.calls|) <= MAX_SIZE))
            && (MAX_SIZE < |list.calls| < 0x1_0000_0000 ==> delivery == Rejected)
  {
    CallListHasParts(slot, list);
    if |list.calls| <= MAX_SIZE { CallListDelivered(CallListItems(slot, list), slot, list); }
  }

  // ----- call-forwarding lists

  datatype SsBaseResult = SsBaseResult(index: int, result: int, reason: int, message: string)

  datatype ForwardCall = ForwardCall(
    serial: int, result: int, status: int, classx: int, number: string, numberType: int, reason: int, time: int,
    startHour: int, startMinute: int, endHour: int, endMinute: int)

  datatype ForwardList = ForwardList(result: SsBaseResult, callSize: int, flag: int, calls: seq<ForwardCall>)

  const FORWARD_ITEMS := 12

  function ForwardItems(c: ForwardCall): (items: seq<Item>)
    ensures |items| == FORWARD_ITEMS
  {
    [I(c.serial), I(c.result), I(c.status), I(c.classx), S(c.number), I(c.numberType), I(c.reason), I(c.time),
     I(c.startHour), I(c.startMinute), I(c.endHour), I(c.endMinute)]
  }

  function ForwardsItems(calls: seq<ForwardCall>): (items: seq<Item>)
    ensures |items| == FORWARD_ITEMS * |calls|
  {
    if calls == [] then [] else ForwardsItems(calls[..|calls| - 1]) + ForwardItems(calls[|calls| - 1])
  }

  function ForwardHeader(slot: int, list: ForwardList): seq<Item> {
    [I(slot), I(list.result.index), I(list.result.result), I(list.result.reason), S(list.result.message),
     I(list.callSize), I(list.flag), I(ToInt32(|list.calls|))]
  }

  function ForwardListItems(slot: int, list: ForwardList): seq<Item> {
    ForwardHeader(slot, list) + ForwardsItems(list.calls)
  }

  /** The proxy: the parcel it sends, or a failed write with nothing sent. */
  method SendForwardList(slot: int, list: ForwardList, capacity: nat) returns (sent: bool, parcel: MessageParcel)
    ensures fresh(parcel) && parcel.cursor == 0
    ensures sent <==> |ForwardListItems(slot, list)| <= capacity
    ensures sent ==> parcel.items == ForwardListItems(slot, list)
  {
    parcel := new MessageParcel(capacity);
    var r := list.result;
    sent := parcel.Write([I(slot), I(r.index), I(r.result), I(r.reason), S(r.message)]);
    if !sent { return; }
    sent := parcel.Write([I(list.callSize), I(list.flag)]);
    if !sent { return; }
    sent := parcel.Write([I(ToInt32(|list.calls|))]);
    if !sent { return; }
    assert parcel.items == ForwardHeader(slot, list);
    var i := 0;
    while i < |list.calls|
      invariant 0 <= i <= |list.calls| && fresh(parcel) && parcel.cursor == 0
      invariant parcel.items == ForwardHeader(slot, list) + ForwardsItems(list.calls[..i])
      invariant |parcel.items| <= capacity == parcel.capacity
    {
      sent := parcel.Write(ForwardItems(list.calls[i]));
      if !sent { return; }
      assert list.calls[..i + 1][..i] == list.calls[..i];
      i := i + 1;
    }
    assert list.calls[..i] == list.calls;
    sent := true;
  }

  function DecodeForward(items: seq<Item>, at: nat): ForwardCall {
    ForwardCall(
      IntAt(items, at), IntAt(items, at + 1), IntAt(items, at + 2), IntAt(items, at + 3), StringAt(items, at + 4),
      IntAt(items, at + 5), IntAt(items, at + 6), IntAt(items, at + 7), IntAt(items, at + 8), IntAt(items, at + 9),
      IntAt(items, at + 10), IntAt(items, at + 11))
  }

  function DecodeForwards(items: seq<Item>, at: nat, count: nat): seq<ForwardCall> {
    seq(count, i requires 0 <= i < count => DecodeForward(items, at + FORWARD_ITEMS * i))
  }

  function DecodeForwardList(items: seq<Item>): (Delivery<ForwardList>, nat) {
    var len := IntAt(items, 7);
    if len < 0 || len > MAX_SIZE then (Rejected, 8)
    else
      var result := SsBaseResult(IntAt(items, 1), IntAt(items, 2), IntAt(items, 3), StringAt(items, 4));
      var list := ForwardList(result, IntAt(items, 5), IntAt(items, 6), DecodeForwards(items, 8, len));
      (if result.index == INVALID_INDEX then Withheld else Delivered(IntAt(items, 0), list), 8 + FORWARD_ITEMS * len)
  }

  method ReadForward(parcel: MessageParcel) returns (call: ForwardCall)
    modifies parcel`cursor
    ensures call == DecodeForward(parcel.items, old(parcel.cursor))
    ensures parcel.cursor == old(parcel.cursor) + FORWARD_ITEMS
  {
    var serial := parcel.ReadInt32();
    var result := parcel.ReadInt32();
    var status := parcel.ReadInt32();
    var classx := parcel.ReadInt32();
    var number := parcel.ReadString();
    var numberType := parcel.ReadInt32();
    var reason := parcel.ReadInt32();
    var time := parcel.ReadInt32();
    var startHour := parcel.ReadInt32();
    var startMinute := parcel.ReadInt32();
    var endHour := parcel.ReadInt32();
    var endMinute := parcel.ReadInt32();
    call := ForwardCall(
      serial, result, status, classx, number, numberType, reason, time, startHour, startMinute, endHour, endMinute);
  }

  /** The stub; an answer whose request index is invalid is accepted but passed to nobody. */
  method OnGetCallTransferResponse(parcel: MessageParcel) returns (delivery: Delivery<ForwardList>)
    requires parcel.cursor == 0
    modifies parcel`cursor
    ensures (delivery, parcel.cursor) == DecodeForwardList(parcel.items)
  {
    var slot := parcel.ReadInt32();
    var index := parcel.ReadInt32();
    var result := parcel.ReadInt32();
    var reason := parcel.ReadInt32();
    var message := parcel.ReadString();
    var callSize := parcel.ReadInt32();
    var flag := parcel.ReadInt32();
    var len := parcel.ReadInt32();
    if len < 0 || len > MAX_SIZE {
      return Rejected;
    }
    var calls := [];
    for i := 0 to len
      invariant parcel.cursor == 8 + FORWARD_ITEMS * i
      invariant calls == DecodeForwards(parcel.items, 8, i)
    {
      var call := ReadForward(parcel);
      calls := calls + [call];
    }
    if index == INVALID_INDEX {
      return Withheld;
    }
    delivery := Delivered(slot, ForwardList(SsBaseResult(index, result, reason, message), callSize, flag, calls));
  }

  lemma DecodeEncodedForward(items: seq<Item>, at: nat, c: ForwardCall)
    requires Holds(items, at, ForwardItems(c))
    ensures DecodeForward(items, at) == c
  {
    var part := ForwardItems(c);
    assert items[at + 0] == part[0] && items[at + 1] == part[1] && items[at + 2] == part[2];
    assert items[at + 3] == part[3] && items[at + 4] == part[4] && items[at + 5] == part[5];
    assert items[at + 6] == part[6] && items[at + 7] == part[7] && items[at + 8] == part[8];
    assert items[at + 9] == part[9] && items[at + 10] == part[10] && items[at + 11] == part[11];
  }

  lemma DecodeForwardsSnoc(items: seq<Item>, at: nat, n: nat)
    ensures DecodeForwards(items, at, n + 1)
            == DecodeForwards(items, at, n) + [DecodeForward(items, at + FORWARD_ITEMS * n)]
  {}

  lemma {:induction false} DecodeEncodedForwards(items: seq<Item>, at: nat, calls: seq<ForwardCall>)
    requires Holds(items, at, ForwardsItems(calls))
    ensures DecodeForwards(items, at, |calls|) == calls
    decreases |calls|
  {
    if calls != [] {
      var n := |calls| - 1;
      HoldsBoth(items, at, ForwardsItems(calls[..n]), ForwardItems(calls[n]));
      DecodeEncodedForwards(items, at, calls[..n]);
      DecodeEncodedForward(items, at + FORWARD_ITEMS * n, calls[n]);
      DecodeForwardsSnoc(items, at, n);
      assert calls == calls[..n] + [calls[n]];
    }
  }

  /** Where the parts of a written forwarding list are. */
  ghost predicate ForwardListParts(items: seq<Item>, slot: int, list: ForwardList) {
    && |items| == 8 + FORWARD_ITEMS * |list.calls|
    && IntAt(items, 0) == slot && IntAt(items, 1) == list.result.index && IntAt(items, 2) == list.result.result
    && IntAt(items, 3) == list.result.reason && StringAt(items, 4) == list.result.message
    && IntAt(items, 5) == list.callSize && IntAt(items, 6) == list.flag
    && IntAt(items, 7) == ToInt32(|list.calls|)
    && Holds(items, 8, ForwardsItems(list.calls))
  }

  lemma ForwardListHasParts(slot: int, list: ForwardList)
    ensures ForwardListParts(ForwardListItems(slot, list), slot, list)
  {}

  lemma ForwardListDelivered(items: seq<Item>, slot: int, list: ForwardList)
    requires |list.calls| <= MAX_SIZE && ForwardListParts(items, slot, list)
    ensures DecodeForwardList(items)
            == (if list.result.index == INVALID_INDEX then Withheld else Delivered(slot, list), |items|)
  {
    DecodeEncodedForwards(items, 8, list.calls);
  }

  /** As for call lists; a list answering an invalid request is read in full and withheld. */
  lemma ForwardListRoundTrip(slot: int, list: ForwardList)
    ensures var (delivery, read) := DecodeForwardList(ForwardListItems(slot, list));
            && (|list.calls| <= MAX_SIZE ==>
                  && delivery == (if list.result.index == INVALID_INDEX then Withheld else Delivered(slot, list))
                  && read == |ForwardListItems(slot, list)|)
            && (delivery == Rejected <==> !(0 <= ToInt32(|list.calls|) <= MAX_SIZE))
            && (MAX_SIZE < |list.calls| < 0x1_0000_0000 ==> delivery == Rejected)
  {
    ForwardListHasParts(slot, list);
    if |list.calls| <= MAX_SIZE { ForwardListDelivered(ForwardListItems(slot, list), slot, list); }
  }

  /** What is handed on: every field of the list but its flag, which stays that of the target. */
  method BuildCallForwardInfo(list: ForwardList, target: ForwardList) returns (built: ForwardList)
    ensures built == list.(flag := target.flag, calls := target.calls + list.calls)
  {
    built := target.(callSize := list.callSize);
    for i := 0 to |list.calls|
      invariant built == target.(callSize := list.callSize, calls := target.calls + list.calls[..i])
    {
      var info := list.calls[i];
      var call := ForwardCall(
        info.serial, info.result, info.status, info.classx, info.number, info.numberType, info.reason, info.time,
        info.startHour, info.startMinute, info.endHour, info.endMinute);
      built := built.(calls := built.calls + [call]);
    }
    built := built.(result := list.result);
  }
}
