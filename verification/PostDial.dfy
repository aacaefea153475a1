/** Post-dial: the characters of a dialled string after its first ',' or ';', played after the call connects. */
module PostDial {
  import opened CallTypes
  import opened OrderedKeys

  datatype PostDialState = NotStarted | Started | Delay | Wild | Complete | Canceled | Pause

  /** The post-dial part of a connection: state, cursor, string; and the dialled address before it. */
  datatype PostDial = PostDial(state: PostDialState, next: nat, text: string, address: string)

  const UNARMED: PostDial := PostDial(NotStarted, 0, "", "")

  predicate IsDtmfKey(c: char) {
    '0' <= c <= '9' || 'A' <= c <= 'D' || c == '*' || c == '#'
  }

  predicate IsPauseKey(c: char) { c == ',' }

  predicate IsWaitKey(c: char) { c == ';' }

  predicate IsAddressKey(c: char) {
    '0' <= c <= '9' || c == '*' || c == '#' || c == '+' || c == 'N'
  }

  /** Where the post-dial part of a number starts. */
  function PostDialStart(number: string): (i: nat)
    ensures i <= |number|
    ensures forall j | 0 <= j < i :: !IsPauseKey(number[j]) && !IsWaitKey(number[j])
    ensures i < |number| ==> IsPauseKey(number[i]) || IsWaitKey(number[i])
  {
    if number == "" || IsPauseKey(number[0]) || IsWaitKey(number[0]) then 0
    else 1 + PostDialStart(number[1..])
  }

  /** The address keys of a string, in order. */
  function AddressKeys(text: string): string {
    if text == "" then ""
    else AddressKeys(text[..|text| - 1]) + if IsAddressKey(text[|text| - 1]) then [text[|text| - 1]] else ""
  }

  /** Extraction appends to what the connection already holds; an empty number changes nothing. */
  function Arm(pd: PostDial, number: string): PostDial {
    var start := PostDialStart(number);
    pd.(address := pd.address + AddressKeys(number[..start]), text := pd.text + number[start..])
  }

  /** Whether another character may be taken. */
  predicate Ready(pd: PostDial) {
    pd.state != Canceled && pd.next < |pd.text|
  }

  function StateAfter(c: char): PostDialState {
    if IsDtmfKey(c) then Started else if IsPauseKey(c) then Pause else if IsWaitKey(c) then Delay else Started
  }

  function Advance(pd: PostDial): PostDial {
    if pd.state == Canceled then pd
    else if |pd.text| <= pd.next then pd.(state := Complete)
    else pd.(state := StateAfter(pd.text[pd.next]), next := pd.next + 1)
  }

  function Left(pd: PostDial): string {
    if pd.text == "" || |pd.text| <= pd.next then "" else pd.text[pd.next..]
  }

  /** What playing `c` asks of the network or the timer queue. */
  function CharEvents(c: char, slot: int, index: int, env: Env, at: nat): seq<Event> {
    if IsDtmfKey(c) then [Request(SendDtmf(slot, c, index), env.results(at))]
    else if IsPauseKey(c) && env.handler then [PauseTimer(index)]
    else []
  }

  /** What the call manager is told after a step. */
  function TellEvents(pd: PostDial, c: char): seq<Event> {
    if pd.state == Started then [PostDialChar(c)]
    else if pd.state == Delay then [PostDialDelay(Left(pd))]
    else []
  }

  /** The log after one step of the automaton of connection `index`. */
  function Play(pd: PostDial, slot: int, index: int, env: Env, log: Log): Log {
    if !Ready(pd) then log
    else
      var c := pd.text[pd.next];
      log + CharEvents(c, slot, index, env, |log|) + TellEvents(Advance(pd), c)
  }

  /** The post-dial side of a connection object. */
  class BaseConnection {
    const index: int
    var phoneNumber: string
    var postDialCallState: PostDialState
    var nextPostDialCallCode: nat
    var postDialCallString: string
    var log: Log

    function View(): PostDial
      reads this
    {
      PostDial(postDialCallState, nextPostDialCallCode, postDialCallString, phoneNumber)
    }

    constructor (index: int, pd: PostDial, log: Log)
      ensures this.index == index && View() == pd && this.log == log
    {
      this.index := index;
      phoneNumber, postDialCallState := pd.address, pd.state;
      nextPostDialCallCode, postDialCallString := pd.next, pd.text;
      this.log := log;
    }

    method SetPostDialCallState(s: PostDialState)
      modifies this`postDialCallState
      ensures View() == old(View()).(state := s)
    {
      postDialCallState := s;
    }

    method UpdateCallNumber(number: string)
      modifies this`phoneNumber, this`postDialCallString
      ensures View() == Arm(old(View()), number)
    {
      if number == "" {
        return;
      }
      var start := |number|;
      var i := 0;
      while i < |number|
        invariant 0 <= i <= |number| && start == |number|
        invariant forall j | 0 <= j < i :: !IsPauseKey(number[j]) && !IsWaitKey(number[j])
        invariant phoneNumber == old(phoneNumber) + AddressKeys(number[..i])
        invariant postDialCallString == old(postDialCallString)
      {
        assert number[..i + 1][..i] == number[..i];
        if IsAddressKey(number[i]) {
          phoneNumber := phoneNumber + [number[i]];
        } else if IsPauseKey(number[i]) || IsWaitKey(number[i]) {
          start := i;
          break;
        }
        i := i + 1;
      }
      assert i == start && start == PostDialStart(number);
      i := start;
      while i < |number|
        invariant start <= i <= |number|
        invariant postDialCallString == old(postDialCallString) + number[start..i]
        invariant phoneNumber == old(phoneNumber) + AddressKeys(number[..start])
      {
        postDialCallString := postDialCallString + [number[i]];
        i := i + 1;
      }
      assert number[start..i] == number[start..];
    }

    method ProcessPostDialCallChar(slot: int, c: char, env: Env)
      modifies this`postDialCallState, this`log
      ensures log == old(log) + CharEvents(c, slot, index, env, |old(log)|)
      ensures postDialCallState == if IsPauseKey(c) || IsWaitKey(c) then StateAfter(c) else old(postDialCallState)
    {
      if IsDtmfKey(c) {
        log := Issue(log, SendDtmf(slot, c, index), env);
      } else if IsPauseKey(c) {
        SetPostDialCallState(Pause);
        if !env.handler {
          return;
        }
        log := log + [PauseTimer(index)];
      } else if IsWaitKey(c) {
        SetPostDialCallState(Delay);
      }
    }

    method ProcessNextChar(slot: int, env: Env) returns (state: PostDialState, c: Option<char>)
      modifies this
      ensures View() == Advance(old(View())) && state == View().state
      ensures c == if Ready(old(View())) then Some(old(postDialCallString)[old(nextPostDialCallCode)]) else None
      ensures log == old(log) + if c.None? then [] else CharEvents(c.value, slot, index, env, |old(log)|)
      ensures c.None? ==> state == Canceled || state == Complete
    {
      c := None;
      if postDialCallState == Canceled {
        return Canceled, None;
      }
      if postDialCallString == "" || |postDialCallString| <= nextPostDialCallCode {
        SetPostDialCallState(Complete);
        return Complete, None;
      } else {
        SetPostDialCallState(Started);
        var ch := postDialCallString[nextPostDialCallCode];
        nextPostDialCallCode := nextPostDialCallCode + 1;
        ProcessPostDialCallChar(slot, ch, env);
        c := Some(ch);
      }
      state := postDialCallState;
    }

    method GetLeftPostDialCallString() returns (left: string)
      ensures left == Left(View())
    {
      if postDialCallString == "" || |postDialCallString| <= nextPostDialCallCode {
        return "";
      }
      return postDialCallString[nextPostDialCallCode..];
    }
  }
}
