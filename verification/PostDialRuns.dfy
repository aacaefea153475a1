/** Post-dial over runs: every character of a connection's string is played at most once and in order. */
module PostDialRuns {
  import opened CallTypes
  import opened PostDial
  import opened CallTable
  import opened TableTheorems
  import opened Observer

  function AddKey(k: int): (string, Event) -> string {
    (keys: string, e: Event) =>
      if e.Request? && e.command.SendDtmf? && e.command.index == k then keys + [e.command.key] else keys
  }

  function CountTimer(k: int): (nat, Event) -> nat {
    (n: nat, e: Event) => n + if e == PauseTimer(k) then 1 else 0
  }

  /** The DTMF keys requested so far for connection `k`. */
  function DtmfFor(log: Log, k: int): string {
    Fold(log, "", AddKey(k))
  }

  /** The pause timers started so far for connection `k`. */
  function TimersFor(log: Log, k: int): nat {
    Fold(log, 0, CountTimer(k))
  }

  /** The DTMF keys of a string, in order. */
  function DtmfKeys(text: string): string {
    if text == "" then ""
    else DtmfKeys(text[..|text| - 1]) + if IsDtmfKey(text[|text| - 1]) then [text[|text| - 1]] else ""
  }

  function Pauses(text: string): nat {
    if text == "" then 0 else Pauses(text[..|text| - 1]) + if IsPauseKey(text[|text| - 1]) then 1 else 0
  }

  lemma {:induction false} KeysConcat(a: string, b: string)
    ensures DtmfKeys(a + b) == DtmfKeys(a) + DtmfKeys(b)
    ensures Pauses(a + b) == Pauses(a) + Pauses(b)
    decreases |b|
  {
    if b == "" {
      assert a + b == a;
    } else {
      KeysConcat(a, b[..|b| - 1]);
      assert (a + b)[..|a + b| - 1] == a + b[..|b| - 1];
    }
  }

  predicate Touches(e: Event, k: int) {
    match e
    case Request(SendDtmf(_, _, index), _) => index == k
    case PauseTimer(index) => index == k
    case _ => false
  }

  function LeavesAlone(k: int): Event -> bool {
    (e: Event) => !Touches(e, k)
  }

  /** What was added to the log plays nothing on connection `k`. */
  ghost predicate Untouched(log: Log, log': Log, k: int) {
    Continues(log, log', LeavesAlone(k))
  }

  lemma UntouchedCounts(log: Log, log': Log, k: int)
    requires Untouched(log, log', k)
    ensures DtmfFor(log', k) == DtmfFor(log, k) && TimersFor(log', k) == TimersFor(log, k)
  {
    FoldContinues(log, log', LeavesAlone(k), "", AddKey(k));
    FoldContinues(log, log', LeavesAlone(k), 0, CountTimer(k));
  }

  /** From `p` to `q` the string only grew, the cursor only moved forward inside it, and what was requested of the
      network and the timers is what the characters passed over ask for, in order; with a handler at every step each
      pause got its timer. A cancelled connection stays where it is. */
  ghost predicate Played(p: PostDial, q: PostDial, log: Log, log': Log, k: int, handlers: bool) {
    && p.text <= q.text && p.next <= q.next <= |q.text|
    && DtmfFor(log', k) == DtmfFor(log, k) + DtmfKeys(q.text[p.next..q.next])
    && TimersFor(log, k) <= TimersFor(log', k) <= TimersFor(log, k) + Pauses(q.text[p.next..q.next])
    && (handlers ==> TimersFor(log', k) == TimersFor(log, k) + Pauses(q.text[p.next..q.next]))
    && (p.state == Canceled ==> q.state == Canceled && q.next == p.next)
  }

  /** What is passed over in two strides, of which the string may grow in the second. */
  lemma Strides(mid: string, text: string, from: nat, via: nat, to: nat)
    requires mid <= text && from <= via <= to <= |text| && via <= |mid|
    ensures DtmfKeys(text[from..to]) == DtmfKeys(mid[from..via]) + DtmfKeys(text[via..to])
    ensures Pauses(text[from..to]) == Pauses(mid[from..via]) + Pauses(text[via..to])
  {
    assert mid == text[..|mid|];
    assert mid[from..via] == text[from..via];
    assert text[from..to] == text[from..via] + text[via..to];
    KeysConcat(text[from..via], text[via..to]);
  }

  lemma PlayedCompose(p: PostDial, q: PostDial, r: PostDial, a: Log, b: Log, c: Log, k: int, h1: bool, h2: bool)
    requires Played(p, q, a, b, k, h1) && Played(q, r, b, c, k, h2)
    ensures Played(p, r, a, c, k, h1 && h2)
  {
    Strides(q.text, r.text, p.next, q.next, r.next);
  }

  lemma PlayedFrame(p: PostDial, q: PostDial, log: Log, log': Log, k: int)
    requires p.next <= |p.text| && p.text <= q.text && q.next == p.next && (p.state == Canceled ==> q.state == Canceled)
    requires Untouched(log, log', k)
    ensures Played(p, q, log, log', k, true)
  {
    UntouchedCounts(log, log', k);
    assert q.text[p.next..q.next] == "";
  }

  lemma CountsOfOne(log: Log, e: Event, k: int)
    ensures DtmfFor(log + [e], k)
            == DtmfFor(log, k)
               + if e.Request? && e.command.SendDtmf? && e.command.index == k then [e.command.key] else ""
    ensures TimersFor(log + [e], k) == TimersFor(log, k) + if e == PauseTimer(k) then 1 else 0
  {}

  lemma KeysOfOne(c: char)
    ensures DtmfKeys([c]) == if IsDtmfKey(c) then [c] else ""
    ensures Pauses([c]) == if IsPauseKey(c) then 1 else 0
  {
    assert [c][..0] == "" && DtmfKeys("") == "" && Pauses("") == 0;
  }

  /** What one character asks for is what is counted. */
  lemma CharCounts(c: char, slot: int, k: int, env: Env, log: Log)
    ensures var mid := log + CharEvents(c, slot, k, env, |log|);
            && DtmfFor(mid, k) == DtmfFor(log, k) + DtmfKeys([c])
            && TimersFor(mid, k) == TimersFor(log, k) + if env.handler then Pauses([c]) else 0
  {
    KeysOfOne(c);
    var sent := CharEvents(c, slot, k, env, |log|);
    if sent == [] {
      assert log + sent == log;
    } else {
      CountsOfOne(log, sent[0], k);
    }
  }

  /** One step of the automaton plays exactly the character at the cursor. */
  lemma PlayPlays(pd: PostDial, slot: int, env: Env, log: Log, k: int)
    requires pd.next <= |pd.text|
    ensures Played(pd, Advance(pd), log, Play(pd, slot, k, env, log), k, env.handler)
  {
    if Ready(pd) {
      var c := pd.text[pd.next];
      var mid := log + CharEvents(c, slot, k, env, |log|);
      assert pd.text[pd.next..pd.next + 1] == [c];
      CharCounts(c, slot, k, env, log);
      UntouchedCounts(mid, Play(pd, slot, k, env, log), k);
    } else {
      PlayedFrame(pd, Advance(pd), log, log, k);
    }
  }

  /** ... and plays nothing on any other connection. */
  lemma PlayElsewhere(pd: PostDial, slot: int, index: int, env: Env, log: Log, k: int)
    requires index != k
    ensures Untouched(log, Play(pd, slot, index, env, log), k)
  {}

  lemma ExecutePlays(s: Control, slot: int, id: int, env: Env, k: int)
    requires Coherent(s.table) && k in s.table && s.table[k].postDial.next <= |s.table[k].postDial.text|
    ensures var s' := ExecutePostDial(s, slot, id, env);
            k in s'.table && Played(s.table[k].postDial, s'.table[k].postDial, s.log, s'.log, k, env.handler)
  {
    FindIsLookup(s.table, id);
    var pd := s.table[k].postDial;
    if id == k {
      PlayPlays(pd, slot, env, s.log, k);
    } else {
      if id in s.table { PlayElsewhere(s.table[id].postDial, slot, id, env, s.log, k); }
      PlayedFrame(pd, pd, s.log, ExecutePostDial(s, slot, id, env).log, k);
    }
  }

  lemma MarkOnePlays(s: Control, slot: int, call: Listed, env: Env, k: int)
    requires Coherent(s.table) && k in s.table && s.table[k].postDial.next <= |s.table[k].postDial.text|
    ensures var s' := MarkOne(s, slot, call, env);
            k in s'.table && Played(s.table[k].postDial, s'.table[k].postDial, s.log, s'.log, k, env.handler)
  {
    FindIsLookup(s.table, call.index);
    var pd := s.table[k].postDial;
    PlayedFrame(pd, pd, s.log, s.log, k);
    var i := call.index;
    if i in s.table && IsConnectedOut(s.table[i].report.state, call.report.state) {
      var c := s.table[i].(flag := true, index := i, number := call.number, report := call.report);
      var armed := s.(table := s.table[i := c.(postDial := Arm(c.postDial, s.pending))], pending := "");
      var pd1 := armed.table[k].postDial;
      PlayedFrame(pd, pd1, s.log, s.log, k);
      ExecutePlays(armed, slot, i, env, k);
      var s' := ExecutePostDial(armed, slot, i, env);
      PlayedCompose(pd, pd1, s'.table[k].postDial, s.log, armed.log, s'.log, k, true, env.handler);
    }
  }

  lemma {:induction false} MarkAllPlays(s: Control, slot: int, calls: seq<Listed>, env: Env, k: int)
    requires Coherent(s.table) && k in s.table && s.table[k].postDial.next <= |s.table[k].postDial.text|
    ensures var s' := MarkAll(s, slot, calls, env);
            k in s'.table && Played(s.table[k].postDial, s'.table[k].postDial, s.log, s'.log, k, env.handler)
    decreases calls
  {
    var pd := s.table[k].postDial;
    if calls == [] {
      PlayedFrame(pd, pd, s.log, s.log, k);
    } else {
      var m := MarkOne(s, slot, calls[0], env);
      MarkOneEffect(s, slot, calls[0], env);
      MarkOnePlays(s, slot, calls[0], env, k);
      MarkAllPlays(m, slot, calls[1..], env, k);
      var s' := MarkAll(m, slot, calls[1..], env);
      PlayedCompose(pd, m.table[k].postDial, s'.table[k].postDial, s.log, m.log, s'.log, k, env.handler, env.handler);
    }
  }

  lemma SweptPlays(kind: Kind, s: Control, slot: int, calls: seq<Listed>, env: Env, k: int)
    requires k in Update(kind, s, slot, calls, env).table
    ensures var m := MarkAll(s, slot, calls, env);
            var s' := Update(kind, s, slot, calls, env);
            k in m.table && s'.table[k].postDial == m.table[k].postDial && Untouched(m.log, s'.log, k)
  {}

  lemma UpdatePlays(kind: Kind, s: Control, slot: int, calls: seq<Listed>, env: Env, k: int)
    requires Coherent(s.table) && k in s.table && s.table[k].postDial.next <= |s.table[k].postDial.text|
    requires k in Update(kind, s, slot, calls, env).table
    ensures var s' := Update(kind, s, slot, calls, env);
            Played(s.table[k].postDial, s'.table[k].postDial, s.log, s'.log, k, env.handler)
  {
    var m := MarkAll(s, slot, calls, env);
    var s' := Update(kind, s, slot, calls, env);
    var was, pd := s.table[k].postDial, m.table[k].postDial;
    MarkAllPlays(s, slot, calls, env, k);
    SweptPlays(kind, s, slot, calls, env, k);
    PlayedFrame(pd, pd, m.log, s'.log, k);
    PlayedCompose(was, pd, pd, s.log, m.log, s'.log, k, env.handler, true);
  }

  lemma UserStepPlays(s: Control, s': Control, k: int)
    requires UserStep(s, s') && k in s.table && s.table[k].postDial.next <= |s.table[k].postDial.text|
    ensures Played(s.table[k].postDial, s'.table[k].postDial, s.log, s'.log, k, true)
  {
    forall i | |s.log| <= i < |s'.log| ensures !Touches(s'.log[i], k) {
      assert IsUserEvent(s'.log[i]);
    }
    PlayedFrame(s.table[k].postDial, s'.table[k].postDial, s.log, s'.log, k);
  }

  lemma ProceedPlays(s: Control, who: CallerInfo, proceed: bool, env: Env, k: int)
    requires Coherent(s.table) && k in s.table && s.table[k].postDial.next <= |s.table[k].postDial.text|
    ensures var s' := PostDialProceed(s, who, proceed, env).0;
            k in s'.table && Played(s.table[k].postDial, s'.table[k].postDial, s.log, s'.log, k, env.handler)
  {
    var pd := s.table[k].postDial;
    FindIsLookup(s.table, who.index);
    if proceed && who.index in s.table {
      ExecutePlays(s, who.slotId, who.index, env, k);
    } else {
      PlayedFrame(pd, pd, s.log, s.log, k);
      PlayedFrame(pd, pd.(state := Canceled), s.log, s.log, k);
    }
  }

  lemma CanceledStays(p: PostDial, q: PostDial, log: Log, log': Log, k: int, handlers: bool)
    requires Played(p, q, log, log', k, handlers) && p.state == Canceled
    ensures q.state == Canceled && q.next == p.next
    ensures DtmfFor(log', k) == DtmfFor(log, k) && TimersFor(log', k) == TimersFor(log, k)
  {
    assert q.text[p.next..q.next] == "";
  }

  /** Entry `k` now has the post-dial part `pd`; no other entry and nothing else about it changes. */
  ghost predicate OnlyPostDial(t: Table, t': Table, k: int, pd: PostDial)
    requires k in t
  {
    && t'.Keys == t.Keys && (forall j | j in t && j != k :: t'[j] == t[j])
    && t'[k].postDial == pd && t'[k].(postDial := t[k].postDial) == t[k]
  }

  /** A refusal cancels the call: its string and cursor stay, nothing is sent, and nothing else changes. */
  lemma RefusalCancels(s: Control, who: CallerInfo, env: Env)
    requires Coherent(s.table) && who.index in s.table
    ensures var (s', ret) := PostDialProceed(s, who, false, env);
            && s' == s.(table := s'.table) && ret == Success
            && who.index in s'.table && s'.table[who.index].postDial.state == Canceled
            && OnlyPostDial(s.table, s'.table, who.index, s.table[who.index].postDial.(state := Canceled))
  {
    FindIsLookup(s.table, who.index);
  }

  /** What one character asks of the network and the timers, and tells the call manager, with `left` behind it. */
  ghost predicate Spoken(added: Log, c: char, left: string, slot: int, k: int, result: Ret, handler: bool) {
    if '0' <= c <= '9' || 'A' <= c <= 'D' || c == '*' || c == '#' then
      added == [Request(SendDtmf(slot, c, k), result), PostDialChar(c)]
    else if c == ',' then added == if handler then [PauseTimer(k)] else []
    else if c == ';' then added == [PostDialDelay(left)]
    else added == [PostDialChar(c)]
  }

  /** The state after a character: waiting for the user after ';', for the timer after ',', else started. */
  ghost predicate StateFits(state: PostDialState, c: char) {
    state == if c == ';' then Delay else if c == ',' then Pause else Started
  }

  /** One step of call `k`: a ready call moves on by exactly one character, which is sent and told as it asks; one at
      its end is complete; a cancelled one stays. */
  ghost predicate Stepped(s: Control, s': Control, slot: int, k: int, env: Env)
    requires k in s.table
  {
    var pd := s.table[k].postDial;
    && k in s'.table && OnlyPostDial(s.table, s'.table, k, s'.table[k].postDial)
    && s'.(table := s.table, log := s.log) == s
    && s'.table[k].postDial.text == pd.text && s'.table[k].postDial.address == pd.address
    && s.log <= s'.log
    && if pd.state == Canceled then s' == s
       else if pd.next >= |pd.text| then
         s'.log == s.log && s'.table[k].postDial.next == pd.next && s'.table[k].postDial.state == Complete
       else
         && s'.table[k].postDial.next == pd.next + 1 && StateFits(s'.table[k].postDial.state, pd.text[pd.next])
         && Spoken(s'.log[|s.log|..], pd.text[pd.next], pd.text[pd.next + 1..], slot, k, env.results(|s.log|),
                   env.handler)
  }

  lemma PlaySpeaks(pd: PostDial, slot: int, k: int, env: Env, log: Log)
    requires pd.state != Canceled && pd.next < |pd.text|
    ensures var log' := Play(pd, slot, k, env, log);
            && log <= log' && StateFits(Advance(pd).state, pd.text[pd.next])
            && Spoken(log'[|log|..], pd.text[pd.next], pd.text[pd.next + 1..], slot, k, env.results(|log|), env.handler)
  {
    var c := pd.text[pd.next];
    var added := CharEvents(c, slot, k, env, |log|) + TellEvents(Advance(pd), c);
    assert Play(pd, slot, k, env, log) == log + added;
    assert Left(Advance(pd)) == pd.text[pd.next + 1..];
  }

  /** A timer steps the call it is for. */
  lemma TimerSteps(s: Control, slot: int, k: int, env: Env)
    requires Coherent(s.table) && k in s.table
    ensures Stepped(s, ExecutePostDial(s, slot, k, env), slot, k, env)
  {
    FindIsLookup(s.table, k);
    var pd := s.table[k].postDial;
    if pd.state != Canceled && pd.next < |pd.text| { PlaySpeaks(pd, slot, k, env, s.log); }
  }

  /** So does a user who lets it proceed. */
  lemma ProceedSteps(s: Control, who: CallerInfo, env: Env)
    requires Coherent(s.table) && who.index in s.table
    ensures Stepped(s, PostDialProceed(s, who, true, env).0, who.slotId, who.index, env)
    ensures PostDialProceed(s, who, true, env).1 == Success
  {
    FindIsLookup(s.table, who.index);
    TimerSteps(s, who.slotId, who.index, env);
  }

  /** Of an address the digits, '*', '#', '+' and 'N' are kept, in order, and nothing else. */
  lemma AddressKeyKept(a: string, c: char)
    ensures AddressKeys(a + [c])
            == if '0' <= c <= '9' || c == '*' || c == '#' || c == '+' || c == 'N' then AddressKeys(a) + [c]
               else AddressKeys(a)
  {
    assert (a + [c])[..|a|] == a;
  }

  /** Arming appends the number from its first pause or wait key on, and the address keys before it. */
  lemma ArmAppends(pd: PostDial, address: string, text: string)
    requires forall i | 0 <= i < |address| :: address[i] != ',' && address[i] != ';'
    requires text != "" ==> text[0] == ',' || text[0] == ';'
    ensures var armed := Arm(pd, address + text);
            && armed.text == pd.text + text && armed.address == pd.address + AddressKeys(address)
            && armed.next == pd.next && armed.state == pd.state
  {
    var number := address + text;
    var start := PostDialStart(number);
    assert forall i | 0 <= i < |address| :: number[i] == address[i];
    assert text != "" ==> number[|address|] == text[0];
    assert start == |address|;
    assert number[..|address|] == address && number[|address|..] == text;
  }

  /** Every operation of the run found an event handler for its timers. */
  ghost predicate HandlersPresent<E>(run: seq<(E, Env)>) {
    forall i | 0 <= i < |run| :: run[i].1.handler
  }

  /** Driven without cancellation, the cursor advances one character a step and stops at the end. */
  function Drive(pd: PostDial, steps: nat): PostDial
    decreases steps
  {
    if steps == 0 then pd else Drive(Advance(pd), steps - 1)
  }

  lemma {:induction false} DriveReachesEnd(pd: PostDial, steps: nat)
    requires pd.state != Canceled && pd.next <= |pd.text|
    ensures var q := Drive(pd, steps);
            && q.text == pd.text && q.state != Canceled
            && q.next == (if pd.next + steps <= |pd.text| then pd.next + steps else |pd.text|)
            && Left(q) == pd.text[q.next..]
            && (|pd.text| < pd.next + steps ==> q.state == Complete)
    decreases steps
  {
    if steps > 0 { DriveReachesEnd(Advance(pd), steps - 1); }
    if steps > 0 && pd.next == |pd.text| { DriveComplete(pd, steps); }
  }

  lemma {:induction false} DriveComplete(pd: PostDial, steps: nat)
    requires pd.state != Canceled && pd.next == |pd.text| && steps > 0
    ensures Drive(pd, steps) == pd.(state := Complete)
    decreases steps
  {
    if steps > 1 { DriveComplete(Advance(pd), steps - 1); }
  }
}
