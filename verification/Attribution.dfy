/** Where the disconnect reason and message of a call come from, as a history of what was written for it. */
module Attribution {
  import opened CallTypes
  import opened OrderedKeys
  import opened CallTable

  /** What one operation writes for a call. A user always gives a reason, and may give a message with it; the network's
      reason and message are taken only while the call has no reason. */
  datatype Write =
    | NoWrite
    | ByUser(reason: Reason, given: Option<string>)
    | ByNetwork(reason: Reason, message: string)

  /** Reason and message after one write. */
  function Written(now: (Reason, string), w: Write): (Reason, string) {
    match w
    case NoWrite => now
    case ByUser(reason, given) => (reason, if given.Some? then given.value else now.1)
    case ByNetwork(reason, message) => if now.0 == Invalid then (reason, message) else now
  }

  function AllWritten(now: (Reason, string), ws: seq<Write>): (Reason, string)
    decreases ws
  {
    if ws == [] then now else AllWritten(Written(now, ws[0]), ws[1..])
  }

  function LastUserReason(ws: seq<Write>): Option<Reason>
    decreases ws
  {
    if ws == [] then None
    else
      var later := LastUserReason(ws[1..]);
      if later.Some? then later else if ws[0].ByUser? then Some(ws[0].reason) else None
  }

  function LastUserMessage(ws: seq<Write>): Option<string>
    decreases ws
  {
    if ws == [] then None
    else
      var later := LastUserMessage(ws[1..]);
      if later.Some? then later else if ws[0].ByUser? then ws[0].given else None
  }

  function FirstNetworkReason(ws: seq<Write>): Option<Reason>
    decreases ws
  {
    if ws == [] then None
    else if ws[0].ByNetwork? && ws[0].reason != Invalid then Some(ws[0].reason)
    else FirstNetworkReason(ws[1..])
  }

  /** The message of the network up to its first reason, as long as no user gave one: an answer without a reason
      leaves the question open, and a later answer overwrites its message. */
  function NetworkMessage(ws: seq<Write>): Option<string>
    decreases ws
  {
    if ws == [] || ws[0].ByUser? then None
    else if ws[0].ByNetwork? && ws[0].reason != Invalid then Some(ws[0].message)
    else
      var later := NetworkMessage(ws[1..]);
      if later.Some? || ws[0].NoWrite? then later else Some(ws[0].message)
  }

  /** The reason: what a user gave last, else the one there was, else the first one the network gave. */
  function AttributedReason(initial: Reason, ws: seq<Write>): Reason {
    var user, network := LastUserReason(ws), FirstNetworkReason(ws);
    if user.Some? then user.value
    else if initial != Invalid || network.None? then initial
    else network.value
  }

  /** The message: what a user gave last, else the one there was with a reason, else what the network gave. */
  function AttributedMessage(initial: (Reason, string), ws: seq<Write>): string {
    var user, network := LastUserMessage(ws), NetworkMessage(ws);
    if user.Some? then user.value
    else if initial.0 != Invalid || network.None? then initial.1
    else network.value
  }

  ghost predicate UsersGiveReasons(ws: seq<Write>) {
    forall i | 0 <= i < |ws| :: ws[i].ByUser? ==> ws[i].reason != Invalid
  }

  /** Writing one after the other comes to the attributed reason and message. */
  lemma {:induction false} WritesAttributed(now: (Reason, string), ws: seq<Write>)
    requires UsersGiveReasons(ws)
    ensures AllWritten(now, ws) == (AttributedReason(now.0, ws), AttributedMessage(now, ws))
    decreases ws
  {
    if ws != [] {
      assert UsersGiveReasons(ws[1..]);
      WritesAttributed(Written(now, ws[0]), ws[1..]);
    }
  }

  // ----- over a run

  /** What the operations of a run write for call `k`, when `write` is what each one writes. */
  function History<E>(
      s: Control, run: seq<(E, Env)>, step: (Control, E, Env) -> Control, write: (Control, E, int) -> Write, k: int):
      seq<Write>
    decreases run
  {
    if run == [] then []
    else
      var (e, env) := run[0];
      [write(s, e, k)] + History(step(s, e, env), run[1..], step, write, k)
  }

  /** Call `k` stays in the table from the start of the run to its end. */
  ghost predicate Alive<E>(s: Control, run: seq<(E, Env)>, step: (Control, E, Env) -> Control, k: int)
    decreases run
  {
    k in s.table && (run != [] ==> Alive(step(s, run[0].0, run[0].1), run[1..], step, k))
  }

  // ----- the report that ends a call

  /** A vanished entry is among the reports of an update. */
  lemma GoneIsReported(kind: Kind, t: Table, ks: set<int>, k: int)
    requires k in ks && ks <= t.Keys
    ensures DisconnectReport(kind, t[k]) in Disconnections(kind, t, SortedKeys(ks))
  {
    var sorted := SortedKeys(ks);
    assert k in sorted;
    var i :| 0 <= i < |sorted| && sorted[i] == k;
    assert Disconnections(kind, t, sorted)[i] == DisconnectReport(kind, t[k]);
  }

  /** When all calls end, every entry is reported. */
  lemma AllAreReported(kind: Kind, t: Table, slot: int, k: int)
    requires k in t
    ensures DisconnectReport(kind, t[k]).(accountId := slot) in HangUpVector(kind, t, slot)
  {
    var ks := SortedKeys(t.Keys);
    assert k in ks;
    var i :| 0 <= i < |ks| && ks[i] == k;
    var rs := HangUpReports(kind, t, slot, t.Keys);
    assert rs[i] == DisconnectReport(kind, t[k]).(accountId := slot);
    assert rs[i] in rs;
  }
}
