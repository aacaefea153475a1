/** Mapping a network disconnect reason through configured entries of the form `reason|message|reason...`. */
module ReasonMapping {
  import opened OrderedKeys

  // ----- tokens

  /** The length of the token at the start of `s`. */
  function TokenLength(s: string): (n: nat)
    ensures n <= |s| && (forall i | 0 <= i < n :: s[i] != '|') && (n < |s| ==> s[n] == '|')
  {
    if s == "" || s[0] == '|' then 0 else 1 + TokenLength(s[1..])
  }

  /** The tokens of `s`: its maximal non-empty parts without '|'. */
  function Tokens(s: string): seq<string> {
    if s == "" then []
    else if s[0] == '|' then Tokens(s[1..])
    else [s[..TokenLength(s)]] + Tokens(s[TokenLength(s)..])
  }

  predicate IsToken(t: string) {
    t != "" && '|' !in t
  }

  lemma {:induction false} TokensAreTokens(s: string)
    ensures forall i | 0 <= i < |Tokens(s)| :: IsToken(Tokens(s)[i])
    decreases s
  {
    if s != "" {
      if s[0] == '|' {
        TokensAreTokens(s[1..]);
      } else {
        var n := TokenLength(s);
        assert forall c | c in s[..n] :: c != '|';
        TokensAreTokens(s[n..]);
      }
    }
  }

  function Join(ts: seq<string>): string {
    if ts == [] then "" else ts[0] + "|" + Join(ts[1..])
  }

  lemma {:induction false} TokenLengthIs(t: string, rest: string)
    requires '|' !in t && (rest == "" || rest[0] == '|')
    ensures TokenLength(t + rest) == |t|
    decreases t
  {
    if t == "" {
      assert t + rest == rest;
    } else {
      assert t[0] in t;
      assert (t + rest)[1..] == t[1..] + rest;
      TokenLengthIs(t[1..], rest);
    }
  }

  /** Splitting undoes joining. */
  lemma {:induction false} SplitJoin(ts: seq<string>)
    requires forall i | 0 <= i < |ts| :: IsToken(ts[i])
    ensures Tokens(Join(ts)) == ts
    decreases ts
  {
    if ts != [] {
      var t, rest := ts[0], "|" + Join(ts[1..]);
      assert Join(ts) == t + rest;
      TokenLengthIs(t, rest);
      assert t[0] in t;
      assert (t + rest)[..|t|] == t && (t + rest)[|t|..] == rest;
      assert rest[1..] == Join(ts[1..]);
      SplitJoin(ts[1..]);
    }
  }

  method SkipDelimiters(text: string, start: nat) returns (i: nat)
    requires start <= |text|
    ensures start <= i <= |text| && (i < |text| ==> text[i] != '|')
    ensures Tokens(text[start..]) == Tokens(text[i..])
  {
    i := start;
    while i < |text| && text[i] == '|'
      invariant start <= i <= |text|
      invariant Tokens(text[start..]) == Tokens(text[i..])
    {
      assert text[i..][1..] == text[i + 1..];
      i := i + 1;
    }
  }

  method TokenEnd(text: string, start: nat) returns (j: nat)
    requires start <= |text|
    ensures start <= j <= |text| && (j < |text| ==> text[j] == '|')
    ensures j - start == TokenLength(text[start..])
  {
    j := start;
    while j < |text| && text[j] != '|'
      invariant start <= j <= |text|
      invariant TokenLength(text[start..]) == j - start + TokenLength(text[j..])
    {
      assert text[j..][1..] == text[j + 1..];
      j := j + 1;
    }
  }

  /** `strtok_r` on the text from `start`: the next token, and where the following search starts. */
  method NextToken(text: string, start: nat) returns (token: Option<string>, next: nat)
    requires start <= |text|
    ensures start <= next <= |text|
    ensures token.None? <==> Tokens(text[start..]) == []
    ensures token.Some? ==> start < next
                            && Tokens(text[start..]) == [token.value] + Tokens(text[next..])
  {
    var i := SkipDelimiters(text, start);
    if i == |text| {
      return None, i;
    }
    var j := TokenEnd(text, i);
    assert text[i..][..j - i] == text[i..j] && text[i..][j - i..] == text[j..];
    assert text[i..][0] == text[i];
    token := Some(text[i..j]);
    next := if j < |text| then j + 1 else j;
    if j < |text| { assert text[j..][1..] == text[next..]; }
  }

  // ----- numbers

  predicate IsDigit(c: char) { '0' <= c <= '9' }

  predicate IsSpace(c: char) { c == ' ' || '\t' <= c <= '\r' }

  function Digits(s: string, acc: nat): nat
    decreases s
  {
    if s == "" || !IsDigit(s[0]) then acc else Digits(s[1..], 10 * acc + (s[0] as int - '0' as int))
  }

  /** `atoi`: leading blanks, a sign, then digits up to the first other character. */
  function Atoi(s: string): int {
    if s == "" then 0
    else if IsSpace(s[0]) then Atoi(s[1..])
    else if s[0] == '-' then 0 - Digits(s[1..], 0)
    else if s[0] == '+' then Digits(s[1..], 0)
    else Digits(s, 0)
  }

  function DigitOf(n: nat): char
    requires n < 10
  {
    "0123456789"[n]
  }

  /** A number as it is written. */
  function Decimal(n: nat): string {
    if n < 10 then [DigitOf(n)] else Decimal(n / 10) + [DigitOf(n % 10)]
  }

  lemma OneDigit(n: nat, rest: string, acc: nat)
    requires n < 10
    ensures Digits([DigitOf(n)] + rest, acc) == Digits(rest, 10 * acc + n)
  {
    assert ([DigitOf(n)] + rest)[1..] == rest;
  }

  lemma {:induction false} DigitsReadDecimal(n: nat, rest: string)
    ensures Digits(Decimal(n) + rest, 0) == Digits(rest, n)
    decreases n
  {
    if n < 10 {
      OneDigit(n, rest, 0);
    } else {
      var last := [DigitOf(n % 10)] + rest;
      assert Decimal(n) + rest == Decimal(n / 10) + last;
      DigitsReadDecimal(n / 10, last);
      OneDigit(n % 10, rest, n / 10);
    }
  }

  lemma {:induction false} DecimalStarts(n: nat)
    ensures Decimal(n) != "" && '0' <= Decimal(n)[0] <= '9'
    decreases n
  {
    if n >= 10 { DecimalStarts(n / 10); }
  }

  /** No digit follows. */
  predicate EndsNumber(rest: string) {
    rest == "" || !('0' <= rest[0] <= '9')
  }

  lemma {:induction false} AtoiSkips(blanks: string, text: string)
    requires forall i | 0 <= i < |blanks| :: blanks[i] == ' ' || '\t' <= blanks[i] <= '\r'
    ensures Atoi(blanks + text) == Atoi(text)
    decreases blanks
  {
    if blanks == "" {
      assert blanks + text == text;
    } else {
      assert (blanks + text)[1..] == blanks[1..] + text;
      AtoiSkips(blanks[1..], text);
    }
  }

  lemma AtoiOfSigned(n: nat, rest: string)
    requires EndsNumber(rest)
    ensures Atoi(Decimal(n) + rest) == n
    ensures Atoi("+" + (Decimal(n) + rest)) == n
    ensures Atoi("-" + (Decimal(n) + rest)) == 0 - n
  {
    var text := Decimal(n) + rest;
    DecimalStarts(n);
    DigitsReadDecimal(n, rest);
    assert Digits(rest, n) == n;
    assert text[0] == Decimal(n)[0];
    assert ("+" + text)[1..] == text && ("-" + text)[1..] == text;
  }

  /** `atoi` reads back what is written: after any blanks, with any sign, whatever follows the digits. */
  lemma AtoiReadsBack(blanks: string, n: nat, rest: string)
    requires forall i | 0 <= i < |blanks| :: blanks[i] == ' ' || '\t' <= blanks[i] <= '\r'
    requires EndsNumber(rest)
    ensures Atoi(blanks + (Decimal(n) + rest)) == n
    ensures Atoi(blanks + ("+" + (Decimal(n) + rest))) == n
    ensures Atoi(blanks + ("-" + (Decimal(n) + rest))) == 0 - n
  {
    var text := Decimal(n) + rest;
    AtoiOfSigned(n, rest);
    AtoiSkips(blanks, text);
    AtoiSkips(blanks, "+" + text);
    AtoiSkips(blanks, "-" + text);
  }

  /** Text that starts with a letter reads as 0. */
  lemma AtoiOfOther(text: string)
    requires text == "" || 'A' <= text[0]
    ensures Atoi(text) == 0
  {}

  // ----- the mapping

  datatype Details = Details(reason: int, message: string)

  /** The entry is for this reason and has a message. */
  predicate Applies(entry: string, reason: int) {
    |Tokens(entry)| >= 2 && Atoi(Tokens(entry)[0]) == reason
  }

  /** The first token whose number is not `key`, else `key`. */
  function FirstOther(ts: seq<string>, key: int): int {
    if ts == [] then key else if Atoi(ts[0]) != key then Atoi(ts[0]) else FirstOther(ts[1..], key)
  }

  lemma {:induction false} FirstOtherIsFirst(ts: seq<string>, key: int)
    ensures FirstOther(ts, key) == key <==> forall i | 0 <= i < |ts| :: Atoi(ts[i]) == key
    ensures forall i | 0 <= i < |ts| && Atoi(ts[i]) != key && (forall j | 0 <= j < i :: Atoi(ts[j]) == key) ::
              FirstOther(ts, key) == Atoi(ts[i])
    decreases ts
  {
    if ts != [] && Atoi(ts[0]) == key {
      FirstOtherIsFirst(ts[1..], key);
      forall i | 0 <= i < |ts| && Atoi(ts[i]) != key && (forall j | 0 <= j < i :: Atoi(ts[j]) == key)
        ensures FirstOther(ts, key) == Atoi(ts[i])
      {
        assert ts[i] == ts[1..][i - 1];
        forall j | 0 <= j < i - 1 ensures Atoi(ts[1..][j]) == key { assert ts[1..][j] == ts[j + 1]; }
      }
    }
  }

  lemma {:induction false} DecimalIsToken(n: nat)
    ensures IsToken(Decimal(n))
    decreases n
  {
    if n >= 10 {
      DecimalIsToken(n / 10);
      assert DigitOf(n % 10) != '|';
    }
  }

  lemma DecimalReads(n: nat)
    ensures Atoi(Decimal(n)) == n
  {
    AtoiOfSigned(n, "");
    assert Decimal(n) + "" == Decimal(n);
  }

  /** What an entry that applies makes of the details. */
  function Applied(entry: string, details: Details): Details
    requires Applies(entry, details.reason)
  {
    Details(FirstOther(Tokens(entry)[2..], details.reason), Tokens(entry)[1])
  }

  function Decimals(ns: seq<nat>): seq<string> {
    seq(|ns|, i requires 0 <= i < |ns| => Decimal(ns[i]))
  }

  /** An entry as it is written: a number, a message, and further numbers. */
  function Written(key: nat, message: string, others: seq<nat>): string {
    Join([Decimal(key), message] + Decimals(others))
  }

  lemma DecimalsRead(ns: seq<nat>)
    ensures forall i | 0 <= i < |ns| :: IsToken(Decimals(ns)[i]) && Atoi(Decimals(ns)[i]) == ns[i]
  {
    forall i | 0 <= i < |ns| ensures IsToken(Decimals(ns)[i]) && Atoi(Decimals(ns)[i]) == ns[i] {
      DecimalIsToken(ns[i]);
      DecimalReads(ns[i]);
    }
  }

  lemma WrittenTokens(key: nat, message: string, others: seq<nat>)
    requires IsToken(message)
    ensures Tokens(Written(key, message, others)) == [Decimal(key), message] + Decimals(others)
  {
    DecimalIsToken(key);
    DecimalsRead(others);
    SplitJoin([Decimal(key), message] + Decimals(others));
  }

  lemma FirstOtherNumber(ns: seq<nat>, key: nat)
    ensures (forall i | 0 <= i < |ns| :: ns[i] == key) ==> FirstOther(Decimals(ns), key) == key
    ensures forall i | 0 <= i < |ns| && ns[i] != key && (forall j | 0 <= j < i :: ns[j] == key) ::
              FirstOther(Decimals(ns), key) == ns[i]
  {
    var ts := Decimals(ns);
    DecimalsRead(ns);
    FirstOtherIsFirst(ts, key);
    forall i | 0 <= i < |ns| && ns[i] != key && (forall j | 0 <= j < i :: ns[j] == key)
      ensures FirstOther(ts, key) == ns[i]
    {
      assert Atoi(ts[i]) != key && forall j | 0 <= j < i :: Atoi(ts[j]) == key;
    }
  }

  /** Such an entry applies exactly to the reason it starts with; it gives its message, and the first further number
      that is not the reason, if there is one. */
  lemma WrittenApplies(key: nat, message: string, others: seq<nat>, details: Details)
    requires IsToken(message)
    ensures Applies(Written(key, message, others), details.reason) <==> details.reason == key
    ensures details.reason == key ==>
              var result := Applied(Written(key, message, others), details);
              && result.message == message
              && ((forall i | 0 <= i < |others| :: others[i] == key) ==> result.reason == key)
              && forall i | 0 <= i < |others| && others[i] != key && (forall j | 0 <= j < i :: others[j] == key) ::
                   result.reason == others[i]
  {
    var ts := [Decimal(key), message] + Decimals(others);
    WrittenTokens(key, message, others);
    DecimalReads(key);
    assert ts[2..] == Decimals(others);
    FirstOtherNumber(others, key);
  }

  /** An entry without a message applies to nothing. */
  lemma NoMessageNoEntry(key: nat, reason: int)
    ensures !Applies("", reason) && !Applies(Decimal(key), reason) && !Applies(Join([Decimal(key)]), reason)
  {
    DecimalIsToken(key);
    SplitJoin([Decimal(key)]);
    TokenLengthIs(Decimal(key), "");
    assert Decimal(key) + "" == Decimal(key);
  }

  /** One entry: `flag` tells whether it was applied. */
  method ApplyEntry(entry: string, details: Details) returns (result: Details, flag: bool)
    ensures flag <==> Applies(entry, details.reason)
    ensures result == if flag then Applied(entry, details) else details
  {
    result, flag := details, false;
    var ptr, p := NextToken(entry, 0);
    assert entry[0..] == entry;
    if ptr == None {
      return;
    }
    var tmpReason := Atoi(ptr.value);
    ghost var ts := Tokens(entry);
    while tmpReason == result.reason
      invariant p <= |entry|
      invariant flag ==> |ts| >= 2 && details.reason == tmpReason && result.message == ts[1]
      invariant flag ==> FirstOther(ts[2..], tmpReason)
                         == if result.reason == tmpReason then FirstOther(Tokens(entry[p..]), tmpReason)
                            else result.reason
      invariant !flag ==> result == details && Tokens(entry[p..]) == ts[1..]
      decreases |entry| - p
    {
      ghost var before := Tokens(entry[p..]);
      ptr, p := NextToken(entry, p);
      if ptr == None {
        break;
      }
      assert before[0] == ptr.value && before[1..] == Tokens(entry[p..]);
      if !flag {
        result := result.(message := ptr.value);
        flag := true;
        assert ts[1..][0] == ts[1] && ts[1..][1..] == ts[2..];
      } else {
        result := result.(reason := Atoi(ptr.value));
      }
    }
  }

  /** The mapped details: only the first entry that applies counts; without one nothing changes. */
  method MapReason(entries: seq<string>, details: Details) returns (result: Details)
    ensures (forall i | 0 <= i < |entries| :: !Applies(entries[i], details.reason)) ==> result == details
    ensures forall i | 0 <= i < |entries| && Applies(entries[i], details.reason)
                       && (forall j | 0 <= j < i :: !Applies(entries[j], details.reason)) ::
              result == Applied(entries[i], details)
  {
    result := details;
    var i := 0;
    while i < |entries|
      invariant 0 <= i <= |entries| && result == details
      invariant forall j | 0 <= j < i :: !Applies(entries[j], details.reason)
    {
      var flag;
      result, flag := ApplyEntry(entries[i], result);
      if flag {
        return;
      }
      i := i + 1;
    }
  }
}
