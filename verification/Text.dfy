/** The string operations of the source: find, trim, split and decimal numbers. */
module Text {
  import opened Wrappers

  /** The position of the first pair of characters `c`, as of `{{` in a text. */
  function FindPair(s: string, c: char): (at: Option<nat>)
    ensures at.Some? ==> at.value + 1 < |s| && s[at.value] == c && s[at.value + 1] == c
    ensures at.Some? ==> NoPair(s[..at.value + 1], c)
    ensures at == None <==> NoPair(s, c)
  {
    if |s| < 2 then None
    else if s[0] == c && s[1] == c then Some(0)
    else
      var rest := FindPair(s[1..], c);
      assert s == [s[0]] + s[1..];
      PairInTail(s, c);
      if rest.Some? then
        PairInTail(s[..rest.value + 2], c);
        assert s[..rest.value + 2][1..] == s[1..][..rest.value + 1];
        Some(rest.value + 1)
      else None
  }

  predicate NoPair(s: string, c: char) {
    forall i {:trigger s[i]} :: 0 <= i < |s| - 1 ==> !(s[i] == c && s[i + 1] == c)
  }

  lemma PairInTail(s: string, c: char)
    requires |s| >= 2 && !(s[0] == c && s[1] == c)
    ensures NoPair(s, c) <==> NoPair(s[1..], c)
  {
    if NoPair(s[1..], c) {
      forall i {:trigger s[i]} | 0 <= i < |s| - 1
        ensures !(s[i] == c && s[i + 1] == c)
      {
        if i > 0 {
          assert s[1..][i - 1] == s[i] && s[1..][i] == s[i + 1];
        }
      }
    } else {
      var i :| 0 <= i < |s[1..]| - 1 && s[1..][i] == c && s[1..][i + 1] == c;
      assert s[i + 1] == c && s[i + 2] == c;
    }
  }

  lemma FindIsFirst(s: string, c: char, k: nat)
    requires k + 1 < |s| && s[k] == c && s[k + 1] == c && NoPair(s[..k + 1], c)
    ensures FindPair(s, c) == Some(k)
  {
    var at := FindPair(s, c);
    assert at.Some?;
  }

  lemma NoPairConcat(s: string, t: string, c: char)
    requires NoPair(s, c) && NoPair(t, c) && (s != [] ==> s[|s| - 1] != c)
    ensures NoPair(s + t, c)
  {
    forall i {:trigger (s + t)[i]} | 0 <= i < |s + t| - 1
      ensures !((s + t)[i] == c && (s + t)[i + 1] == c)
    {
      if i >= |s| {
        assert (s + t)[i] == t[i - |s|] && (s + t)[i + 1] == t[i - |s| + 1];
      } else {
        assert (s + t)[i] == s[i];
      }
    }
  }

  /** The first pair of `s + t` when `s` holds none and does not end with `c`. */
  lemma FindAfter(s: string, t: string, c: char)
    requires NoPair(s, c) && (s != [] ==> s[|s| - 1] != c)
    ensures FindPair(s + t, c) == match FindPair(t, c) case None => None case Some(k) => Some(|s| + k)
  {
    match FindPair(t, c)
    case None =>
      NoPairConcat(s, t, c);
    case Some(k) =>
      NoPairConcat(s, t[..k + 1], c);
      assert (s + t)[..|s| + k + 1] == s + t[..k + 1];
      FindIsFirst(s + t, c, |s| + k);
  }

  predicate IsSpace(c: char) {
    c == ' ' || c == '\t' || c == '\n' || c == '\r' || c == 0x0B as char || c == 0x0C as char
  }

  function TrimStart(s: string): string {
    if s != [] && IsSpace(s[0]) then TrimStart(s[1..]) else s
  }

  function TrimEnd(s: string): string {
    if s != [] && IsSpace(s[|s| - 1]) then TrimEnd(s[..|s| - 1]) else s
  }

  function Trim(s: string): string {
    TrimEnd(TrimStart(s))
  }

  predicate IsTrimmed(s: string) {
    s != [] ==> !IsSpace(s[0]) && !IsSpace(s[|s| - 1])
  }

  lemma {:induction false} TrimEndKeepsStart(s: string)
    requires s != [] && !IsSpace(s[0])
    ensures TrimEnd(s) != [] && TrimEnd(s)[0] == s[0]
    ensures !IsSpace(TrimEnd(s)[|TrimEnd(s)| - 1])
  {
    if IsSpace(s[|s| - 1]) {
      TrimEndKeepsStart(s[..|s| - 1]);
    }
  }

  lemma {:induction false} TrimIsTrimmed(s: string)
    ensures IsTrimmed(Trim(s))
  {
    var t := TrimStart(s);
    TrimStartStops(s);
    if t != [] {
      TrimEndKeepsStart(t);
    }
  }

  lemma {:induction false} TrimStartStops(s: string)
    ensures TrimStart(s) != [] ==> !IsSpace(TrimStart(s)[0])
  {
    if s != [] && IsSpace(s[0]) {
      TrimStartStops(s[1..]);
    }
  }

  /** Trimming undoes one space on either side. */
  lemma TrimSpaced(s: string)
    requires IsTrimmed(s)
    ensures Trim(" " + s + " ") == s
  {
    var spaced := " " + s + " ";
    assert spaced[1..] == s + " ";
    assert (s + " ")[..|s|] == s;
    if s == [] {
      assert (s + " ")[1..] == [];
      assert TrimStart(s + " ") == [];
    } else {
      assert TrimStart(s + " ") == s + " ";
      assert TrimEnd(s + " ") == TrimEnd(s) == s;
    }
  }

  lemma {:induction false} TrimKeepsNoPair(s: string, c: char)
    requires NoPair(s, c)
    ensures NoPair(TrimStart(s), c) && NoPair(TrimEnd(s), c)
  {
    if s != [] {
      if IsSpace(s[0]) {
        assert forall i :: 0 <= i < |s| - 1 ==> s[1..][i] == s[i + 1];
        TrimKeepsNoPair(s[1..], c);
      }
      if IsSpace(s[|s| - 1]) {
        assert forall i :: 0 <= i < |s| - 1 ==> s[..|s| - 1][i] == s[i];
        TrimKeepsNoPair(s[..|s| - 1], c);
      }
    }
  }

  /** The parts of a text between the characters `c`; one part when there is none. */
  function Split(s: string, c: char): (parts: seq<string>)
    ensures parts != []
  {
    if s == [] then [[]]
    else
      var rest := Split(s[1..], c);
      if s[0] == c then [[]] + rest
      else [[s[0]] + rest[0]] + rest[1..]
  }

  function Join(parts: seq<string>, c: char): string
    requires parts != []
  {
    if |parts| == 1 then parts[0] else parts[0] + [c] + Join(parts[1..], c)
  }

  lemma {:induction false} JoinSplit(s: string, c: char)
    ensures Join(Split(s, c), c) == s
  {
    if s != [] {
      JoinSplit(s[1..], c);
      var rest := Split(s[1..], c);
      if s[0] == c {
        assert ([[]] + rest)[1..] == rest;
      } else {
        var first := [s[0]] + rest[0];
        assert ([first] + rest[1..])[1..] == rest[1..];
      }
    }
  }

  predicate HasPrefix(s: string, prefix: string) {
    prefix <= s
  }

  lemma PrefixDrop(prefix: string, s: string)
    ensures HasPrefix(prefix + s, prefix) && (prefix + s)[|prefix|..] == s
  {
  }

  // ---- Decimal numbers ----

  predicate IsDigit(c: char) {
    '0' <= c <= '9'
  }

  function Digit(d: nat): (c: char)
    requires d < 10
    ensures IsDigit(c) && c as int - '0' as int == d
  {
    ('0' as int + d) as char
  }

  function Decimal(n: nat): (s: string)
    ensures s != [] && forall i :: 0 <= i < |s| ==> IsDigit(s[i])
  {
    if n < 10 then [Digit(n)] else Decimal(n / 10) + [Digit(n % 10)]
  }

  function DigitsValue(s: string): nat
    requires forall i :: 0 <= i < |s| ==> IsDigit(s[i])
  {
    if s == [] then 0
    else
      assert IsDigit(s[|s| - 1]);
      10 * DigitsValue(s[..|s| - 1]) + (s[|s| - 1] as int - '0' as int)
  }

  lemma {:induction false} DecimalValue(n: nat)
    ensures DigitsValue(Decimal(n)) == n
  {
    if n >= 10 {
      DecimalValue(n / 10);
      assert Decimal(n)[..|Decimal(n)| - 1] == Decimal(n / 10);
    } else {
      assert [Digit(n)][..0] == [];
    }
  }

  lemma DecimalInjective(m: nat, n: nat)
    requires Decimal(m) == Decimal(n)
    ensures m == n
  {
    DecimalValue(m);
    DecimalValue(n);
  }

  predicate AreDigits(s: string) {
    forall i :: 0 <= i < |s| ==> IsDigit(s[i])
  }

  /** A list index as the source parses it: digits after an optional plus sign,
      within 64 bits. */
  function ParseIndex(s: string): Option<nat> {
    var digits := if s != [] && s[0] == '+' then s[1..] else s;
    if digits == [] || !AreDigits(digits) then None
    else
      var value := DigitsValue(digits);
      if value < 0x1_0000_0000_0000_0000 then Some(value) else None
  }

  lemma ParseDecimal(n: nat)
    requires n < 0x1_0000_0000_0000_0000
    ensures ParseIndex(Decimal(n)) == Some(n)
  {
    DecimalValue(n);
    assert IsDigit(Decimal(n)[0]);
  }
}
