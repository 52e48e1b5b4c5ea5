/** The listings of stored records (swale/src/records.rs): all of them, or the last. */
module Listing {
  import opened Wrappers

  /** A stored value, and a listed record. */
  datatype Stored<B> = Stored(key: string, bytes: B)

  datatype Entry<T> = Entry(key: string, record: T)

  /** The entries whose values parse; the others are skipped. */
  function Parsed<B, T>(stored: seq<Stored<B>>, parse: B -> Option<T>): seq<Entry<T>> {
    if stored == [] then []
    else EntryOf(stored[0], parse) + Parsed(stored[1..], parse)
  }

  function EntryOf<B, T>(s: Stored<B>, parse: B -> Option<T>): seq<Entry<T>> {
    match parse(s.bytes)
    case Some(record) => [Entry(s.key, record)]
    case None => []
  }

  function Reversed<T>(s: seq<T>): (r: seq<T>)
    ensures |r| == |s| && forall i :: 0 <= i < |s| ==> r[i] == s[|s| - 1 - i]
  {
    if s == [] then [] else Reversed(s[1..]) + [s[0]]
  }

  lemma {:induction false} ParsedConcat<B, T>(a: seq<Stored<B>>, b: seq<Stored<B>>, parse: B -> Option<T>)
    ensures Parsed(a + b, parse) == Parsed(a, parse) + Parsed(b, parse)
  {
    if a == [] {
      assert a + b == b;
    } else {
      assert (a + b)[1..] == a[1..] + b;
      ParsedConcat(a[1..], b, parse);
    }
  }

  lemma ParsedOne<B, T>(s: Stored<B>, parse: B -> Option<T>)
    ensures Parsed([s], parse) == EntryOf(s, parse)
  {
    assert [s][1..] == [];
  }

  /** The records of the stored values, in key order. */
  method Scan<B, T>(stored: seq<Stored<B>>, parse: B -> Option<T>) returns (records: seq<Entry<T>>)
    ensures records == Parsed(stored, parse)
  {
    records := [];
    for i := 0 to |stored|
      invariant records == Parsed(stored[..i], parse)
    {
      assert stored[..i + 1] == stored[..i] + [stored[i]];
      ParsedConcat(stored[..i], [stored[i]], parse);
      ParsedOne(stored[i], parse);
      records := records + EntryOf(stored[i], parse);
    }
    assert stored[..|stored|] == stored;
  }

  /** A backward read that stops at `limit` records gives the end of the whole listing,
      however many values it skips. */
  method ScanLast<B, T>(stored: seq<Stored<B>>, parse: B -> Option<T>, limit: nat) returns (records: seq<Entry<T>>)
    ensures var all := Parsed(stored, parse);
            records == if |all| <= limit then all else all[|all| - limit..]
  {
    records := [];
    var i := |stored|;
    assert stored[i..] == [];
    while i > 0 && |records| < limit
      invariant 0 <= i <= |stored| && |records| <= limit
      invariant Reversed(records) == Parsed(stored[i..], parse)
    {
      i := i - 1;
      ghost var before := records;
      assert stored[i..] == [stored[i]] + stored[i + 1..];
      records := records + EntryOf(stored[i], parse);
      assert Reversed(records) == EntryOf(stored[i], parse) + Reversed(before);
    }
    assert stored == stored[..i] + stored[i..];
    ParsedConcat(stored[..i], stored[i..], parse);
    records := Reversed(records);
  }
}
