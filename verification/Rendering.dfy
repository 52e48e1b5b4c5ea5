/**
 What a parameter renders to, over its text: a template is the text with the value of
 each reference in its place, and a parameter tree keeps its shape and its keys.
 */
module Rendering {
  import opened Wrappers
  import opened Json
  import opened Text
  import opened Templates
  import opened Params
  import I = TaskInput

  // ---- Paths into a value ----

  /** The numeral of `i`, with leading zeros and a plus sign or without. */
  ghost predicate IsPosition(part: string, i: nat) {
    i < 0x1_0000_0000_0000_0000
    && exists zeros: nat :: part == Zeros(zeros) + Decimal(i) || part == "+" + (Zeros(zeros) + Decimal(i))
  }

  function Zeros(k: nat): string {
    seq(k, _ => '0')
  }

  /** `inner` is the first member with the key, or the item at the position. */
  ghost predicate IsPart(value: Value, part: string, inner: Value) {
    || (value.Object? && IsFirst(value.members, part, inner))
    || (value.Array? && exists i :: 0 <= i < |value.items| && value.items[i] == inner && IsPosition(part, i))
  }

  ghost predicate IsFirst(members: seq<Field>, key: string, inner: Value) {
    exists i :: 0 <= i < |members| && members[i] == Field(key, inner)
                && forall j :: 0 <= j < i ==> members[j].key != key
  }

  /** The path leads from `value` to `to`, part by part. */
  ghost predicate LeadsTo(value: Value, path: seq<string>, to: Value)
    decreases |path|
  {
    if path == [] then value == to else exists inner :: IsPart(value, path[0], inner) && LeadsTo(inner, path[1..], to)
  }

  lemma OneMoreDigit(zeros: nat, value: nat, d: nat)
    requires d < 10
    ensures exists more: nat :: Zeros(zeros) + Decimal(value) + [Digit(d)] == Zeros(more) + Decimal(10 * value + d)
  {
    if value == 0 {
      assert Zeros(zeros) + Decimal(0) + [Digit(d)] == Zeros(zeros + 1) + Decimal(d) by {
        assert Decimal(0) == [Digit(0)] == "0";
      }
    } else {
      assert Decimal(10 * value + d) == Decimal(value) + [Digit(d)] by {
        assert (10 * value + d) / 10 == value && (10 * value + d) % 10 == d;
      }
      assert Zeros(zeros) + Decimal(value) + [Digit(d)] == Zeros(zeros) + Decimal(10 * value + d);
    }
  }

  lemma {:induction false} DigitsAreNumeral(digits: string)
    requires digits != [] && forall i :: 0 <= i < |digits| ==> IsDigit(digits[i])
    ensures exists zeros: nat :: digits == Zeros(zeros) + Decimal(DigitsValue(digits))
    decreases |digits|
  {
    hide Decimal;
    var front, last := digits[..|digits| - 1], digits[|digits| - 1];
    assert IsDigit(last);
    var d := last as int - '0' as int;
    assert digits == front + [Digit(d)];
    if front == [] {
      assert digits == Zeros(0) + Decimal(d) by {
        SmallDecimal(d);
      }
      assert DigitsValue(digits) == d;
    } else {
      DigitsAreNumeral(front);
      var zeros: nat :| front == Zeros(zeros) + Decimal(DigitsValue(front));
      OneMoreDigit(zeros, DigitsValue(front), d);
    }
  }

  lemma SmallDecimal(d: nat)
    requires d < 10
    ensures Decimal(d) == [Digit(d)]
  {
  }

  lemma NumeralValue(zeros: nat, i: nat)
    ensures var digits := Zeros(zeros) + Decimal(i);
            digits != [] && (forall k :: 0 <= k < |digits| ==> IsDigit(digits[k])) && DigitsValue(digits) == i
    decreases i
  {
    var digits := Zeros(zeros) + Decimal(i);
    var front := digits[..|digits| - 1];
    if i < 10 {
      assert front == Zeros(zeros);
      ZerosValue(zeros);
    } else {
      assert front == Zeros(zeros) + Decimal(i / 10);
      NumeralValue(zeros, i / 10);
    }
  }

  lemma {:induction false} ZerosValue(k: nat)
    ensures (forall j :: 0 <= j < k ==> IsDigit(Zeros(k)[j])) && DigitsValue(Zeros(k)) == 0
  {
    if k > 0 {
      assert Zeros(k)[..k - 1] == Zeros(k - 1);
      ZerosValue(k - 1);
    }
  }

  lemma ParsedDigits(part: string)
    requires ParseIndex(part).Some?
    ensures part != []
    ensures var digits := if part[0] == '+' then part[1..] else part;
            digits != [] && forall i :: 0 <= i < |digits| ==> IsDigit(digits[i])
  {
    hide DigitsValue;
  }

  /** An index parses to the positions whose numerals it is. */
  lemma IndexIsPosition(part: string, i: nat)
    ensures ParseIndex(part) == Some(i) <==> IsPosition(part, i)
  {
    hide ParseIndex, IsPosition;
    if IsPosition(part, i) {
      PositionParses(part, i);
    }
    if ParseIndex(part) == Some(i) {
      ParsedIsPosition(part, i);
    }
  }

  lemma PositionParses(part: string, i: nat)
    requires IsPosition(part, i)
    ensures ParseIndex(part) == Some(i)
  {
    hide Decimal, DigitsValue, Zeros;
    var zeros: nat :| part == Zeros(zeros) + Decimal(i) || part == "+" + (Zeros(zeros) + Decimal(i));
    NumeralValue(zeros, i);
    var digits := Zeros(zeros) + Decimal(i);
    assert IsDigit(digits[0]);
    if part[0] == '+' {
      assert part[1..] == digits;
    }
  }

  lemma ParsedIsPosition(part: string, i: nat)
    requires ParseIndex(part) == Some(i)
    ensures IsPosition(part, i)
  {
    hide Decimal, DigitsValue, Zeros;
    ParsedDigits(part);
    var digits := if part[0] == '+' then part[1..] else part;
    DigitsAreNumeral(digits);
    if part[0] == '+' {
      assert part == "+" + digits;
    }
  }

  lemma {:induction false} MemberIsFirst(members: seq<Field>, key: string, inner: Value)
    ensures MemberOf(members, key) == Some(inner) <==> IsFirst(members, key, inner)
  {
    if members != [] && members[0].key != key {
      MemberIsFirst(members[1..], key, inner);
      if i :| 0 <= i < |members[1..]| && members[1..][i] == Field(key, inner)
              && forall j :: 0 <= j < i ==> members[1..][j].key != key {
        assert members[i + 1] == Field(key, inner);
        assert forall j :: 0 <= j < i + 1 ==> members[j].key != key by {
          assert forall j :: 1 <= j < i + 1 ==> members[j] == members[1..][j - 1];
        }
      }
      if i :| 0 <= i < |members| && members[i] == Field(key, inner) && forall j :: 0 <= j < i ==> members[j].key != key {
        assert members[1..][i - 1] == Field(key, inner);
        assert forall j :: 0 <= j < i - 1 ==> members[1..][j] == members[j + 1];
      }
    } else if members != [] {
      if i :| 0 <= i < |members| && members[i] == Field(key, inner) && forall j :: 0 <= j < i ==> members[j].key != key {
        assert i == 0;
      }
      if members[0].value == inner {
        assert members[0] == Field(key, inner);
      }
    }
  }

  /** The lookup of a path finds exactly what the path leads to. */
  lemma {:induction false} LookupLeads(value: Value, path: seq<string>, to: Value)
    ensures Lookup(value, path) == Some(to) <==> LeadsTo(value, path, to)
    decreases |path|
  {
    hide MemberOf, ParseIndex, IsPosition;
    if path != [] {
      forall inner
        ensures IsPart(value, path[0], inner) <==> IsFound(value, path[0], inner)
      {
        PartIsFound(value, path[0], inner);
      }
      forall inner
        ensures Lookup(inner, path[1..]) == Some(to) <==> LeadsTo(inner, path[1..], to)
      {
        LookupLeads(inner, path[1..], to);
      }
    }
  }

  /** One step of the lookup. */
  predicate IsFound(value: Value, part: string, inner: Value) {
    || (value.Object? && MemberOf(value.members, part) == Some(inner))
    || (value.Array? && ParseIndex(part).Some? && ParseIndex(part).value < |value.items|
        && value.items[ParseIndex(part).value] == inner)
  }

  lemma PartIsFound(value: Value, part: string, inner: Value)
    ensures IsPart(value, part, inner) <==> IsFound(value, part, inner)
  {
    hide MemberOf, ParseIndex, IsPosition, IsFirst;
    if value.Object? {
      MemberIsFirst(value.members, part, inner);
    } else if value.Array? {
      forall i: nat
        ensures ParseIndex(part) == Some(i) <==> IsPosition(part, i)
      {
        IndexIsPosition(part, i);
      }
    }
  }

  // ---- References ----

  /** Non-empty parts without a dot. */
  predicate IsPath(path: seq<string>) {
    forall i :: 0 <= i < |path| ==> path[i] != "" && '.' !in path[i]
  }

  /** The texts that are references: `partition`, `run.id`, `run.summary`, `env.NAME`, and
      `item` and `upstream.NODE` with a dotted path after them. */
  ghost predicate IsReferenceText(t: string) {
    || t == "partition" || t == "run.id" || t == "run.summary"
    || (exists name :: IsEnvName(name) && t == "env." + name)
    || (exists path :: IsPath(path) && t == Join(["item"] + path, '.'))
    || (exists path :: IsPath(path) && path != [] && t == Join(["upstream"] + path, '.'))
  }

  lemma {:induction false} SplitJoin(parts: seq<string>, c: char)
    requires parts != [] && forall i :: 0 <= i < |parts| ==> c !in parts[i]
    ensures Split(Join(parts, c), c) == parts
    decreases |parts|
  {
    if |parts| == 1 {
      SplitPlain(parts[0], c);
    } else {
      SplitJoin(parts[1..], c);
      SplitFirst(parts[0], Join(parts[1..], c), c);
      assert Join(parts, c) == parts[0] + [c] + Join(parts[1..], c);
      assert [parts[0]] + parts[1..] == parts;
    }
  }

  lemma {:induction false} SplitPlain(s: string, c: char)
    requires c !in s
    ensures Split(s, c) == [s]
  {
    if s != [] {
      SplitPlain(s[1..], c);
      assert [s[0]] + s[1..] == s && [s[1..]][1..] == [];
    }
  }

  lemma {:induction false} SplitFirst(first: string, rest: string, c: char)
    requires c !in first
    ensures Split(first + [c] + rest, c) == [first] + Split(rest, c)
  {
    var s := first + [c] + rest;
    if first == [] {
      assert s[1..] == rest;
    } else {
      SplitFirst(first[1..], rest, c);
      assert s[1..] == first[1..] + [c] + rest;
      assert [first[0]] + first[1..] == first;
    }
  }

  lemma {:induction false} SplitParts(s: string, c: char)
    ensures forall i :: 0 <= i < |Split(s, c)| ==> c !in Split(s, c)[i]
  {
    if s != [] {
      SplitParts(s[1..], c);
    }
  }

  /** The texts of the kinds differ in their first letter. */
  lemma FirstLetters(t: string)
    ensures HasPrefix(t, "item.") || t == "item" ==> t != [] && t[0] == 'i'
    ensures HasPrefix(t, "run.") ==> t != [] && t[0] == 'r'
    ensures HasPrefix(t, "env.") ==> t != [] && t[0] == 'e'
    ensures HasPrefix(t, "upstream.") ==> t != [] && t[0] == 'u'
    ensures t == "partition" ==> t[0] == 'p'
  {
  }

  lemma ItemParses(path: seq<string>)
    requires IsPath(path)
    ensures Reference(Join(["item"] + path, '.')) == Ok(Item(path))
  {
    hide Split;
    if path != [] {
      var t := Join(["item"] + path, '.');
      assert (["item"] + path)[1..] == path;
      assert t == "item." + Join(path, '.');
      SplitJoin(path, '.');
      assert t[5..] == Join(path, '.') && HasPrefix(t, "item.");
      DottedParses(t, path);
    }
  }

  lemma UpstreamParses(path: seq<string>)
    requires IsPath(path) && path != []
    ensures Reference(Join(["upstream"] + path, '.')) == Ok(Upstream(path[0], path[1..]))
  {
    hide Split, Reference;
    var t := Join(["upstream"] + path, '.');
    assert (["upstream"] + path)[1..] == path;
    assert t == "upstream." + Join(path, '.');
    SplitJoin(path, '.');
    assert t[9..] == Join(path, '.') && HasPrefix(t, "upstream.");
    DottedParses(t, path);
  }

  lemma DottedParses(t: string, path: seq<string>)
    requires IsPath(path) && path != []
    ensures HasPrefix(t, "item.") && Split(t[5..], '.') == path ==> Reference(t) == Ok(Item(path))
    ensures HasPrefix(t, "upstream.") && Split(t[9..], '.') == path ==> Reference(t) == Ok(Upstream(path[0], path[1..]))
  {
    hide Split, IsEnvName, HasPrefix;
    FirstLetters(t);
    assert !HasEmpty(path);
    if HasPrefix(t, "item.") {
      PrefixSize(t, "item.");
    } else if HasPrefix(t, "upstream.") {
      PrefixSize(t, "upstream.");
    }
  }

  lemma PrefixSize(t: string, prefix: string)
    requires HasPrefix(t, prefix)
    ensures |t| >= |prefix|
  {
  }

  lemma EnvParses(name: string)
    requires IsEnvName(name)
    ensures Reference("env." + name) == Ok(Env(name))
  {
    hide Split, IsEnvName;
    var t := "env." + name;
    FirstLetters(t);
    assert t[4..] == name && HasPrefix(t, "env.");
  }

  /** Exactly these texts parse to a reference. */
  lemma ReferencesExactly(t: string)
    ensures Reference(t).Ok? <==> IsReferenceText(t)
    ensures Reference(t).Err? ==> Reference(t).error == UnknownReference(t)
  {
    hide Split, Join, IsEnvName, HasPrefix;
    ConstantsParse(t);
    if IsReferenceText(t) {
      if name :| IsEnvName(name) && t == "env." + name {
        EnvParses(name);
      } else if path :| IsPath(path) && t == Join(["item"] + path, '.') {
        ItemParses(path);
      } else if path :| IsPath(path) && path != [] && t == Join(["upstream"] + path, '.') {
        UpstreamParses(path);
      }
    }
    if Reference(t).Ok? {
      ReferenceRoundTrip(t);
      ParsedIsReference(t);
    }
  }

  lemma ParsedIsReference(t: string)
    requires Reference(t).Ok?
    ensures IsReferenceText(t)
  {
    hide Split, IsEnvName;
    ReferenceRoundTrip(t);
    match Reference(t).value
    case Item(path) =>
      if path != [] {
        SplitParts(t[5..], '.');
        assert (["item"] + path)[1..] == path;
      }
      assert IsPath(path) && t == Join(["item"] + path, '.');
    case Upstream(node, path) =>
      SplitParts(t[9..], '.');
      assert (["upstream"] + ([node] + path))[1..] == [node] + path;
      assert [node] + path == Split(t[9..], '.');
      assert IsPath([node] + path) && t == Join(["upstream"] + ([node] + path), '.');
    case _ =>
  }

  /** A string as it is, and any other value as its JSON text. */
  ghost predicate IsTextOf(ctx: Context, value: Value, text: string) {
    text == if value.String? then value.text else ctx.json(value)
  }

  ghost predicate IsItemText(ctx: Context, path: seq<string>, r: Result<string, RenderError>) {
    if ctx.item == None then r == Err(MissingItem)
    else if exists to :: LeadsTo(ctx.item.value, path, to) then
      r.Ok? && exists to :: LeadsTo(ctx.item.value, path, to) && IsTextOf(ctx, to, r.value)
    else r == Err(MissingItemPath(path))
  }

  ghost predicate IsUpstreamText(ctx: Context, node: string, path: seq<string>, r: Result<string, RenderError>) {
    if node !in ctx.upstream then r == Err(MissingUpstream(node))
    else if exists to :: LeadsTo(ctx.upstream[node], path, to) then
      r.Ok? && exists to :: LeadsTo(ctx.upstream[node], path, to) && IsTextOf(ctx, to, r.value)
    else r == Err(MissingPath(node, path))
  }

  /** What the reference text stands for in the context, or why it stands for nothing. */
  ghost predicate IsValueOf(t: string, ctx: Context, r: Result<string, RenderError>) {
    && (t == "partition" ==> r == Ok(ctx.partition))
    && (t == "run.id" ==> r == Ok(ctx.runId))
    && (t == "run.summary" ==> r == Ok(ctx.summary))
    && (forall name :: IsEnvName(name) && t == "env." + name ==>
          r == if name in ctx.env then Ok(ctx.env[name]) else Err(MissingEnv(name)))
    && (forall path :: IsPath(path) && t == Join(["item"] + path, '.') ==> IsItemText(ctx, path, r))
    && (forall path :: IsPath(path) && path != [] && t == Join(["upstream"] + path, '.') ==>
          IsUpstreamText(ctx, path[0], path[1..], r))
  }

  /** A parsed reference has the value of its text. */
  lemma ReferenceHasItsValue(t: string, ctx: Context)
    requires Reference(t).Ok?
    ensures IsValueOf(t, ctx, SegmentText(Reference(t).value, ctx))
  {
    hide Reference, Join, LeadsTo, Lookup, IsEnvName, SegmentText, IsItemText, IsUpstreamText;
    var r := SegmentText(Reference(t).value, ctx);
    ConstantsHaveTheirValue(t, ctx);
    forall name | IsEnvName(name) && t == "env." + name
      ensures r == if name in ctx.env then Ok(ctx.env[name]) else Err(MissingEnv(name))
    {
      EnvParses(name);
      EnvHasItsValue(name, ctx);
    }
    forall path | IsPath(path) && t == Join(["item"] + path, '.')
      ensures IsItemText(ctx, path, r)
    {
      ItemParses(path);
      ItemHasItsValue(path, ctx);
    }
    forall path | IsPath(path) && path != [] && t == Join(["upstream"] + path, '.')
      ensures IsUpstreamText(ctx, path[0], path[1..], r)
    {
      UpstreamParses(path);
      UpstreamHasItsValue(path[0], path[1..], ctx);
    }
  }

  lemma ConstantsHaveTheirValue(t: string, ctx: Context)
    ensures t == "partition" ==> Reference(t).Ok? && SegmentText(Reference(t).value, ctx) == Ok(ctx.partition)
    ensures t == "run.id" ==> Reference(t).Ok? && SegmentText(Reference(t).value, ctx) == Ok(ctx.runId)
    ensures t == "run.summary" ==> Reference(t).Ok? && SegmentText(Reference(t).value, ctx) == Ok(ctx.summary)
  {
    hide Reference;
    ConstantsParse(t);
  }

  lemma ConstantsParse(t: string)
    ensures t == "partition" ==> Reference(t) == Ok(Partition)
    ensures t == "run.id" ==> Reference(t) == Ok(Run(Id))
    ensures t == "run.summary" ==> Reference(t) == Ok(Run(Summary))
  {
    hide Split, IsEnvName;
    FirstLetters(t);
    assert "run.id"[4..] == "id" && "run.summary"[4..] == "summary";
    assert HasPrefix("run.id", "run.") && HasPrefix("run.summary", "run.");
  }

  lemma EnvHasItsValue(name: string, ctx: Context)
    ensures SegmentText(Env(name), ctx) == if name in ctx.env then Ok(ctx.env[name]) else Err(MissingEnv(name))
  {
  }

  lemma ItemHasItsValue(path: seq<string>, ctx: Context)
    ensures IsItemText(ctx, path, SegmentText(Item(path), ctx))
  {
    hide Lookup, LeadsTo;
    if ctx.item.Some? {
      forall to
        ensures Lookup(ctx.item.value, path) == Some(to) <==> LeadsTo(ctx.item.value, path, to)
      {
        LookupLeads(ctx.item.value, path, to);
      }
    }
  }

  lemma UpstreamHasItsValue(node: string, path: seq<string>, ctx: Context)
    ensures IsUpstreamText(ctx, node, path, SegmentText(Upstream(node, path), ctx))
  {
    hide Lookup, LeadsTo;
    if node in ctx.upstream {
      forall to
        ensures Lookup(ctx.upstream[node], path) == Some(to) <==> LeadsTo(ctx.upstream[node], path, to)
      {
        LookupLeads(ctx.upstream[node], path, to);
      }
    }
  }

  // ---- Substitution ----

  /** A text that holds no `{{`, one whose first `{{` is not closed, or one cut at its
      first reference. */
  ghost predicate IsCut(source: string, cut: Cut) {
    match cut
    case Uncut => NoPair(source, '{')
    case OpenAt(at) =>
      at + 2 <= |source| && source[at..at + 2] == "{{" && NoPair(source[..at + 1], '{') && NoPair(source[at + 2..], '}')
    case Cut(before, inner, rest) =>
      && source == before + "{{" + inner + "}}" + rest
      && NoPair(before, '{') && (before != "" ==> before[|before| - 1] != '{')
      && NoPair(inner, '}') && (inner != "" ==> inner[|inner| - 1] != '}')
  }

  /** Every text is one of the three, in one way. */
  lemma EverySourceIsCut(source: string, cut: Cut)
    ensures IsCut(source, cut) <==> cut == FirstCut(source)
  {
    hide NoPair, FirstCut, FindPair;
    match cut
    case Uncut => UncutExactly(source);
    case OpenAt(at) => OpenExactly(source, at);
    case Cut(before, inner, rest) => CutExactly(source, before, inner, rest);
  }

  lemma UncutExactly(source: string)
    ensures NoPair(source, '{') <==> FirstCut(source) == Uncut
  {
    hide NoPair, FindPair;
  }

  lemma OpenExactly(source: string, at: nat)
    ensures IsCut(source, OpenAt(at)) <==> FirstCut(source) == OpenAt(at)
  {
    hide NoPair, FindPair;
    if IsCut(source, OpenAt(at)) {
      assert source[at..at + 2][0] == source[at] && source[at..at + 2][1] == source[at + 1];
      FindIsFirst(source, '{', at);
    }
    if FirstCut(source) == OpenAt(at) {
      assert source[at..at + 2] == "{{";
    }
  }

  lemma CutExactly(source: string, before: string, inner: string, rest: string)
    ensures IsCut(source, Cut(before, inner, rest)) <==> FirstCut(source) == Cut(before, inner, rest)
  {
    hide NoPair, FindPair, FirstCut;
    if IsCut(source, Cut(before, inner, rest)) {
      CutOfParts(before, inner, rest);
    }
    if FirstCut(source) == Cut(before, inner, rest) {
      CutHasNoPairs(source);
      PartsOfCut(source);
    }
  }

  lemma PartsOfCut(source: string)
    requires FirstCut(source).Cut?
    ensures var cut := FirstCut(source);
            && source == cut.before + "{{" + cut.inner + "}}" + cut.rest
            && (cut.inner != "" ==> cut.inner[|cut.inner| - 1] != '}')
  {
    hide NoPair, FindPair;
    var open := FindPair(source, '{').value;
    var tail := source[open + 2..];
    var close := FindPair(tail, '}').value;
    BeforePair(tail, '}');
    assert source == source[..open] + "{{" + tail;
    assert tail == tail[..close] + "}}" + tail[close + 2..];
  }

  /** What stands for the reference comes between the two sides; the first error counts. */
  function Joined(before: string, value: Result<string, RenderError>, rest: Result<string, RenderError>)
    : Result<string, RenderError>
  {
    if value.Err? then value else if rest.Err? then rest else Ok(before + value.value + rest.value)
  }

  /** Rendering is substitution: a text without a reference is itself, and one cut at a
      reference is what is before it, the value of the reference, and the rendering of
      the rest. It is a template when the text between the braces is a reference, apart
      from the spaces around it, and the rest is a template; any other text is copied. */
  lemma SubstitutionLaw(source: string, cut: Cut, ctx: Context)
    requires IsCut(source, cut)
    ensures ParseFrom(source, 0).Ok? <==>
              cut.Uncut? || (cut.Cut? && IsReferenceText(Trim(cut.inner)) && ParseFrom(cut.rest, 0).Ok?)
    ensures cut.Uncut? || ParseFrom(source, 0).Err? ==> RenderText(source, ctx) == Ok(source)
    ensures cut.Cut? && ParseFrom(source, 0).Ok? ==>
              exists value :: IsValueOf(Trim(cut.inner), ctx, value)
                              && RenderText(source, ctx) == Joined(cut.before, value, RenderText(cut.rest, ctx))
  {
    hide NoPair, FindPair, FirstCut, Trim, Reference, IsReferenceText, IsValueOf, SegmentText, IsCut;
    EverySourceIsCut(source, cut);
    if cut.Cut? {
      ReferencesExactly(Trim(cut.inner));
      ParseOfCut(source, cut);
      if ParseFrom(source, 0).Ok? {
        var segment := Reference(Trim(cut.inner)).value;
        ReferenceHasItsValue(Trim(cut.inner), ctx);
        RenderedParts(cut.before, segment, ParseFrom(cut.rest, 0).value, ctx);
      }
    } else if cut.Uncut? {
      RenderedPlain(source, ctx);
    }
  }

  lemma ParseOfCut(source: string, cut: Cut)
    requires FirstCut(source) == cut && cut.Cut?
    ensures ParseFrom(source, 0).Ok? <==> Reference(Trim(cut.inner)).Ok? && ParseFrom(cut.rest, 0).Ok?
    ensures ParseFrom(source, 0).Ok? ==>
              ParseFrom(source, 0).value
              == Plain(cut.before) + [Reference(Trim(cut.inner)).value] + ParseFrom(cut.rest, 0).value
  {
    hide FirstCut, Trim, Reference, Plain;
    var offset: nat := |source| - |cut.rest|;
    if ParseFrom(cut.rest, 0).Ok? {
      OffsetOnlyInErrors(cut.rest, 0, offset);
    }
    if ParseFrom(cut.rest, offset).Ok? {
      OffsetOnlyInErrors(cut.rest, offset, 0);
    }
  }

  lemma RenderedPlain(text: string, ctx: Context)
    ensures Rendered(Plain(text), ctx) == Ok(text)
  {
    if text != "" {
      assert Plain(text)[1..] == [];
      assert text + "" == text;
    }
  }

  lemma RenderedParts(before: string, segment: Segment, more: Template, ctx: Context)
    ensures Rendered(Plain(before) + [segment] + more, ctx)
         == Joined(before, SegmentText(segment, ctx), Rendered(more, ctx))
  {
    hide SegmentText;
    var tail := [segment] + more;
    assert tail[0] == segment && tail[1..] == more;
    if before == "" {
      assert Plain(before) + [segment] + more == tail;
      assert forall s: string :: "" + s == s;
    } else {
      var all := Plain(before) + [segment] + more;
      assert all[0] == Literal(before) && all[1..] == tail;
      LiteralText(before, ctx);
      assert forall a: string, b: string :: before + (a + b) == before + a + b;
    }
  }

  lemma LiteralText(text: string, ctx: Context)
    ensures SegmentText(Literal(text), ctx) == Ok(text)
  {
  }

  /** The text between the braces without the spaces around it. */
  lemma TrimCutsSpaces(s: string) returns (left: string, right: string)
    ensures s == left + Trim(s) + right && IsTrimmed(Trim(s))
    ensures (forall i :: 0 <= i < |left| ==> IsSpace(left[i])) && (forall i :: 0 <= i < |right| ==> IsSpace(right[i]))
  {
    hide IsSpace;
    left := StartSpaces(s);
    right := EndSpaces(TrimStart(s));
    TrimIsTrimmed(s);
    assert s == left + (Trim(s) + right);
  }

  lemma {:induction false} StartSpaces(s: string) returns (left: string)
    ensures s == left + TrimStart(s) && forall i :: 0 <= i < |left| ==> IsSpace(left[i])
  {
    left := "";
    if s != [] && IsSpace(s[0]) {
      var more := StartSpaces(s[1..]);
      left := [s[0]] + more;
      assert s == [s[0]] + s[1..];
    }
  }

  lemma {:induction false} EndSpaces(s: string) returns (right: string)
    ensures s == TrimEnd(s) + right && forall i :: 0 <= i < |right| ==> IsSpace(right[i])
  {
    right := "";
    if s != [] && IsSpace(s[|s| - 1]) {
      var more := EndSpaces(s[..|s| - 1]);
      right := more + [s[|s| - 1]];
      assert s == s[..|s| - 1] + [s[|s| - 1]];
    }
  }

  // ---- Parameter trees ----

  /** The tree with every string rendered: its shape, its keys and its other leaves are
      kept. */
  ghost predicate IsRenderingOf(value: Value, ctx: Context, out: Value)
    decreases value
  {
    match value
    case String(text) => out.String? && RenderText(text, ctx) == Ok(out.text)
    case Array(items) =>
      && out.Array? && |out.items| == |items|
      && forall i {:trigger items[i]} :: 0 <= i < |items| ==> IsRenderingOf(items[i], ctx, out.items[i])
    case Object(members) =>
      && out.Object? && |out.members| == |members|
      && forall i {:trigger members[i]} :: 0 <= i < |members| ==>
           out.members[i].key == members[i].key && IsRenderingOf(members[i].value, ctx, out.members[i].value)
    case _ => out == value
  }

  ghost predicate HasFailingLeaf(value: Value, ctx: Context) {
    exists text {:trigger IsLeaf(value, text)} :: IsLeaf(value, text) && RenderText(text, ctx).Err?
  }

  /** Some string of the tree fails with the error. */
  ghost predicate FailsWith(value: Value, ctx: Context, e: RenderError) {
    exists text {:trigger IsLeaf(value, text)} :: IsLeaf(value, text) && RenderText(text, ctx) == Err(e)
  }

  /** A tree renders exactly when all of its strings do, to the tree with each of them
      rendered in its place. */
  lemma {:induction false} TreeRendersEachLeaf(value: Value, ctx: Context)
    ensures RenderValue(value, ctx).Err? <==> HasFailingLeaf(value, ctx)
    ensures RenderValue(value, ctx).Err? ==> FailsWith(value, ctx, RenderValue(value, ctx).error)
    ensures RenderValue(value, ctx).Ok? ==> IsRenderingOf(value, ctx, RenderValue(value, ctx).value)
    decreases value, 1
  {
    hide RenderText;
    match value
    case String(text) => assert IsLeaf(value, text);
    case Array(items) =>
      ItemsRenderEach(items, ctx);
      assert HasFailingLeaf(value, ctx) <==> exists i {:trigger items[i]} :: 0 <= i < |items| && HasFailingLeaf(items[i], ctx) by {
        LeavesOfItems(value, ctx);
      }
      if RenderItems(items, ctx).Err? {
        var i :| 0 <= i < |items| && FailsWith(items[i], ctx, RenderItems(items, ctx).error);
        var text :| IsLeaf(items[i], text) && RenderText(text, ctx) == Err(RenderItems(items, ctx).error);
        assert IsLeaf(value, text);
      }
    case Object(members) =>
      MembersRenderEach(members, ctx);
      assert HasFailingLeaf(value, ctx) <==> exists i {:trigger members[i]} :: 0 <= i < |members| && HasFailingLeaf(members[i].value, ctx) by {
        LeavesOfMembers(value, ctx);
      }
      if RenderMembers(members, ctx).Err? {
        var i :| 0 <= i < |members| && FailsWith(members[i].value, ctx, RenderMembers(members, ctx).error);
        var text :| IsLeaf(members[i].value, text) && RenderText(text, ctx) == Err(RenderMembers(members, ctx).error);
        assert IsLeaf(value, text);
      }
    case _ =>
      assert forall text :: !IsLeaf(value, text);
  }

  lemma LeavesOfItems(value: Value, ctx: Context)
    requires value.Array?
    ensures HasFailingLeaf(value, ctx) <==>
            exists i {:trigger value.items[i]} :: 0 <= i < |value.items| && HasFailingLeaf(value.items[i], ctx)
  {
    hide RenderText;
    if text :| IsLeaf(value, text) && RenderText(text, ctx).Err? {
      var i :| 0 <= i < |value.items| && IsLeaf(value.items[i], text);
      assert HasFailingLeaf(value.items[i], ctx);
    }
    if i :| 0 <= i < |value.items| && HasFailingLeaf(value.items[i], ctx) {
      var text :| IsLeaf(value.items[i], text) && RenderText(text, ctx).Err?;
      assert IsLeaf(value, text);
    }
  }

  lemma LeavesOfMembers(value: Value, ctx: Context)
    requires value.Object?
    ensures HasFailingLeaf(value, ctx) <==>
            exists i {:trigger value.members[i]} :: 0 <= i < |value.members| && HasFailingLeaf(value.members[i].value, ctx)
  {
    hide RenderText;
    if text :| IsLeaf(value, text) && RenderText(text, ctx).Err? {
      var i :| 0 <= i < |value.members| && IsLeaf(value.members[i].value, text);
      assert HasFailingLeaf(value.members[i].value, ctx);
    }
    if i :| 0 <= i < |value.members| && HasFailingLeaf(value.members[i].value, ctx) {
      var text :| IsLeaf(value.members[i].value, text) && RenderText(text, ctx).Err?;
      assert IsLeaf(value, text);
    }
  }

  lemma {:induction false} ItemsRenderEach(items: seq<Value>, ctx: Context)
    ensures RenderItems(items, ctx).Err? <==>
            exists i {:trigger items[i]} :: 0 <= i < |items| && HasFailingLeaf(items[i], ctx)
    ensures RenderItems(items, ctx).Err? ==>
              exists i {:trigger items[i]} :: 0 <= i < |items| && FailsWith(items[i], ctx, RenderItems(items, ctx).error)
    ensures RenderItems(items, ctx).Ok? ==>
              var out := RenderItems(items, ctx).value;
              |out| == |items|
              && forall i {:trigger items[i]} :: 0 <= i < |items| ==> IsRenderingOf(items[i], ctx, out[i])
    decreases items, 0
  {
    hide RenderValue, HasFailingLeaf, FailsWith, IsRenderingOf;
    if items != [] {
      TreeRendersEachLeaf(items[0], ctx);
      ItemsRenderEach(items[1..], ctx);
      assert forall i :: 1 <= i < |items| ==> items[i] == items[1..][i - 1];
    }
  }

  lemma {:induction false} MembersRenderEach(members: seq<Field>, ctx: Context)
    ensures RenderMembers(members, ctx).Err? <==>
            exists i {:trigger members[i]} :: 0 <= i < |members| && HasFailingLeaf(members[i].value, ctx)
    ensures RenderMembers(members, ctx).Err? ==>
              exists i {:trigger members[i]} ::
                0 <= i < |members| && FailsWith(members[i].value, ctx, RenderMembers(members, ctx).error)
    ensures RenderMembers(members, ctx).Ok? ==>
              var out := RenderMembers(members, ctx).value;
              |out| == |members|
              && forall i {:trigger members[i]} :: 0 <= i < |members| ==>
                   out[i].key == members[i].key && IsRenderingOf(members[i].value, ctx, out[i].value)
    decreases members, 0
  {
    hide RenderValue, HasFailingLeaf, FailsWith, IsRenderingOf;
    if members != [] {
      TreeRendersEachLeaf(members[0].value, ctx);
      MembersRenderEach(members[1..], ctx);
      assert forall i :: 1 <= i < |members| ==> members[i] == members[1..][i - 1];
    }
  }

  // ---- What an instance renders ----

  lemma SingleReference(t: string, ctx: Context)
    requires IsReferenceText(t) && IsTrimmed(t) && NoPair(t, '}')
    ensures exists value :: IsValueOf(t, ctx, value) && RenderText("{{ " + t + " }}", ctx) == value
  {
    hide NoPair, FindPair, FirstCut, Trim, IsReferenceText, IsValueOf, ParseFrom, Rendered;
    var cut := Cut("", " " + t + " ", "");
    ReferencesExactly(t);
    SpacedIsCut(t);
    TrimSpaced(t);
    SubstitutionLaw("", Uncut, ctx);
    SubstitutionLaw("{{ " + t + " }}", cut, ctx);
    var value :| IsValueOf(t, ctx, value)
      && RenderText("{{ " + t + " }}", ctx) == Joined("", value, RenderText("", ctx));
    assert value.Ok? ==> "" + value.value + "" == value.value;
  }

  lemma SpacedIsCut(t: string)
    requires NoPair(t, '}')
    ensures IsCut("{{ " + t + " }}", Cut("", " " + t + " ", "")) && IsCut("", Uncut)
  {
    NoPairConcat(" ", t, '}');
    var spaced := " " + t + " ";
    forall i {:trigger spaced[i]} | 0 <= i < |spaced| - 1
      ensures !(spaced[i] == '}' && spaced[i + 1] == '}')
    {
      assert (" " + t)[i] == spaced[i];
    }
    assert "{{ " + t + " }}" == "" + "{{" + spaced + "}}" + "";
  }

  /** A parameter that is one reference renders to its value: of the identity of the run,
      of the environment, of the outputs of the input, or of its item. */
  lemma ParameterReads(input: I.TaskInput, e: I.Environment, t: string)
    requires IsReferenceText(t) && IsTrimmed(t) && NoPair(t, '}')
    requires input.params == String("{{ " + t + " }}")
    ensures exists value ::
              && IsValueOf(t, Context(e.partition, e.runId, e.summarize(input.upstreams), input.inputs, e.env,
                                      input.item, e.json), value)
              && I.RenderedParams(input, e) == if value.Ok? then Ok(String(value.value)) else Err(value.error)
  {
    hide NoPair, IsReferenceText, IsValueOf, RenderText, IsTrimmed;
    SingleReference(t, I.ContextOf(input, e, input.item));
  }

  /** The items are the JSON array that the items template renders to, with the same
      values but no item. */
  lemma ItemsRead(input: I.TaskInput, e: I.Environment)
    requires input.each.Some?
    ensures var ctx := Context(e.partition, e.runId, e.summarize(input.upstreams), input.inputs, e.env, None, e.json);
            var text := RenderText(input.each.value, ctx);
            && (forall error :: I.RenderedItems(input, e) == Err(I.InvalidRender(error)) <==> text == Err(error))
            && (forall items :: I.RenderedItems(input, e) == Ok(items) <==>
                  text.Ok? && e.parseJson(text.value) == Some(Array(items)))
  {
    hide RenderText;
  }
}
