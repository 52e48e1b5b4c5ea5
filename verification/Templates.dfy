/** Templates in parameter strings: parsing, printing and rendering (swale/src/template.rs). */
module Templates {
  import opened Wrappers
  import opened Json
  import opened Text

  datatype RunField = Id | Summary

  datatype Segment =
    | Literal(text: string)
    | Partition
    | Run(field: RunField)
    | Upstream(node: string, path: seq<string>)
    | Env(name: string)
    | Item(itemPath: seq<string>)

  datatype TemplateError = Unclosed(at: nat) | UnknownReference(text: string)

  type Template = seq<Segment>

  predicate IsEnvName(name: string) {
    && name != [] && (IsLetter(name[0]) || name[0] == '_')
    && forall i :: 0 <= i < |name| ==> IsLetter(name[i]) || IsDigit(name[i]) || name[i] == '_'
  }

  predicate IsLetter(c: char) {
    'a' <= c <= 'z' || 'A' <= c <= 'Z'
  }

  predicate HasEmpty(parts: seq<string>) {
    exists i :: 0 <= i < |parts| && parts[i] == ""
  }

  /** The segment of the text between the braces. */
  function Reference(text: string): Result<Segment, TemplateError> {
    if text == "partition" then Ok(Partition)
    else if text == "item" then Ok(Item([]))
    else if HasPrefix(text, "item.") then
      var path := Split(text[5..], '.');
      if HasEmpty(path) then Err(UnknownReference(text)) else Ok(Item(path))
    else if HasPrefix(text, "run.") then
      if text[4..] == "id" then Ok(Run(Id))
      else if text[4..] == "summary" then Ok(Run(Summary))
      else Err(UnknownReference(text))
    else if HasPrefix(text, "env.") then
      if IsEnvName(text[4..]) then Ok(Env(text[4..])) else Err(UnknownReference(text))
    else if HasPrefix(text, "upstream.") then
      var parts := Split(text[9..], '.');
      if HasEmpty(parts) then Err(UnknownReference(text)) else Ok(Upstream(parts[0], parts[1..]))
    else Err(UnknownReference(text))
  }

  /** A text cut at its first reference. */
  datatype Cut =
    | Uncut
    | OpenAt(at: nat)
    | Cut(before: string, inner: string, rest: string)

  function FirstCut(s: string): (cut: Cut)
    ensures cut.Cut? ==> |cut.rest| < |s|
  {
    match FindPair(s, '{')
    case None => Uncut
    case Some(open) =>
      match FindPair(s[open + 2..], '}')
      case None => OpenAt(open)
      case Some(close) =>
        Cut(s[..open], s[open + 2..][..close], s[open + 2..][close + 2..])
  }

  /** The text before the first pair holds none and does not run into it. */
  lemma BeforePair(s: string, c: char)
    requires FindPair(s, c).Some?
    ensures var at := FindPair(s, c).value;
            NoPair(s[..at], c) && (at > 0 ==> s[..at][at - 1] != c)
  {
    var at := FindPair(s, c).value;
    assert forall i :: 0 <= i <= at ==> s[..at + 1][i] == s[i];
    assert forall i :: 0 <= i < at ==> s[..at][i] == s[i];
  }

  lemma CutHasNoPairs(s: string)
    requires FirstCut(s).Cut?
    ensures NoPair(FirstCut(s).inner, '}') && NoPair(FirstCut(s).before, '{')
    ensures var before := FirstCut(s).before; before != "" ==> before[|before| - 1] != '{'
  {
    hide FindPair, NoPair;
    BeforePair(s, '{');
    BeforePair(s[FindPair(s, '{').value + 2..], '}');
  }

  /** The segments of a text that starts at `offset` of the source. */
  function ParseFrom(rest: string, offset: nat): Result<Template, TemplateError>
    decreases |rest|
  {
    match FirstCut(rest)
    case Uncut => Ok(Plain(rest))
    case OpenAt(at) => Err(Unclosed(offset + at))
    case Cut(before, inner, more) =>
      match Reference(Trim(inner))
      case Err(e) => Err(e)
      case Ok(segment) =>
        Prepend(Plain(before) + [segment], ParseFrom(more, offset + |rest| - |more|))
  }

  /** The segments of a text without a reference. */
  function Plain(text: string): Template {
    if text == "" then [] else [Literal(text)]
  }

  function Prepend(segments: Template, rest: Result<Template, TemplateError>): Result<Template, TemplateError> {
    match rest
    case Err(e) => Err(e)
    case Ok(more) => Ok(segments + more)
  }

  lemma PrependTwice(a: Template, b: Template, rest: Result<Template, TemplateError>)
    ensures Prepend(a, Prepend(b, rest)) == Prepend(a + b, rest)
    ensures Prepend([], rest) == rest
  {
    if rest.Ok? {
      assert a + (b + rest.value) == a + b + rest.value;
      assert [] + rest.value == rest.value;
    }
  }

  /** The parse of a text whose first reference is at `open`. */
  lemma ParseStep(rest: string, offset: nat, open: nat, close: nat)
    requires FindPair(rest, '{') == Some(open) && FindPair(rest[open + 2..], '}') == Some(close)
    ensures open + 2 + close + 2 <= |rest|
    ensures ParseFrom(rest, offset)
         == match Reference(Trim(rest[open + 2..][..close]))
            case Err(e) => Err(e)
            case Ok(segment) =>
              Prepend(Plain(rest[..open]) + [segment],
                      ParseFrom(rest[open + 2 + close + 2..], offset + open + 2 + close + 2))
  {
    hide Reference, Trim, FindPair, NoPair, FirstCut, Plain, Prepend;
    CutAt(rest, open, close);
  }

  lemma CutAt(rest: string, open: nat, close: nat)
    requires FindPair(rest, '{') == Some(open) && FindPair(rest[open + 2..], '}') == Some(close)
    ensures open + 2 + close + 2 <= |rest|
    ensures FirstCut(rest) == Cut(rest[..open], rest[open + 2..][..close], rest[open + 2 + close + 2..])
  {
    hide FindPair, NoPair;
    assert rest[open + 2..][close + 2..] == rest[open + 2 + close + 2..];
  }

  lemma ParseEnds(rest: string, offset: nat)
    ensures FindPair(rest, '{') == None ==> ParseFrom(rest, offset) == Ok(Plain(rest))
    ensures FindPair(rest, '{').Some? && FindPair(rest[FindPair(rest, '{').value + 2..], '}') == None ==>
              ParseFrom(rest, offset) == Err(Unclosed(offset + FindPair(rest, '{').value))
  {
    hide FindPair, NoPair, Reference, Trim;
  }

  /** Parses a parameter string. */
  method Parse(source: string) returns (template: Result<Template, TemplateError>)
    ensures template == ParseFrom(source, 0)
  {
    hide Reference, Trim, FindPair, NoPair, Prepend, ParseFrom;
    var segments: Template := [];
    var rest, offset: nat := source, 0;
    var at := FindPair(rest, '{');
    PrependTwice([], [], ParseFrom(source, 0));
    while at.Some?
      invariant ParseFrom(source, 0) == Prepend(segments, ParseFrom(rest, offset))
      invariant at == FindPair(rest, '{')
      decreases |rest|
    {
      var open := at.value;
      ParseEnds(rest, offset);
      var end := FindPair(rest[open + 2..], '}');
      if end == None {
        PrependKeeps(segments, ParseFrom(rest, offset));
        return Err(Unclosed(offset + open));
      }
      ParseStep(rest, offset, open, end.value);
      PrependKeeps(segments, ParseFrom(rest, offset));
      var segment := Reference(Trim(rest[open + 2..][..end.value]));
      if segment.Err? {
        return Err(segment.error);
      }
      var consumed := open + 2 + end.value + 2;
      PrependTwice(segments, Plain(rest[..open]) + [segment.value], ParseFrom(rest[consumed..], offset + consumed));
      ghost var before := segments;
      if open > 0 {
        segments := segments + [Literal(rest[..open]), segment.value];
      } else {
        segments := segments + [segment.value];
      }
      assert segments == before + (Plain(rest[..open]) + [segment.value]);
      offset := offset + consumed;
      rest := rest[consumed..];
      at := FindPair(rest, '{');
    }
    ParseEnds(rest, offset);
    PrependKeeps(segments, ParseFrom(rest, offset));
    if rest != "" {
      segments := segments + [Literal(rest)];
    }
    template := Ok(segments);
  }

  lemma PrependKeeps(segments: Template, rest: Result<Template, TemplateError>)
    ensures rest.Err? ==> Prepend(segments, rest) == rest
    ensures rest == Ok([]) ==> Prepend(segments, rest) == Ok(segments)
    ensures rest.Ok? ==> Prepend(segments, rest) == Ok(segments + rest.value)
  {
    assert segments + [] == segments;
  }

  // ---- Printing a template back ----

  /** The text between the braces of a reference. */
  function ReferenceText(segment: Segment): string
    requires !segment.Literal?
  {
    match segment
    case Partition => "partition"
    case Run(Id) => "run.id"
    case Run(Summary) => "run.summary"
    case Env(name) => "env." + name
    case Item(path) => if path == [] then "item" else "item." + Join(path, '.')
    case Upstream(node, path) => "upstream." + Join([node] + path, '.')
  }

  function Print(template: Template): string {
    if template == [] then ""
    else if template[0].Literal? then template[0].text + Print(template[1..])
    else "{{ " + ReferenceText(template[0]) + " }}" + Print(template[1..])
  }

  /** A reference is printed as the text it was parsed from. */
  lemma ReferenceRoundTrip(text: string)
    requires Reference(text).Ok?
    ensures !Reference(text).value.Literal? && ReferenceText(Reference(text).value) == text
  {
    if HasPrefix(text, "item.") {
      JoinSplit(text[5..], '.');
      assert text == "item." + text[5..];
    } else if HasPrefix(text, "upstream.") {
      var parts := Split(text[9..], '.');
      JoinSplit(text[9..], '.');
      assert [parts[0]] + parts[1..] == parts;
      assert text == "upstream." + text[9..];
    } else if HasPrefix(text, "run.") {
      assert text == "run." + text[4..];
    } else if HasPrefix(text, "env.") {
      assert text == "env." + text[4..];
    }
  }

  function PrintOne(segment: Segment): string {
    if segment.Literal? then segment.text else "{{ " + ReferenceText(segment) + " }}"
  }

  lemma {:induction false} PrintAppend(a: Template, b: Template)
    ensures Print(a + b) == Print(a) + Print(b)
  {
    hide PrintOne;
    if a == [] {
      assert a + b == b;
    } else {
      PrintAppend(a[1..], b);
      assert (a + b)[1..] == a[1..] + b;
      PrintStep(a + b);
      PrintStep(a);
      Associate(PrintOne(a[0]), Print(a[1..]), Print(b));
    }
  }

  lemma PrintStep(a: Template)
    requires a != []
    ensures Print(a) == PrintOne(a[0]) + Print(a[1..])
  {
    hide ReferenceText;
  }

  lemma Associate(a: string, b: string, c: string)
    ensures a + (b + c) == a + b + c
  {
  }

  lemma PrintPlain(text: string)
    ensures Print(Plain(text)) == text
  {
  }

  lemma InnerHasNoClose(inner: string)
    requires NoPair(inner, '}')
    ensures NoPair(" " + Trim(inner) + " ", '}')
  {
    TrimKeepsNoPair(inner, '}');
    TrimKeepsNoPair(TrimStart(inner), '}');
    NoPairConcat(" ", Trim(inner), '}');
    var spaced := " " + Trim(inner);
    forall i {:trigger (spaced + " ")[i]} | 0 <= i < |spaced|
      ensures !((spaced + " ")[i] == '}' && (spaced + " ")[i + 1] == '}')
    {
      assert i < |spaced| - 1 ==> (spaced + " ")[i] == spaced[i] && (spaced + " ")[i + 1] == spaced[i + 1];
    }
  }

  /** A text made of the three parts is cut into them. */
  lemma CutOfParts(before: string, inner: string, rest: string)
    requires NoPair(before, '{') && (before != "" ==> before[|before| - 1] != '{')
    requires NoPair(inner, '}') && (inner != "" ==> inner[|inner| - 1] != '}')
    ensures FirstCut(before + "{{" + inner + "}}" + rest) == Cut(before, inner, rest)
  {
    hide NoPair, FirstCut;
    var end := "}}" + rest;
    var tail := "{{" + (inner + end);
    assert end[2..] == rest && tail[2..] == inner + end;
    PartsJoin(before, "{{", inner, "}}", rest);
    CutTail(before, tail, inner, end);
  }

  lemma CutTail(before: string, tail: string, inner: string, end: string)
    requires NoPair(before, '{') && (before != "" ==> before[|before| - 1] != '{')
    requires NoPair(inner, '}') && (inner != "" ==> inner[|inner| - 1] != '}')
    requires |tail| >= 2 && tail[0] == '{' && tail[1] == '{' && tail[2..] == inner + end
    requires |end| >= 2 && end[0] == '}' && end[1] == '}'
    ensures FirstCut(before + tail) == Cut(before, inner, end[2..])
  {
    hide NoPair, FindPair, FirstCut;
    var s := before + tail;
    PairFirst(tail, '{');
    FindAfter(before, tail, '{');
    PairFirst(end, '}');
    FindAfter(inner, end, '}');
    assert s[|before| + 2..] == inner + end;
    CutAt(s, |before|, |inner|);
    assert s[..|before|] == before && (inner + end)[..|inner|] == inner;
    assert s[|before| + 2 + |inner| + 2..] == end[2..];
  }

  lemma PairFirst(s: string, c: char)
    requires |s| >= 2 && s[0] == c && s[1] == c
    ensures FindPair(s, c) == Some(0)
  {
  }

  lemma PartsJoin(a: string, x: string, b: string, y: string, c: string)
    ensures a + x + b + y + c == a + (x + (b + (y + c)))
  {
  }

  /** Errors apart, the offset of a text does not matter. */
  lemma {:induction false} OffsetOnlyInErrors(rest: string, offset: nat, other: nat)
    requires ParseFrom(rest, offset).Ok?
    ensures ParseFrom(rest, offset) == ParseFrom(rest, other)
    decreases |rest|
  {
    hide Reference, Trim, FindPair, FirstCut;
    var cut := FirstCut(rest);
    if cut.Cut? {
      OffsetOnlyInErrors(cut.rest, offset + |rest| - |cut.rest|, other + |rest| - |cut.rest|);
    }
  }

  /** A parsed template prints to a text that parses to the same template. */
  lemma {:induction false} PrintRoundTrip(source: string, offset: nat)
    requires ParseFrom(source, offset).Ok?
    ensures ParseFrom(Print(ParseFrom(source, offset).value), 0) == ParseFrom(source, offset)
    decreases |source|
  {
    hide Reference, Trim, FindPair, FirstCut, Print;
    match FirstCut(source)
    case Uncut =>
      PrintPlain(source);
    case Cut(before, inner, rest) =>
      var segment := Reference(Trim(inner)).value;
      var more := ParseFrom(rest, offset + |source| - |rest|).value;
      PrintRoundTrip(rest, offset + |source| - |rest|);
      CutHasNoPairs(source);
      PrintedReferenceParses(before, inner, segment, more);
      assert ParseFrom(source, offset) == Ok(Plain(before) + [segment] + more);
  }

  lemma PrintedReferenceParses(before: string, inner: string, segment: Segment, more: Template)
    requires NoPair(before, '{') && (before != "" ==> before[|before| - 1] != '{')
    requires NoPair(inner, '}') && Reference(Trim(inner)) == Ok(segment)
    requires ParseFrom(Print(more), 0) == Ok(more)
    ensures ParseFrom(Print(Plain(before) + [segment] + more), 0) == Ok(Plain(before) + [segment] + more)
  {
    hide Reference, Trim, FindPair, FirstCut, Print, ReferenceText;
    ReferenceRoundTrip(Trim(inner));
    var spaced := " " + Trim(inner) + " ";
    PrintParts(before, segment, more);
    var printed := Print(Plain(before) + [segment] + more);
    assert printed == before + "{{" + spaced + "}}" + Print(more);
    InnerHasNoClose(inner);
    CutOfParts(before, spaced, Print(more));
    TrimIsTrimmed(inner);
    TrimSpaced(Trim(inner));
    OffsetOnlyInErrors(Print(more), 0, |printed| - |Print(more)|);
  }

  lemma PrintParts(before: string, segment: Segment, more: Template)
    requires !segment.Literal?
    ensures Print(Plain(before) + [segment] + more)
         == before + "{{ " + ReferenceText(segment) + " }}" + Print(more)
  {
    PrintAppend(Plain(before) + [segment], more);
    PrintAppend(Plain(before), [segment]);
    PrintPlain(before);
  }

  // ---- Rendering ----

  /** What the references resolve to; `json` writes a value as JSON text. */
  datatype Context = Context(
    partition: string,
    runId: string,
    summary: string,
    upstream: map<string, Value>,
    env: map<string, string>,
    item: Option<Value>,
    json: Value -> string)

  datatype RenderError =
    | MissingUpstream(node: string)
    | MissingPath(node: string, path: seq<string>)
    | MissingEnv(name: string)
    | MissingItem
    | MissingItemPath(path: seq<string>)

  function MemberOf(members: seq<Field>, key: string): Option<Value> {
    if members == [] then None
    else if members[0].key == key then Some(members[0].value)
    else MemberOf(members[1..], key)
  }

  /** Descends into `value` part by part, by member name or by position. */
  function Lookup(value: Value, path: seq<string>): Option<Value>
    decreases |path|
  {
    if path == [] then Some(value)
    else
      var inner := match value
        case Object(members) => MemberOf(members, path[0])
        case Array(items) =>
          var index := ParseIndex(path[0]);
          if index.Some? && index.value < |items| then Some(items[index.value]) else None
        case _ => None;
      if inner == None then None else Lookup(inner.value, path[1..])
  }

  /** A string as it is, and any other value as its JSON text. */
  function ValueText(ctx: Context, value: Value): string {
    if value.String? then value.text else ctx.json(value)
  }

  function SegmentText(segment: Segment, ctx: Context): Result<string, RenderError> {
    match segment
    case Literal(text) => Ok(text)
    case Partition => Ok(ctx.partition)
    case Run(Id) => Ok(ctx.runId)
    case Run(Summary) => Ok(ctx.summary)
    case Upstream(node, path) =>
      if node !in ctx.upstream then Err(MissingUpstream(node))
      else
        var value := Lookup(ctx.upstream[node], path);
        if value == None then Err(MissingPath(node, path)) else Ok(ValueText(ctx, value.value))
    case Env(name) => if name in ctx.env then Ok(ctx.env[name]) else Err(MissingEnv(name))
    case Item(path) =>
      if ctx.item == None then Err(MissingItem)
      else
        var value := Lookup(ctx.item.value, path);
        if value == None then Err(MissingItemPath(path)) else Ok(ValueText(ctx, value.value))
  }

  function Rendered(template: Template, ctx: Context): Result<string, RenderError> {
    if template == [] then Ok("")
    else match SegmentText(template[0], ctx)
      case Err(e) => Err(e)
      case Ok(text) => After(text, Rendered(template[1..], ctx))
  }

  function After(text: string, rest: Result<string, RenderError>): Result<string, RenderError> {
    match rest
    case Err(e) => Err(e)
    case Ok(more) => Ok(text + more)
  }

  /** Renders a template, up to the first segment that does not resolve. */
  method Render(template: Template, ctx: Context) returns (text: Result<string, RenderError>)
    ensures text == Rendered(template, ctx)
  {
    var out := "";
    assert template[0..] == template;
    assert Rendered(template, ctx).Ok? ==> "" + Rendered(template, ctx).value == Rendered(template, ctx).value;
    for i := 0 to |template|
      invariant Rendered(template, ctx) == After(out, Rendered(template[i..], ctx))
    {
      var piece := SegmentText(template[i], ctx);
      assert template[i..][1..] == template[i + 1..];
      if piece.Err? {
        return Err(piece.error);
      }
      var rest := Rendered(template[i + 1..], ctx);
      assert rest.Ok? ==> out + (piece.value + rest.value) == out + piece.value + rest.value;
      out := out + piece.value;
    }
    assert out + "" == out;
    text := Ok(out);
  }

  /** The node of every upstream segment, one entry for each segment. */
  function UpstreamNodes(template: Template): seq<string> {
    if template == [] then []
    else (if template[0].Upstream? then [template[0].node] else []) + UpstreamNodes(template[1..])
  }

  predicate RefersToItem(template: Template) {
    exists i :: 0 <= i < |template| && template[i].Item?
  }
}
