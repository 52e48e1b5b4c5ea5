/** The templates within a parameter tree (swale/src/input.rs, swale/src/graph.rs). */
module Params {
  import opened Wrappers
  import opened Json
  import opened Templates

  /** A template rendered; a text that is not a template is copied. */
  function RenderText(text: string, ctx: Context): Result<string, RenderError> {
    match ParseFrom(text, 0)
    case Err(_) => Ok(text)
    case Ok(template) => Rendered(template, ctx)
  }

  /** Every string of the tree rendered, in order, up to the first error. */
  function RenderValue(value: Value, ctx: Context): Result<Value, RenderError>
    decreases value, 1
  {
    match value
    case String(text) =>
      (match RenderText(text, ctx)
       case Err(e) => Err(e)
       case Ok(rendered) => Ok(String(rendered)))
    case Array(items) =>
      (match RenderItems(items, ctx)
       case Err(e) => Err(e)
       case Ok(rendered) => Ok(Array(rendered)))
    case Object(members) =>
      (match RenderMembers(members, ctx)
       case Err(e) => Err(e)
       case Ok(rendered) => Ok(Object(rendered)))
    case _ => Ok(value)
  }

  function RenderItems(items: seq<Value>, ctx: Context): Result<seq<Value>, RenderError>
    decreases items, 0
  {
    if items == [] then Ok([])
    else match RenderValue(items[0], ctx)
      case Err(e) => Err(e)
      case Ok(first) =>
        match RenderItems(items[1..], ctx)
        case Err(e) => Err(e)
        case Ok(rest) => Ok([first] + rest)
  }

  function RenderMembers(members: seq<Field>, ctx: Context): Result<seq<Field>, RenderError>
    decreases members, 0
  {
    if members == [] then Ok([])
    else match RenderValue(members[0].value, ctx)
      case Err(e) => Err(e)
      case Ok(first) =>
        match RenderMembers(members[1..], ctx)
        case Err(e) => Err(e)
        case Ok(rest) => Ok([Field(members[0].key, first)] + rest)
  }

  /** `text` is a string of the tree, at any depth. */
  ghost predicate IsLeaf(value: Value, text: string)
    decreases value
  {
    match value
    case String(t) => t == text
    case Array(items) => exists i {:trigger items[i]} :: 0 <= i < |items| && IsLeaf(items[i], text)
    case Object(members) => exists i {:trigger members[i]} :: 0 <= i < |members| && IsLeaf(members[i].value, text)
    case _ => false
  }

  /** The upstream nodes that a string refers to; none when it is not a template. */
  function Referred(text: string): set<string> {
    match ParseFrom(text, 0)
    case Err(_) => {}
    case Ok(template) => set n | n in UpstreamNodes(template)
  }

  /** `node` is referred to by a string of the tree. */
  ghost predicate Refers(value: Value, node: string) {
    exists text :: IsLeaf(value, text) && node in Referred(text)
  }

  // ---- Collecting the referred upstreams ----

  /** `before` with every name that a string within `value` refers to. */
  method ReferredUpstreams(value: Value, before: set<string>) returns (nodes: set<string>)
    ensures forall n :: n in nodes <==> n in before || Refers(value, n)
    decreases value
  {
    nodes := before;
    match value
    case String(text) =>
      var template := Parse(text);
      if template.Ok? {
        nodes := nodes + set n | n in UpstreamNodes(template.value);
      }
      assert IsLeaf(value, text);
    case Array(items) =>
      for i := 0 to |items|
        invariant forall n :: n in nodes <==> n in before || exists j {:trigger items[j]} :: 0 <= j < i && Refers(items[j], n)
      {
        nodes := ReferredUpstreams(items[i], nodes);
      }
      ArrayRefers(value);
    case Object(members) =>
      for i := 0 to |members|
        invariant forall n :: n in nodes <==> n in before || exists j {:trigger members[j]} :: 0 <= j < i && Refers(members[j].value, n)
      {
        nodes := ReferredUpstreams(members[i].value, nodes);
      }
      ObjectRefers(value);
    case _ =>
      assert forall text :: !IsLeaf(value, text);
  }

  lemma ArrayRefers(value: Value)
    requires value.Array?
    ensures forall n :: Refers(value, n) <==>
              exists j {:trigger value.items[j]} :: 0 <= j < |value.items| && Refers(value.items[j], n)
  {
    forall n | Refers(value, n)
      ensures exists j {:trigger value.items[j]} :: 0 <= j < |value.items| && Refers(value.items[j], n)
    {
      var text :| IsLeaf(value, text) && n in Referred(text);
      var j :| 0 <= j < |value.items| && IsLeaf(value.items[j], text);
      assert Refers(value.items[j], n);
    }
    forall n, j | 0 <= j < |value.items| && Refers(value.items[j], n)
      ensures Refers(value, n)
    {
      var text :| IsLeaf(value.items[j], text) && n in Referred(text);
      assert IsLeaf(value, text);
    }
  }

  lemma ObjectRefers(value: Value)
    requires value.Object?
    ensures forall n :: Refers(value, n) <==>
              exists j {:trigger value.members[j]} :: 0 <= j < |value.members| && Refers(value.members[j].value, n)
  {
    forall n | Refers(value, n)
      ensures exists j {:trigger value.members[j]} :: 0 <= j < |value.members| && Refers(value.members[j].value, n)
    {
      var text :| IsLeaf(value, text) && n in Referred(text);
      var j :| 0 <= j < |value.members| && IsLeaf(value.members[j].value, text);
      assert Refers(value.members[j].value, n);
    }
    forall n, j | 0 <= j < |value.members| && Refers(value.members[j].value, n)
      ensures Refers(value, n)
    {
      var text :| IsLeaf(value.members[j].value, text) && n in Referred(text);
      assert IsLeaf(value, text);
    }
  }

  // ---- What rendering reads ----

  /** Two contexts that differ at most in the outputs of other upstreams than `nodes`. */
  ghost predicate SameFor(a: Context, b: Context, nodes: iset<string>) {
    && a.partition == b.partition && a.runId == b.runId && a.summary == b.summary
    && a.env == b.env && a.item == b.item && a.json == b.json
    && forall n {:trigger n in nodes} :: n in nodes ==>
         (n in a.upstream <==> n in b.upstream) && (n in a.upstream ==> a.upstream[n] == b.upstream[n])
  }

  lemma {:induction false} TemplateReadsReferred(template: Template, a: Context, b: Context, nodes: iset<string>)
    requires SameFor(a, b, nodes)
    requires forall n :: n in UpstreamNodes(template) ==> n in nodes
    ensures Rendered(template, a) == Rendered(template, b)
  {
    if template != [] {
      assert template[0].Upstream? ==> template[0].node in UpstreamNodes(template);
      assert forall n :: n in UpstreamNodes(template[1..]) ==> n in UpstreamNodes(template);
      TemplateReadsReferred(template[1..], a, b, nodes);
    }
  }

  ghost function LeafNodes(value: Value): iset<string> {
    iset n | Refers(value, n)
  }

  lemma {:induction false} RenderReadsReferred(value: Value, a: Context, b: Context, nodes: iset<string>)
    requires SameFor(a, b, nodes) && LeafNodes(value) <= nodes
    ensures RenderValue(value, a) == RenderValue(value, b)
    decreases value, 1
  {
    match value
    case String(text) =>
      var parsed := ParseFrom(text, 0);
      if parsed.Ok? {
        forall n | n in UpstreamNodes(parsed.value)
          ensures n in nodes
        {
          assert n in Referred(text) && IsLeaf(value, text);
          assert n in LeafNodes(value);
        }
        TemplateReadsReferred(parsed.value, a, b, nodes);
      }
    case Array(items) =>
      ArrayRefers(value);
      forall i | 0 <= i < |items|
        ensures LeafNodes(items[i]) <= nodes
      {
        assert LeafNodes(items[i]) <= LeafNodes(value);
      }
      ItemsReadReferred(items, a, b, nodes);
    case Object(members) =>
      ObjectRefers(value);
      forall i | 0 <= i < |members|
        ensures LeafNodes(members[i].value) <= nodes
      {
        assert LeafNodes(members[i].value) <= LeafNodes(value);
      }
      MembersReadReferred(members, a, b, nodes);
    case _ =>
  }

  lemma {:induction false} ItemsReadReferred(items: seq<Value>, a: Context, b: Context, nodes: iset<string>)
    requires SameFor(a, b, nodes)
    requires forall i {:trigger items[i]} :: 0 <= i < |items| ==> LeafNodes(items[i]) <= nodes
    ensures RenderItems(items, a) == RenderItems(items, b)
    decreases items, 0
  {
    if items != [] {
      RenderReadsReferred(items[0], a, b, nodes);
      ItemsReadReferred(items[1..], a, b, nodes);
    }
  }

  lemma {:induction false} MembersReadReferred(members: seq<Field>, a: Context, b: Context, nodes: iset<string>)
    requires SameFor(a, b, nodes)
    requires forall i {:trigger members[i]} :: 0 <= i < |members| ==> LeafNodes(members[i].value) <= nodes
    ensures RenderMembers(members, a) == RenderMembers(members, b)
    decreases members, 0
  {
    if members != [] {
      RenderReadsReferred(members[0].value, a, b, nodes);
      MembersReadReferred(members[1..], a, b, nodes);
    }
  }

  // ---- Which errors a checked tree can give ----

  /** Every string of the tree is a template that refers to upstreams among `nodes`
      and, unless the node is mapped, to no item. */
  ghost predicate IsChecked(value: Value, nodes: set<string>, mapped: bool) {
    forall text {:trigger IsLeaf(value, text)} :: IsLeaf(value, text) ==> IsCheckedText(text, nodes, mapped)
  }

  ghost predicate IsCheckedText(text: string, nodes: set<string>, mapped: bool) {
    && ParseFrom(text, 0).Ok?
    && (forall n :: n in UpstreamNodes(ParseFrom(text, 0).value) ==> n in nodes)
    && (RefersToItem(ParseFrom(text, 0).value) ==> mapped)
  }

  /** An error that a present output or item cannot rule out. */
  predicate IsDataError(e: RenderError) {
    e.MissingPath? || e.MissingEnv? || e.MissingItemPath?
  }

  lemma {:induction false} CheckedTemplateErrors(template: Template, ctx: Context)
    requires RefersToItem(template) ==> ctx.item.Some?
    ensures Rendered(template, ctx) != Err(MissingItem)
    ensures (forall n :: n in UpstreamNodes(template) ==> n in ctx.upstream) ==>
              Rendered(template, ctx).Err? ==> IsDataError(Rendered(template, ctx).error)
  {
    if template != [] {
      assert template[0].Upstream? ==> template[0].node in UpstreamNodes(template);
      assert forall n :: n in UpstreamNodes(template[1..]) ==> n in UpstreamNodes(template);
      assert RefersToItem(template[1..]) ==> RefersToItem(template) by {
        if i :| 0 <= i < |template[1..]| && template[1..][i].Item? {
          assert template[i + 1].Item?;
        }
      }
      CheckedTemplateErrors(template[1..], ctx);
    }
  }

  /** Rendering a checked tree never misses the item, nor an upstream whose output
      is there. */
  lemma {:induction false} CheckedTreeErrors(value: Value, nodes: set<string>, mapped: bool, ctx: Context)
    requires IsChecked(value, nodes, mapped)
    requires mapped ==> ctx.item.Some?
    ensures RenderValue(value, ctx) != Err(MissingItem)
    ensures nodes <= ctx.upstream.Keys && RenderValue(value, ctx).Err? ==> IsDataError(RenderValue(value, ctx).error)
    decreases value, 1
  {
    match value
    case String(text) =>
      assert IsLeaf(value, text);
      CheckedTemplateErrors(ParseFrom(text, 0).value, ctx);
    case Array(items) =>
      forall i | 0 <= i < |items|
        ensures IsChecked(items[i], nodes, mapped)
      {
        assert forall text :: IsLeaf(items[i], text) ==> IsLeaf(value, text);
      }
      CheckedItemsErrors(items, nodes, mapped, ctx);
    case Object(members) =>
      forall i | 0 <= i < |members|
        ensures IsChecked(members[i].value, nodes, mapped)
      {
        assert forall text :: IsLeaf(members[i].value, text) ==> IsLeaf(value, text);
      }
      CheckedMembersErrors(members, nodes, mapped, ctx);
    case _ =>
  }

  lemma {:induction false} CheckedItemsErrors(items: seq<Value>, nodes: set<string>, mapped: bool, ctx: Context)
    requires forall i {:trigger items[i]} :: 0 <= i < |items| ==> IsChecked(items[i], nodes, mapped)
    requires mapped ==> ctx.item.Some?
    ensures RenderItems(items, ctx) != Err(MissingItem)
    ensures nodes <= ctx.upstream.Keys && RenderItems(items, ctx).Err? ==> IsDataError(RenderItems(items, ctx).error)
    decreases items, 0
  {
    if items != [] {
      CheckedTreeErrors(items[0], nodes, mapped, ctx);
      CheckedItemsErrors(items[1..], nodes, mapped, ctx);
    }
  }

  lemma {:induction false} CheckedMembersErrors(members: seq<Field>, nodes: set<string>, mapped: bool, ctx: Context)
    requires forall i {:trigger members[i]} :: 0 <= i < |members| ==> IsChecked(members[i].value, nodes, mapped)
    requires mapped ==> ctx.item.Some?
    ensures RenderMembers(members, ctx) != Err(MissingItem)
    ensures nodes <= ctx.upstream.Keys && RenderMembers(members, ctx).Err? ==> IsDataError(RenderMembers(members, ctx).error)
    decreases members, 0
  {
    if members != [] {
      CheckedTreeErrors(members[0].value, nodes, mapped, ctx);
      CheckedMembersErrors(members[1..], nodes, mapped, ctx);
    }
  }
}
