/** The definitions of a deployment and their adoption (swale/src/definition_store.rs,
    swale/src/daemon.rs). */
module Definitions {
  import opened Wrappers
  import opened Records
  import opened Graphs
  import opened GraphCheck
  import opened Keys
  import opened Json

  /** The first node of `g` whose asset a node of `h` produces as well. */
  function ConflictingAsset(g: Graph, h: Graph, from: nat := 0): (at: Option<nat>)
    requires from <= |g.nodes|
    ensures at.Some? ==> from <= at.value < |g.nodes| && Produces(h, g.nodes[at.value].Asset())
    ensures forall i :: from <= i < (if at.Some? then at.value else |g.nodes|) ==> !Produces(h, g.nodes[i].Asset())
    decreases |g.nodes| - from
  {
    if from == |g.nodes| then None
    else if Produces(h, g.nodes[from].Asset()) then Some(from)
    else ConflictingAsset(g, h, from + 1)
  }

  predicate Produces(g: Graph, asset: Option<Name>) {
    asset.Some? && exists i :: 0 <= i < |g.nodes| && g.nodes[i].Asset() == asset
  }

  lemma NoConflictSharesNothing(g: Graph, h: Graph)
    ensures ConflictingAsset(g, h).None? <==> SharesNoAsset(g, h)
    ensures SharesNoAsset(g, h) <==> SharesNoAsset(h, g)
  {
    var at := ConflictingAsset(g, h);
    if at.None? {
      forall i, j {:trigger g.nodes[i], h.nodes[j]} | 0 <= i < |g.nodes| && 0 <= j < |h.nodes| && g.nodes[i].Asset().Some?
        ensures g.nodes[i].Asset() != h.nodes[j].Asset()
      {
        assert !Produces(h, g.nodes[i].Asset());
      }
    } else {
      var j :| 0 <= j < |h.nodes| && h.nodes[j].Asset() == g.nodes[at.value].Asset();
      assert g.nodes[at.value].Asset().Some?;
    }
  }

  // ---- What a hash refers to ----

  /** The content hash of a text and the checked graph of a text are library code and
      `GraphCheck.Build`; texts with the same hash are the same. */
  datatype Loader = Loader(hash: string -> string, load: string -> Option<Graph>) {
    ghost predicate Sound() {
      && (forall a, b :: hash(a) == hash(b) ==> a == b)
      && (forall text :: load(text).Some? ==> IsNamed(load(text).value) && load(text).value.Valid())
    }

    /** The graph of the definition with the hash, whichever object holds its text. */
    ghost function Meaning(h: string): Option<Graph> {
      if exists text :: hash(text) == h then
        var text :| hash(text) == h;
        load(text)
      else None
    }

    lemma MeaningOfText(text: string)
      requires Sound()
      ensures Meaning(hash(text)) == load(text)
    {
    }

    /** The definitions of the names are of graphs of those names that share no asset. */
    ghost predicate Disjoint(current: map<Name, string>) {
      && (forall n :: n in current && Meaning(current[n]).Some? ==> Meaning(current[n]).value.name == n)
      && (forall n, m :: n in current && m in current && n != m ==> Apart(current[n], current[m]))
    }

    ghost predicate Apart(a: string, b: string) {
      Meaning(a).Some? && Meaning(b).Some? ==> SharesNoAsset(Meaning(a).value, Meaning(b).value)
    }

    ghost predicate IsOf(c: Checked) {
      load(c.text) == Some(c.graph) && hash(c.text) == c.hash
    }

    /** The pointers after the write of a publish; one that found its own hash writes none. */
    function Moved(pointers: map<Name, string>, c: Checked): map<Name, string> {
      if c.current == Some(c.hash) then pointers else pointers[c.graph.name := c.hash]
    }

    /** No pointer of another graph is of a definition that shares an asset. */
    ghost predicate Fits(pointers: map<Name, string>, c: Checked) {
      forall n :: n in pointers && n != c.graph.name ==> Apart(c.hash, pointers[n])
    }

    /** Moving a pointer keeps the definitions disjoint exactly when it fits the others. */
    lemma MoveKeepsDisjointExactly(pointers: map<Name, string>, c: Checked)
      requires Sound() && IsOf(c) && Disjoint(pointers)
      ensures Disjoint(pointers[c.graph.name := c.hash]) <==> Fits(pointers, c)
    {
      MeaningOfText(c.text);
      var after := pointers[c.graph.name := c.hash];
      if Fits(pointers, c) {
        DisjointWith(pointers, c.graph.name, c.hash);
      } else {
        var n :| n in pointers && n != c.graph.name && !Apart(c.hash, pointers[n]);
        assert !Apart(after[c.graph.name], after[n]);
      }
    }

    /** A publish that fitted the pointers it read breaks those it writes to exactly when
        another pointer has moved meanwhile to a definition that shares an asset. */
    lemma OverlapBreaksExactly(read: map<Name, string>, pointers: map<Name, string>, c: Checked)
      requires Sound() && IsOf(c) && Fits(read, c) && Disjoint(pointers) && c.current != Some(c.hash)
      ensures !Disjoint(Moved(pointers, c)) <==>
              exists n :: n in pointers && n != c.graph.name && !(n in read && read[n] == pointers[n])
                          && !Apart(c.hash, pointers[n])
    {
      hide Apart, Disjoint, Sound;
      MoveKeepsDisjointExactly(pointers, c);
    }

    /** After both of two publishes that fitted the same pointers. */
    lemma BothMoved(read: map<Name, string>, one: Checked, two: Checked)
      requires Sound() && IsOf(one) && IsOf(two) && Disjoint(read) && Fits(read, one) && Fits(read, two)
      requires one.current == if one.graph.name in read then Some(read[one.graph.name]) else None
      requires two.current == if two.graph.name in read then Some(read[two.graph.name]) else None
      ensures var after := Moved(Moved(read, one), two);
              if one.graph.name == two.graph.name then Disjoint(after)
              else Disjoint(after) <==> SharesNoAsset(one.graph, two.graph)
    {
      hide Disjoint, Sound, Fits, IsOf, SharesNoAsset;
      MoveKeepsDisjointExactly(read, one);
      if two.current == Some(two.hash) {
        if one.graph.name != two.graph.name {
          StillApart(read, two, one);
        }
      } else {
        MoveKeepsDisjointExactly(Moved(read, one), two);
        FitsMoved(read, one, two);
      }
    }

    /** The second still fits after the first moved exactly when they share no asset. */
    lemma FitsMoved(read: map<Name, string>, one: Checked, two: Checked)
      requires Sound() && IsOf(one) && IsOf(two) && Fits(read, one) && Fits(read, two)
      requires one.current == if one.graph.name in read then Some(read[one.graph.name]) else None
      ensures one.graph.name == two.graph.name ==> Fits(Moved(read, one), two)
      ensures one.graph.name != two.graph.name ==>
                (Fits(Moved(read, one), two) <==> SharesNoAsset(one.graph, two.graph))
    {
      hide Disjoint, SharesNoAsset;
      MeaningOfText(one.text);
      MeaningOfText(two.text);
      NoConflictSharesNothing(one.graph, two.graph);
      var moved := Moved(read, one);
      assert one.graph.name in moved && moved[one.graph.name] == one.hash;
      assert Apart(two.hash, one.hash) <==> SharesNoAsset(two.graph, one.graph);
      if Apart(two.hash, one.hash) || one.graph.name == two.graph.name {
        forall n | n in moved && n != two.graph.name
          ensures Apart(two.hash, moved[n])
        {
          assert n != one.graph.name ==> n in read && moved[n] == read[n];
        }
      }
    }

    lemma StillApart(read: map<Name, string>, two: Checked, one: Checked)
      requires Sound() && IsOf(one) && IsOf(two) && Fits(read, one)
      requires two.graph.name in read && read[two.graph.name] == two.hash && one.graph.name != two.graph.name
      ensures SharesNoAsset(one.graph, two.graph)
    {
      MeaningOfText(one.text);
      MeaningOfText(two.text);
      assert Apart(one.hash, read[two.graph.name]);
    }

    lemma DisjointWith(current: map<Name, string>, name: Name, h: string)
      requires Disjoint(current) && Meaning(h).Some? && Meaning(h).value.name == name
      requires forall n :: n in current && n != name ==> Apart(h, current[n])
      ensures Disjoint(current[name := h])
    {
      forall n | n in current && n != name
        ensures Apart(current[n], h)
      {
        assert Apart(h, current[n]);
        if Meaning(current[n]).Some? {
          NoConflictSharesNothing(Meaning(h).value, Meaning(current[n]).value);
        }
      }
    }
  }

  datatype DefinitionError = Invalid | HashMismatch(hash: string) | AssetConflict(asset: Option<Name>, graph: Name) | StoreFailed

  /** A text that passed the checks of a publish, with the hash that the pointer of its
      graph referred to when the pointers were read. */
  datatype Checked = Checked(text: string, graph: Graph, hash: string, current: Option<string>)

  datatype Published = Published(graph: Graph, hash: string, changed: bool)

  datatype Refusal =
    | Absent
    | DoesNotLoad(error: DefinitionError)
    | OtherGraph(name: Name)
    | NoRuntime(node: Name)
    | ProducedBy(node: Name, graph: Name)

  datatype SyncReport = SyncReport(adopted: map<Name, string>, refused: map<Name, Refusal>)

  /** The object store of a deployment, the graph records of its daemon, and the
      cache of the process. */
  class Deployment {
    const loader: Loader
    const pools: set<Name>
    var objects: map<string, string>
    var pointers: map<Name, string>
    var adopted: map<Name, string>
    var cached: map<string, Graph>

    constructor (loader: Loader, pools: set<Name>)
      requires loader.Sound()
      ensures Valid() && loader.Disjoint(pointers) && adopted == map[]
    {
      this.loader, this.pools := loader, pools;
      objects, pointers, adopted, cached := map[], map[], map[], map[];
    }

    /** The pointers and the objects are not deleted, and the graph records are of
        pointers; the adopted graphs share no asset. An object may be damaged. */
    ghost predicate Valid()
      reads this
    {
      && loader.Sound()
      && (forall h :: h in cached ==> loader.Meaning(h) == Some(cached[h]))
      && (forall n :: n in pointers ==> pointers[n] in objects)
      && (forall n :: n in adopted ==> n in pointers && adopted[n] in objects)
      && (forall n :: n in adopted ==> loader.Meaning(adopted[n]).Some?)
      && loader.Disjoint(adopted)
    }

    /** The graph of a hash: from the cache, or from its object, whose text must have
        the hash. */
    method Get(h: string) returns (r: Result<Option<Graph>, DefinitionError>)
      requires Valid()
      modifies this`cached
      ensures Valid()
      ensures r.Ok? && r.value.Some? ==> loader.Meaning(h) == r.value
      ensures r.Ok? && r.value.None? ==> h !in objects
      ensures r.Ok? ==> LoadsFrom(old(cached), h)
      ensures cached == old(cached) || (!IsDamaged(h) && h in cached && cached == old(cached)[h := cached[h]])
      ensures r.Err? ==>
                h in objects
                && (if loader.hash(objects[h]) != h then r.error == HashMismatch(h)
                    else r.error == Invalid && loader.Meaning(h).None?)
    {
      if h in cached {
        return Ok(Some(cached[h]));
      }
      if h !in objects {
        return Ok(None);
      }
      var text := objects[h];
      if loader.hash(text) != h {
        return Err(HashMismatch(h));
      }
      loader.MeaningOfText(text);
      var graph := loader.load(text);
      if graph.None? {
        return Err(Invalid);
      }
      cached := cached[h := graph.value];
      r := Ok(graph);
    }

    /** The current definition of another graph than `name` does not load, for that reason. */
    ghost predicate IsOfAnother(name: Name, e: DefinitionError)
      reads this`pointers, this`objects
    {
      exists n :: n in pointers && n != name
                  && ((e == HashMismatch(pointers[n]) && IsDamaged(pointers[n]))
                      || (e == Invalid && loader.Meaning(pointers[n]).None?))
    }

    /** No current definition of another graph produces an asset of `g`. */
    method FindConflict(g: Graph, h: string) returns (r: Result<(), DefinitionError>)
      requires Valid() && loader.Meaning(h) == Some(g)
      modifies this`cached
      ensures Valid()
      ensures r.Ok? ==> forall n :: n in pointers && n != g.name ==> loader.Apart(h, pointers[n])
      ensures r.Err? && r.error.AssetConflict? ==>
        r.error.graph in pointers && r.error.graph != g.name && !loader.Apart(h, pointers[r.error.graph])
      ensures r.Err? ==> r.error.AssetConflict? || IsOfAnother(g.name, r.error)
    {
      hide Loader.Sound, Loader.Disjoint, Loader.Meaning, SharesNoAsset, ConflictingAsset;
      var todo := pointers.Keys;
      while todo != {}
        invariant Valid() && todo <= pointers.Keys
        invariant forall n :: n in pointers && n !in todo && n != g.name ==> loader.Apart(h, pointers[n])
        decreases todo
      {
        var name :| name in todo;
        todo := todo - {name};
        if name != g.name {
          var other := Get(pointers[name]);
          if other.Err? {
            return Err(other.error);
          }
          if other.value.Some? {
            NoConflictSharesNothing(g, other.value.value);
            var at := ConflictingAsset(g, other.value.value);
            if at.Some? {
              return Err(AssetConflict(g.nodes[at.value].Asset(), name));
            }
          }
        }
      }
      r := Ok(());
    }

    /** Writes the object of a checked text and caches its graph. */
    method Write(text: string, g: Graph) returns (stored: Graph)
      requires Valid() && loader.load(text) == Some(g)
      modifies this`objects, this`cached
      ensures Valid() && stored == g
      ensures objects == old(objects)[loader.hash(text) := text]
    {
      hide Loader.Disjoint, Loader.Meaning;
      loader.MeaningOfText(text);
      var h := loader.hash(text);
      objects := objects[h := text];
      if h !in cached {
        cached := cached[h := g];
      }
      stored := cached[h];
    }

    /** The checks of a publish, against the pointers as they are read. */
    method CheckPublish(text: string) returns (r: Result<Checked, DefinitionError>)
      requires Valid()
      modifies this`cached
      ensures Valid()
      ensures r.Ok? ==>
        && loader.IsOf(r.value) && r.value.text == text && loader.Fits(pointers, r.value)
        && r.value.current == if r.value.graph.name in pointers then Some(pointers[r.value.graph.name]) else None
      ensures r.Err? && r.error.AssetConflict? ==>
        && loader.load(text).Some? && r.error.graph in pointers && r.error.graph != loader.load(text).value.name
        && !loader.Apart(loader.hash(text), pointers[r.error.graph])
      ensures r.Err? && !r.error.AssetConflict? ==>
        if loader.load(text).None? then r.error == Invalid else IsOfAnother(loader.load(text).value.name, r.error)
    {
      hide Loader.Sound, Loader.Disjoint, Loader.Meaning, Loader.Apart, SharesNoAsset, IsOfAnother;
      var graph := loader.load(text);
      if graph.None? {
        return Err(Invalid);
      }
      loader.MeaningOfText(text);
      var g, h := graph.value, loader.hash(text);
      var conflicts := FindConflict(g, h);
      if conflicts.Err? {
        return Err(conflicts.error);
      }
      r := Ok(Checked(text, g, h, if g.name in pointers then Some(pointers[g.name]) else None));
    }

    /** The writes of a publish, which may fail, `fails` telling after how many. The
        pointers may have moved since its checks, and are not compared. */
    method CommitPublish(c: Checked, fails: Option<nat>) returns (r: Result<Published, DefinitionError>)
      requires Valid() && loader.IsOf(c) && (c.current.Some? ==> c.graph.name in pointers)
      modifies this`objects, this`pointers, this`cached
      ensures Valid()
      ensures objects == old(objects) || objects == old(objects)[c.hash := c.text]
      ensures r.Ok? ==>
        && pointers == loader.Moved(old(pointers), c) && objects == old(objects)[c.hash := c.text]
        && r.value == Published(c.graph, c.hash, c.current != Some(c.hash))
      ensures r.Err? ==> pointers == old(pointers) && r.error == StoreFailed && fails.Some?
      ensures old(loader.Disjoint(pointers)) && pointers != old(pointers) ==>
        (loader.Disjoint(pointers) <==> loader.Fits(old(pointers), c))
    {
      hide Loader.Sound, Loader.Disjoint, Loader.Meaning, Loader.Fits;
      if fails == Some(0) {
        return Err(StoreFailed);
      }
      var stored := Write(c.text, c.graph);
      var changed := c.current != Some(c.hash);
      if changed {
        if fails == Some(1) {
          return Err(StoreFailed);
        }
        if loader.Disjoint(pointers) {
          loader.MoveKeepsDisjointExactly(pointers, c);
        }
        pointers := pointers[c.graph.name := c.hash];
      }
      r := Ok(Published(stored, c.hash, changed));
    }

    /** Makes `text` what the pointer of its graph refers to, unless another pointer's
        graph has one of its assets; no other publish overlaps. */
    method Publish(text: string, fails: Option<nat>) returns (r: Result<Published, DefinitionError>)
      requires Valid()
      modifies this`objects, this`pointers, this`cached
      ensures Valid() && (old(loader.Disjoint(pointers)) ==> loader.Disjoint(pointers))
      ensures pointers == old(pointers)
              || (loader.load(text).Some?
                  && pointers == old(pointers)[loader.load(text).value.name := loader.hash(text)])
      ensures objects == old(objects) || objects == old(objects)[loader.hash(text) := text]
      ensures r.Ok? ==>
        && loader.load(text) == Some(r.value.graph) && r.value.hash == loader.hash(text)
        && pointers == old(pointers)[r.value.graph.name := r.value.hash]
        && (r.value.changed <==> pointers != old(pointers))
        && (forall n :: n in old(pointers) && n != r.value.graph.name ==> loader.Apart(r.value.hash, old(pointers)[n]))
      ensures r.Err? && r.error.AssetConflict? ==>
        && objects == old(objects) && pointers == old(pointers)
        && loader.load(text).Some? && r.error.graph in pointers && r.error.graph != loader.load(text).value.name
        && !loader.Apart(loader.hash(text), pointers[r.error.graph])
      ensures r.Err? ==>
        pointers == old(pointers)
        && (r.error.AssetConflict?
            || (r.error == StoreFailed && fails.Some?)
            || (if loader.load(text).None? then r.error == Invalid
                else old(IsOfAnother(loader.load(text).value.name, r.error))))
    {
      hide Loader.Sound, Loader.Disjoint, Loader.Meaning, Loader.Apart, SharesNoAsset;
      var checked := CheckPublish(text);
      if checked.Err? {
        return Err(checked.error);
      }
      r := CommitPublish(checked.value, fails);
    }

    /** Two publishes that both check before either writes. Both pass, and the current
        definitions then share no asset exactly when the two do not. */
    method PublishBoth(first: string, second: string)
      returns (r: Result<(Published, Published), DefinitionError>)
      requires Valid() && loader.Disjoint(pointers)
      modifies this`objects, this`pointers, this`cached
      ensures Valid()
      ensures r.Ok? && r.value.0.graph.name != r.value.1.graph.name ==>
        (loader.Disjoint(pointers) <==> SharesNoAsset(r.value.0.graph, r.value.1.graph))
      ensures r.Ok? && r.value.0.graph.name == r.value.1.graph.name ==> loader.Disjoint(pointers)
      ensures r.Err? ==> pointers == old(pointers)
    {
      hide Loader.Disjoint, Loader.Meaning;
      var one := CheckPublish(first);
      if one.Err? {
        return Err(one.error);
      }
      var two := CheckPublish(second);
      if two.Err? {
        return Err(two.error);
      }
      ghost var read := pointers;
      var a := CommitPublish(one.value, None);
      loader.MoveKeepsDisjointExactly(read, one.value);
      ghost var between := pointers;
      var b := CommitPublish(two.value, None);
      loader.BothMoved(read, one.value, two.value);
      r := Ok((a.value, b.value));
    }

    /** Whether `graph` may be adopted beside `graphs`: nothing, or what speaks against it. */
    method Check(name: Name, graph: Graph, graphs: map<Name, Graph>) returns (reason: Option<Refusal>)
      ensures reason.None? <==>
        && graph.name == name
        && (forall i :: 0 <= i < |graph.nodes| ==> graph.nodes[i].spec.pool in pools)
        && (forall n :: n in graphs && n != name ==> SharesNoAsset(graph, graphs[n]))
      ensures reason.Some? ==>
        match reason.value
        case OtherGraph(n) => n == graph.name != name
        case NoRuntime(n) => graph.name == name && exists i :: 0 <= i < |graph.nodes| && graph.nodes[i].Name() == n && graph.nodes[i].spec.pool !in pools
        case ProducedBy(n, other) =>
          graph.name == name && HasRuntimes(graph) && other in graphs && other != name
          && exists i :: 0 <= i < |graph.nodes| && graph.nodes[i].Name() == n && Produces(graphs[other], graph.nodes[i].Asset())
        case _ => false
    {
      if graph.name != name {
        return Some(OtherGraph(graph.name));
      }
      for i := 0 to |graph.nodes|
        invariant forall k :: 0 <= k < i ==> graph.nodes[k].spec.pool in pools
      {
        if graph.nodes[i].spec.pool !in pools {
          return Some(NoRuntime(graph.nodes[i].Name()));
        }
      }
      var todo := graphs.Keys;
      while todo != {}
        invariant todo <= graphs.Keys
        invariant forall n :: n in graphs && n !in todo && n != name ==> SharesNoAsset(graph, graphs[n])
        decreases todo
      {
        var other :| other in todo;
        todo := todo - {other};
        if other != name {
          NoConflictSharesNothing(graph, graphs[other]);
          var at := ConflictingAsset(graph, graphs[other]);
          if at.Some? {
            return Some(ProducedBy(graph.nodes[at.value].Name(), other));
          }
        }
      }
      reason := None;
    }

    /** Every adopted graph, by name, and the names whose pointer is not adopted. */
    method LoadAdopted(current: map<Name, string>)
      returns (r: Result<map<Name, Graph>, DefinitionError>, pending: set<Name>)
      requires Valid() && adopted.Keys <= current.Keys
      modifies this`cached
      ensures Valid()
      ensures r.Ok? ==> AreAdopted(r.value)
      ensures r.Ok? ==> pending == Pending(adopted, current)
      ensures r.Err? ==> exists n :: n in adopted && IsDamaged(adopted[n]) && r.error == HashMismatch(adopted[n])
      ensures r.Ok? ==> AllLoad(old(cached), adopted, {})
    {
      hide Loader.Sound, Loader.Disjoint, Loader.Meaning, IsGrown, AllLoad, LoadsFrom;
      GrowsAtFirst();
      var graphs: map<Name, Graph> := map[];
      var todo := current.Keys;
      pending := {};
      while todo != {}
        invariant Valid() && todo <= current.Keys
        invariant graphs.Keys == adopted.Keys - todo
        invariant forall n :: n in graphs ==> loader.Meaning(adopted[n]) == Some(graphs[n])
        invariant IsGrown(old(cached), cached) && AllLoad(old(cached), adopted, todo)
        invariant pending == set n | n in current && n !in todo && !(n in adopted && adopted[n] == current[n])
        decreases todo
      {
        var name :| name in todo;
        ghost var left := todo;
        todo := todo - {name};
        assert left == todo + {name};
        ghost var was := cached;
        if name in adopted {
          var loaded := Get(adopted[name]);
          CacheGrows(old(cached), was, adopted[name]);
          if loaded.Err? {
            assert IsDamaged(adopted[name]);
            return Err(loaded.error), pending;
          }
          if loaded.value.Some? {
            graphs := graphs[name := loaded.value.value];
          }
        }
        OneMoreLoads(old(cached), adopted, todo, name);
        if name !in adopted || adopted[name] != current[name] {
          pending := pending + {name};
        }
      }
      r := Ok(graphs);
    }

    ghost predicate AreAdopted(graphs: map<Name, Graph>)
      reads this
    {
      graphs.Keys == adopted.Keys && forall n :: n in graphs ==> loader.Meaning(adopted[n]) == Some(graphs[n])
    }

    /** The object of the hash holds a text with another hash. */
    predicate IsDamaged(h: string)
      reads this`objects
    {
      h in objects && loader.hash(objects[h]) != h
    }

    /** The hash has its graph in the cache, or its object is intact. */
    predicate LoadsFrom(cache: map<string, Graph>, h: string)
      reads this`objects
    {
      h in cache || !IsDamaged(h)
    }

    ghost predicate AllLoad(cache: map<string, Graph>, graphs: map<Name, string>, but: set<Name>)
      reads this`objects
    {
      forall n {:trigger n in graphs} :: n in graphs && n !in but ==> LoadsFrom(cache, graphs[n])
    }

    /** What was cached since is intact. */
    ghost predicate IsGrown(first: map<string, Graph>, now: map<string, Graph>)
      reads this`objects
    {
      forall h {:trigger h in now} :: h in now ==> LoadsFrom(first, h)
    }

    lemma GrowsAtFirst()
      ensures IsGrown(cached, cached)
      ensures forall graphs: map<Name, string>, but: set<Name> :: graphs.Keys <= but ==> AllLoad(cached, graphs, but)
    {
    }

    lemma CacheGrows(first: map<string, Graph>, was: map<string, Graph>, h: string)
      requires IsGrown(first, was)
      requires cached == was || (!IsDamaged(h) && h in cached && cached == was[h := cached[h]])
      ensures IsGrown(first, cached)
      ensures LoadsFrom(was, h) ==> LoadsFrom(first, h)
    {
    }

    lemma OneMoreLoads(cache: map<string, Graph>, graphs: map<Name, string>, but: set<Name>, n: Name)
      requires AllLoad(cache, graphs, but + {n}) && (n in graphs ==> LoadsFrom(cache, graphs[n]))
      ensures AllLoad(cache, graphs, but)
    {
      hide LoadsFrom;
    }

    /** Every node of the graph has a pool with a runtime. */
    predicate HasRuntimes(g: Graph) {
      forall i :: 0 <= i < |g.nodes| ==> g.nodes[i].spec.pool in pools
    }

    /** The reason holds of the definition `h` of the pointer `name`, beside graphs that
        were adopted before or after. */
    ghost predicate IsTrueOf(name: Name, h: string, before: map<Name, string>, after: map<Name, string>, reason: Refusal)
      reads this`objects
    {
      match reason
      case Absent => h !in objects
      case DoesNotLoad(HashMismatch(of)) => of == h && IsDamaged(h)
      case DoesNotLoad(Invalid) => h in objects && loader.Meaning(h).None?
      case DoesNotLoad(_) => false
      case OtherGraph(other) => loader.Meaning(h).Some? && loader.Meaning(h).value.name == other != name
      case NoRuntime(node) =>
        loader.Meaning(h).Some? && loader.Meaning(h).value.name == name
        && var g := loader.Meaning(h).value;
        exists i :: 0 <= i < |g.nodes| && g.nodes[i].Name() == node && g.nodes[i].spec.pool !in pools
      case ProducedBy(node, other) =>
        loader.Meaning(h).Some? && loader.Meaning(h).value.name == name && HasRuntimes(loader.Meaning(h).value)
        && other != name
        && ((other in before && ProducesOneOf(before[other], loader.Meaning(h).value, node))
            || (other in after && ProducesOneOf(after[other], loader.Meaning(h).value, node)))
    }

    /** The graph of the definition produces the asset of a node of `g` with the name. */
    ghost predicate ProducesOneOf(h: string, g: Graph, node: Name) {
      loader.Meaning(h).Some?
      && exists i :: 0 <= i < |g.nodes| && g.nodes[i].Name() == node
                     && Produces(loader.Meaning(h).value, g.nodes[i].Asset())
    }

    /** The definition `h` loads, is of the graph `name`, has its runtimes, and shares no
        asset with another graph of `graphs`. */
    ghost predicate IsAdmissible(name: Name, h: string, graphs: map<Name, string>)
      reads this`objects
    {
      && h in objects && !IsDamaged(h)
      && loader.Meaning(h).Some? && loader.Meaning(h).value.name == name && HasRuntimes(loader.Meaning(h).value)
      && forall n :: n in graphs && n != name ==> loader.Apart(h, graphs[n])
    }

    /** No true reason speaks against an admissible definition. */
    lemma AdmissibleIsNotRefused(name: Name, h: string, before: map<Name, string>, after: map<Name, string>, reason: Refusal)
      requires IsAdmissible(name, h, before) && IsAdmissible(name, h, after)
      ensures !IsTrueOf(name, h, before, after, reason)
    {
      hide Loader.Meaning, SharesNoAsset, Produces;
      if reason.ProducedBy? && IsTrueOf(name, h, before, after, reason) {
        var other := reason.graph;
        if other in before && ProducesOneOf(before[other], loader.Meaning(h).value, reason.node) {
          ProducersShare(loader.Meaning(h).value, loader.Meaning(before[other]).value);
        } else {
          ProducersShare(loader.Meaning(h).value, loader.Meaning(after[other]).value);
        }
      }
    }

    /** Adopts the definition `h` of the pointer `name`, or tells why it is refused. */
    method Consider(name: Name, h: string, graphs: map<Name, Graph>) returns (r: Result<Graph, Refusal>)
      requires Valid() && name in pointers && h in objects && AreAdopted(graphs)
      modifies this`adopted, this`cached
      ensures Valid()
      ensures r.Ok? ==> adopted == old(adopted)[name := h] && AreAdopted(graphs[name := r.value])
      ensures r.Err? ==> adopted == old(adopted) && AreAdopted(graphs)
      ensures r.Ok? ==> loader.Meaning(h) == Some(r.value) && r.value.name == name && HasRuntimes(r.value)
      ensures r.Err? ==> IsTrueOf(name, h, adopted, adopted, r.error)
    {
      hide Loader.Sound, Loader.Disjoint, Loader.Meaning, SharesNoAsset, Produces;
      var loaded := Get(h);
      if loaded.Err? {
        return Err(DoesNotLoad(loaded.error));
      }
      if loaded.value.None? {
        return Err(Absent);
      }
      var graph := loaded.value.value;
      var reason := Check(name, graph, graphs);
      if reason.Some? {
        return Err(reason.value);
      }
      loader.DisjointWith(adopted, name, h);
      adopted := adopted[name := h];
      r := Ok(graph);
    }

    lemma ProducersShare(g: Graph, h: Graph)
      requires exists i :: 0 <= i < |g.nodes| && Produces(h, g.nodes[i].Asset())
      ensures !SharesNoAsset(g, h)
    {
      var i :| 0 <= i < |g.nodes| && Produces(h, g.nodes[i].Asset());
      var j :| 0 <= j < |h.nodes| && h.nodes[j].Asset() == g.nodes[i].Asset();
    }

    /** The pass has handled the names of `handled`, as the report says. */
    ghost predicate InPass(before: map<Name, string>, at: map<Name, string>, current: map<Name, string>,
                           handled: set<Name>, report: SyncReport)
      reads this`objects
    {
      && IsReported(before, at, current, handled, report) && IsMoved(before, at, current)
      && AllTrue(before, at, current, report.refused) && HaveRuntimes(before, at)
    }

    lemma PassBegins(adopted: map<Name, string>, current: map<Name, string>)
      ensures InPass(adopted, adopted, current, {}, SyncReport(map[], map[]))
    {
      hide IsReported, IsMoved, AllTrue, HaveRuntimes;
      ReportNothing(adopted, current);
      NothingRefused(adopted, current);
    }

    /** The next name of the pass: adopted, or refused. */
    method HandleNext(name: Name, known: map<Name, Graph>, report: SyncReport, ghost before: map<Name, string>,
                      ghost handled: set<Name>)
      returns (graphs: map<Name, Graph>, next: SyncReport)
      requires Valid() && name in pointers && name !in handled && AreAdopted(known)
      requires InPass(before, adopted, pointers, handled, report)
      modifies this`adopted, this`cached
      ensures Valid() && AreAdopted(graphs)
      ensures InPass(before, adopted, pointers, handled + {name}, next)
      ensures |next.adopted| <= |report.adopted| + 1
    {
      hide Loader.Sound, Loader.Disjoint, Loader.Meaning, Loader.Apart, AreAdopted, IsReported, IsMoved, IsTrueOf,
           IsDamaged, AllTrue, HaveRuntimes;
      ghost var at := adopted;
      var considered := Consider(name, pointers[name], known);
      if considered.Ok? {
        ReportAdopted(before, at, pointers, handled, report, name);
        StillTrue(before, at, pointers, handled, report, name);
        AdoptedHasRuntimes(before, at, name, pointers[name]);
        return known[name := considered.value], report.(adopted := report.adopted[name := pointers[name]]);
      }
      ReportRefused(before, at, pointers, handled, report, name, considered.error);
      TrueBeside(before, at, pointers, handled, report, name, considered.error);
      return known, report.(refused := report.refused[name := considered.error]);
    }

    /** The pending names in turn, up to `crash` adoptions. */
    method AdoptPending(graphs: map<Name, Graph>, pending: set<Name>, crash: Option<nat>)
      returns (r: Result<SyncReport, DefinitionError>)
      requires Valid() && AreAdopted(graphs) && pending == Pending(adopted, pointers)
      modifies this`adopted, this`cached
      ensures Valid()
      ensures r.Ok? ==> InPass(old(adopted), adopted, pointers, pending, r.value)
      ensures r.Ok? && crash.Some? ==> |r.value.adopted| <= crash.value
      ensures r.Err? ==>
        && IsMoved(old(adopted), adopted, pointers) && HaveRuntimes(old(adopted), adopted)
        && crash.Some? && r.error == StoreFailed && HasAdopted(old(adopted), adopted, pointers, crash.value)
    {
      hide Valid, AreAdopted, Pending, InPass, HasAdopted, IsMoved, HaveRuntimes;
      var known, report, todo := graphs, SyncReport(map[], map[]), pending;
      assert pending - todo == {};
      PassBegins(adopted, pointers);
      while todo != {}
        invariant Valid() && todo <= pending && AreAdopted(known)
        invariant InPass(old(adopted), adopted, pointers, pending - todo, report)
        invariant crash.Some? ==> |report.adopted| <= crash.value
        decreases todo
      {
        var name :| name in todo;
        ghost var handled := pending - todo;
        todo := todo - {name};
        assert pending - todo == handled + {name};
        if crash == Some(|report.adopted|) {
          PassSoFar(old(adopted), adopted, pointers, handled, report);
          return Err(StoreFailed);
        }
        known, report := HandleNext(name, known, report, old(adopted), handled);
      }
      assert pending - todo == pending;
      r := Ok(report);
    }

    lemma PassSoFar(before: map<Name, string>, at: map<Name, string>, current: map<Name, string>,
                    handled: set<Name>, report: SyncReport)
      requires InPass(before, at, current, handled, report) && handled <= Pending(before, current)
      ensures IsMoved(before, at, current) && HaveRuntimes(before, at)
      ensures HasAdopted(before, at, current, |report.adopted|)
    {
      hide IsReported, IsMoved, AllTrue, HaveRuntimes;
      ReportCounts(before, at, current, handled, report);
    }

    /** Brings the graph records up to the pointers, as far as the assets allow. It stops
        when an adopted definition does not load, or after `crash` adoptions. */
    method Sync(crash: Option<nat>) returns (r: Result<SyncReport, DefinitionError>)
      requires Valid()
      modifies this`adopted, this`cached
      ensures Valid()
      ensures IsMoved(old(adopted), adopted, pointers)
      ensures r.Ok? ==> IsReported(old(adopted), adopted, pointers, Pending(old(adopted), pointers), r.value)
      ensures r.Ok? ==> AllTrue(old(adopted), adopted, pointers, r.value.refused)
      ensures r.Ok? ==>
        forall n :: n in Pending(old(adopted), pointers)
                    && IsAdmissible(n, pointers[n], old(adopted)) && IsAdmissible(n, pointers[n], adopted)
                    ==> n in r.value.adopted
      ensures HaveRuntimes(old(adopted), adopted)
      ensures r.Ok? ==>
        && AllLoad(old(cached), old(adopted), {})
        && (crash.Some? ==> |r.value.adopted| <= crash.value)
      ensures r.Err? ==>
        || (adopted == old(adopted)
            && exists n :: n in adopted && IsDamaged(adopted[n]) && r.error == HashMismatch(adopted[n]))
        || (crash.Some? && r.error == StoreFailed && HasAdopted(old(adopted), adopted, pointers, crash.value))
    {
      hide Loader.Sound, Loader.Disjoint, Loader.Meaning, Loader.Apart, AreAdopted, IsReported, IsMoved, Pending, IsTrueOf,
           HasAdopted, IsAdmissible, AllLoad, IsDamaged, AllTrue, HaveRuntimes;
      ghost var before := adopted;
      PassBegins(adopted, pointers);
      var graphs, pending := LoadAdopted(pointers);
      if graphs.Err? {
        return Err(graphs.error);
      }
      r := AdoptPending(graphs.value, pending, crash);
      if r.Ok? {
        AdmissibleAreAdopted(before, adopted, pointers, r.value);
      }
    }

    /** Every refusal is true beside the graphs adopted before or after the pass. */
    ghost predicate AllTrue(before: map<Name, string>, after: map<Name, string>, current: map<Name, string>,
                            refused: map<Name, Refusal>)
      reads this`objects
    {
      forall n :: n in refused ==> n in current && IsTrueOf(n, current[n], before, after, refused[n])
    }

    /** The graphs that were adopted anew have their runtimes. */
    ghost predicate HaveRuntimes(before: map<Name, string>, after: map<Name, string>) {
      forall n :: n in after && !(n in before && before[n] == after[n]) ==>
        loader.Meaning(after[n]).Some? && HasRuntimes(loader.Meaning(after[n]).value)
    }

    lemma NothingRefused(adopted: map<Name, string>, current: map<Name, string>)
      ensures AllTrue(adopted, adopted, current, map[]) && HaveRuntimes(adopted, adopted)
    {
    }

    lemma AdoptedHasRuntimes(before: map<Name, string>, at: map<Name, string>, name: Name, h: string)
      requires HaveRuntimes(before, at) && loader.Meaning(h).Some? && HasRuntimes(loader.Meaning(h).value)
      ensures HaveRuntimes(before, at[name := h])
    {
      hide Loader.Meaning, HasRuntimes;
    }

    lemma StillTrue(before: map<Name, string>, at: map<Name, string>, current: map<Name, string>, handled: set<Name>,
                    report: SyncReport, name: Name)
      requires IsReported(before, at, current, handled, report) && name in current && name !in handled
      requires AllTrue(before, at, current, report.refused)
      ensures AllTrue(before, at[name := current[name]], current, report.refused)
    {
      hide Loader.Meaning, ProducesOneOf, IsDamaged, HasRuntimes;
      assert name in at ==> name in before && at[name] == before[name];
    }

    lemma TrueBeside(before: map<Name, string>, at: map<Name, string>, current: map<Name, string>, handled: set<Name>,
                     report: SyncReport, name: Name, reason: Refusal)
      requires name in current && IsTrueOf(name, current[name], at, at, reason)
      requires AllTrue(before, at, current, report.refused)
      ensures AllTrue(before, at, current, report.refused[name := reason])
    {
      hide Loader.Meaning, ProducesOneOf, IsDamaged, HasRuntimes;
    }

    lemma AdmissibleAreAdopted(before: map<Name, string>, after: map<Name, string>, current: map<Name, string>,
                               report: SyncReport)
      requires IsReported(before, after, current, Pending(before, current), report)
      requires AllTrue(before, after, current, report.refused)
      ensures forall n :: n in Pending(before, current)
                          && IsAdmissible(n, current[n], before) && IsAdmissible(n, current[n], after)
                          ==> n in report.adopted
    {
      hide IsAdmissible, IsTrueOf;
      forall n | n in Pending(before, current) && IsAdmissible(n, current[n], before) && IsAdmissible(n, current[n], after)
        ensures n in report.adopted
      {
        if n in report.refused {
          AdmissibleIsNotRefused(n, current[n], before, after, report.refused[n]);
        }
      }
    }
  }

  /** `count` names got the definition of their pointer, and nothing else changed. */
  ghost predicate HasAdopted(before: map<Name, string>, after: map<Name, string>, current: map<Name, string>, count: nat) {
    exists taken: map<Name, string> ::
      && after == before + taken && |taken| == count && taken.Keys <= Pending(before, current)
      && forall n :: n in taken ==> n in current && taken[n] == current[n]
  }

  lemma ReportCounts(before: map<Name, string>, after: map<Name, string>, current: map<Name, string>,
                     handled: set<Name>, report: SyncReport)
    requires IsReported(before, after, current, handled, report) && handled <= Pending(before, current)
    ensures HasAdopted(before, after, current, |report.adopted|)
  {
  }

  /** The names whose pointer is not the adopted definition. */
  function Pending(adopted: map<Name, string>, current: map<Name, string>): (pending: set<Name>)
    ensures pending <= current.Keys
  {
    set n | n in current && !(n in adopted && adopted[n] == current[n])
  }

  /** No graph is dropped, and a graph that changed has the definition of its pointer. */
  ghost predicate IsMoved(before: map<Name, string>, after: map<Name, string>, current: map<Name, string>) {
    && before.Keys <= after.Keys
    && forall n :: n in after ==>
         (n in before && after[n] == before[n]) || (n in current && after[n] == current[n])
  }

  /** The report lists each handled name once: the adopted ones, which are all that
      changed, with the definition of the pointer, and the refused ones. */
  ghost predicate IsReported(before: map<Name, string>, after: map<Name, string>, current: map<Name, string>,
                             handled: set<Name>, report: SyncReport) {
    && report.adopted.Keys + report.refused.Keys == handled
    && report.adopted.Keys !! report.refused.Keys
    && after == before + report.adopted
    && (forall n :: n in report.adopted ==> n in current && report.adopted[n] == current[n])
  }

  lemma ReportNothing(adopted: map<Name, string>, current: map<Name, string>)
    ensures IsReported(adopted, adopted, current, {}, SyncReport(map[], map[])) && IsMoved(adopted, adopted, current)
  {
    assert adopted + map[] == adopted;
  }

  lemma ReportAdopted(before: map<Name, string>, at: map<Name, string>, current: map<Name, string>,
                      handled: set<Name>, report: SyncReport, name: Name)
    requires IsReported(before, at, current, handled, report) && IsMoved(before, at, current)
    requires name in current && name !in handled
    ensures var after := at[name := current[name]];
            && IsReported(before, after, current, handled + {name},
                          report.(adopted := report.adopted[name := current[name]]))
            && IsMoved(before, after, current)
  {
  }

  lemma ReportRefused(before: map<Name, string>, at: map<Name, string>, current: map<Name, string>,
                      handled: set<Name>, report: SyncReport, name: Name, reason: Refusal)
    requires IsReported(before, at, current, handled, report) && name !in handled
    ensures IsReported(before, at, current, handled + {name}, report.(refused := report.refused[name := reason]))
  {
  }

  // ---- The keys of the adopted graphs ----

  /** The adopted graphs of a deployment. */
  ghost function GraphsOf(loader: Loader, adopted: map<Name, string>): set<Graph> {
    set n | n in adopted && loader.Meaning(adopted[n]).Some? :: loader.Meaning(adopted[n]).value
  }

  lemma AdoptedAreCompatible(loader: Loader, adopted: map<Name, string>)
    requires loader.Disjoint(adopted)
    ensures Compatible(GraphsOf(loader, adopted))
  {
    forall g, h | g in GraphsOf(loader, adopted) && h in GraphsOf(loader, adopted) && g != h
      ensures g.name != h.name && SharesNoAsset(g, h)
    {
      var n :| n in adopted && loader.Meaning(adopted[n]) == Some(g);
      var m :| m in adopted && loader.Meaning(adopted[m]) == Some(h);
      assert loader.Apart(adopted[n], adopted[m]);
    }
  }

  /** Over all adopted graphs, a node record key belongs to one graph, one node and
      one partition. */
  lemma AdoptedKeysAreInjective(loader: Loader, adopted: map<Name, string>, g: Graph, i: nat, p: string,
                                h: Graph, j: nat, q: string)
    requires loader.Sound() && loader.Disjoint(adopted)
    requires g in GraphsOf(loader, adopted) && h in GraphsOf(loader, adopted)
    requires i < |g.nodes| && j < |h.nodes| && IsPartition(p) && IsPartition(q)
    requires NodeRecordKey(g.name, p, g.nodes[i]) == NodeRecordKey(h.name, q, h.nodes[j])
    ensures g == h && i == j && p == q
  {
    AdoptedAreCompatible(loader, adopted);
    var n :| n in adopted && loader.Meaning(adopted[n]) == Some(g);
    var m :| m in adopted && loader.Meaning(adopted[m]) == Some(h);
    var a :| loader.hash(a) == adopted[n];
    var b :| loader.hash(b) == adopted[m];
    loader.MeaningOfText(a);
    loader.MeaningOfText(b);
    RecordKeysAreInjective(GraphsOf(loader, adopted), g, i, p, h, j, q);
  }

  function Producer(graph: Name, asset: Name): Graph {
    Graph(graph, [Node(NodeSpec("n", AssetNode(asset, []), "op", "default", Null, None), {}, {})], map["n" := 0])
  }

  /** The limit of the guarantee: it is about the adopted definitions. A run of a
      definition that the graph no longer has can share a key with a graph that was
      adopted since, with the asset that the first one gave up. */
  lemma EarlierDefinitionCanShareAKey() returns (earlier: Graph, now: Graph, other: Graph, p: string)
    ensures IsNamed(earlier) && IsNamed(now) && IsNamed(other) && IsPartition(p)
    ensures earlier.name == now.name && Compatible({now, other}) && !Compatible({earlier, other})
    ensures earlier.nodes != [] && other.nodes != []
    ensures NodeRecordKey(earlier.name, p, earlier.nodes[0]) == NodeRecordKey(other.name, p, other.nodes[0])
  {
    earlier, now, other, p := Producer("a", "x"), Producer("a", "y"), Producer("b", "x"), "none";
    assert earlier.nodes[0].Asset() == Some("x") == other.nodes[0].Asset() && now.nodes[0].Asset() == Some("y");
    ProducersShareTheirAsset("a", "b", "x");
  }

  lemma ProducerIsSound(graph: Name, asset: Name)
    requires IsName(graph) && IsName(asset) && |graph| < 90
    ensures IsNamed(Producer(graph, asset)) && Producer(graph, asset).Valid()
  {
    assert Producer(graph, asset).IsRanking(map["n" := 0]);
  }

  lemma ProducersShareTheirAsset(graph: Name, other: Name, asset: Name)
    ensures !SharesNoAsset(Producer(graph, asset), Producer(other, asset))
  {
    assert Producer(graph, asset).nodes[0].Asset() == Some(asset) == Producer(other, asset).nodes[0].Asset();
  }

  lemma EmptyFits(loader: Loader, c: Checked)
    ensures loader.Fits(map[], c) && loader.Disjoint(map[])
  {
  }

  /** Two publishes that overlap on an empty store, both of the asset `x`. */
  lemma OverlappingPublishesCanConflict() returns (loader: Loader, one: Checked, two: Checked)
    ensures loader.Sound() && loader.IsOf(one) && loader.IsOf(two) && one.current == two.current == None
    ensures loader.Fits(map[], one) && loader.Fits(map[], two)
    ensures loader.Disjoint(loader.Moved(map[], one))
    ensures !loader.Disjoint(loader.Moved(loader.Moved(map[], one), two))
  {
    hide Loader.Disjoint, Loader.Fits, SharesNoAsset, Graph.Valid, IsNamed;
    ProducerIsSound("a", "x");
    ProducerIsSound("b", "x");
    loader := Loader(text => text, text => if text == "a" || text == "b" then Some(Producer(text, "x")) else None);
    one, two := Checked("a", Producer("a", "x"), "a", None), Checked("b", Producer("b", "x"), "b", None);
    var none: map<Name, string> := map[];
    EmptyFits(loader, one);
    EmptyFits(loader, two);
    ProducersShareTheirAsset("a", "b", "x");
    loader.MoveKeepsDisjointExactly(none, one);
    loader.BothMoved(none, one, two);
  }
}
