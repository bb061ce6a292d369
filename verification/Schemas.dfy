// JSON schemas as the generator reads them: a table of named definitions whose schemas refer to each
// other by name, cycles included. Properties are listed in an arbitrary order, since the program
// visits them in map order.
module Schemas {
  import opened Wrappers

  datatype Property = Property(name: string, schema: Schema)

  datatype Schema = Schema(
    ref: Option<string>,               // the definition named by $ref
    title: string,
    docsIgnore: bool,                  // x-docs-ignore
    anyOf: seq<Schema>, oneOf: seq<Schema>, allOf: seq<Schema>,
    properties: seq<Property>,
    items: Option<Schema>, additional: Option<Schema>,
    required: seq<string>,
    isConst: bool, nullable: bool)

  type Defs = map<string, Schema>

  // The names a schema refers to, anywhere in its own text.
  function RefsOf(s: Schema): set<string>
    decreases s, 1
  {
    OwnRef(s) + RefsOfParts(s)
  }

  function OwnRef(s: Schema): set<string> { if s.ref.Some? then {s.ref.value} else {} }

  function RefsOfParts(s: Schema): set<string>
    decreases s, 0
  {
    RefsOfAll(s.anyOf) + RefsOfAll(s.oneOf) + RefsOfAll(s.allOf) + RefsOfProps(s.properties)
    + RefsOfOpt(s.items) + RefsOfOpt(s.additional)
  }

  function RefsOfAll(ss: seq<Schema>): set<string>
    decreases ss, 0
  {
    if ss == [] then {} else RefsOf(ss[0]) + RefsOfAll(ss[1..])
  }

  function RefsOfProps(ps: seq<Property>): set<string>
    decreases ps, 0
  {
    if ps == [] then {} else RefsOf(ps[0].schema) + RefsOfProps(ps[1..])
  }

  function RefsOfOpt(o: Option<Schema>): set<string>
    decreases o, 0
  {
    match o case None => {} case Some(s) => RefsOf(s)
  }

  lemma {:induction false} RefsOfAllHas(ss: seq<Schema>, i: nat)
    requires i < |ss|
    ensures RefsOf(ss[i]) <= RefsOfAll(ss)
  {
    if i > 0 {
      RefsOfAllHas(ss[1..], i - 1);
    }
  }

  lemma {:induction false} RefsOfAllSplit(ss: seq<Schema>, i: nat)
    requires i < |ss|
    ensures RefsOfAll(ss[..i + 1]) == RefsOfAll(ss[..i]) + RefsOf(ss[i])
  {
    if i > 0 {
      assert ss[..i + 1][1..] == ss[1..][..i] && ss[..i][1..] == ss[1..][..i - 1];
      RefsOfAllSplit(ss[1..], i - 1);
    } else {
      assert ss[..1] == [ss[0]];
    }
  }

  lemma {:induction false} RefsOfPropsSplit(ps: seq<Property>, i: nat)
    requires i < |ps|
    ensures RefsOfProps(ps[..i + 1]) == RefsOfProps(ps[..i]) + RefsOf(ps[i].schema)
  {
    if i > 0 {
      assert ps[..i + 1][1..] == ps[1..][..i] && ps[..i][1..] == ps[1..][..i - 1];
      RefsOfPropsSplit(ps[1..], i - 1);
    } else {
      assert ps[..1] == [ps[0]];
    }
  }

  // ---------------------------------------------------------------------------------------------
  // The same by nesting

  predicate Part(s: Schema, t: Schema) {
    || t in s.anyOf || t in s.oneOf || t in s.allOf || (exists p :: p in s.properties && p.schema == t)
    || s.items == Some(t) || s.additional == Some(t)
  }

  // From a schema to one nested in it, part by part.
  ghost predicate Nesting(chain: seq<Schema>) { chain != [] && forall i :: 0 <= i < |chain| - 1 ==> Part(chain[i], chain[i + 1]) }

  ghost predicate NestedRef(s: Schema, n: string, chain: seq<Schema>) {
    Nesting(chain) && chain[0] == s && chain[|chain| - 1].ref == Some(n)
  }

  lemma NestDeeper(s: Schema, t: Schema, n: string, chain: seq<Schema>)
    requires Part(s, t) && NestedRef(t, n, chain)
    ensures NestedRef(s, n, [s] + chain)
  {
    var longer := [s] + chain;
    forall i | 0 <= i < |longer| - 1 ensures Part(longer[i], longer[i + 1]) {
      if i > 0 {
        assert longer[i] == chain[i - 1] && longer[i + 1] == chain[i];
      }
    }
  }

  lemma {:induction false} RefIsNested(s: Schema, n: string) returns (chain: seq<Schema>)
    requires n in RefsOf(s)
    ensures NestedRef(s, n, chain)
    decreases s, 1
  {
    if s.ref == Some(n) {
      chain := [s];
    } else if n in RefsOfAll(s.anyOf) {
      chain := RefIsNestedInAll(s, s.anyOf, n);
    } else if n in RefsOfAll(s.oneOf) {
      chain := RefIsNestedInAll(s, s.oneOf, n);
    } else if n in RefsOfAll(s.allOf) {
      chain := RefIsNestedInAll(s, s.allOf, n);
    } else if n in RefsOfProps(s.properties) {
      chain := RefIsNestedInProps(s, s.properties, n);
    } else {
      assert n in RefsOfParts(s) && n in RefsOfOpt(s.items) + RefsOfOpt(s.additional);
      var t := if n in RefsOfOpt(s.items) then s.items.value else s.additional.value;
      assert RefsOfOpt(Some(t)) == RefsOf(t);
      var rest := RefIsNested(t, n);
      NestDeeper(s, t, n, rest);
      chain := [s] + rest;
    }
  }

  lemma {:induction false} RefIsNestedInAll(s: Schema, ss: seq<Schema>, n: string) returns (chain: seq<Schema>)
    requires n in RefsOfAll(ss) && forall t :: t in ss ==> Part(s, t)
    ensures NestedRef(s, n, chain)
    decreases ss, 0
  {
    if n in RefsOf(ss[0]) {
      var rest := RefIsNested(ss[0], n);
      NestDeeper(s, ss[0], n, rest);
      chain := [s] + rest;
    } else {
      chain := RefIsNestedInAll(s, ss[1..], n);
    }
  }

  lemma {:induction false} RefIsNestedInProps(s: Schema, ps: seq<Property>, n: string) returns (chain: seq<Schema>)
    requires n in RefsOfProps(ps) && forall p :: p in ps ==> Part(s, p.schema)
    ensures NestedRef(s, n, chain)
    decreases ps, 0
  {
    if n in RefsOf(ps[0].schema) {
      var rest := RefIsNested(ps[0].schema, n);
      NestDeeper(s, ps[0].schema, n, rest);
      chain := [s] + rest;
    } else {
      chain := RefIsNestedInProps(s, ps[1..], n);
    }
  }

  lemma PartRefs(s: Schema, t: Schema)
    requires Part(s, t)
    ensures RefsOf(t) <= RefsOf(s)
  {
    if t in s.anyOf {
      var i :| 0 <= i < |s.anyOf| && s.anyOf[i] == t;
      RefsOfAllHas(s.anyOf, i);
    } else if t in s.oneOf {
      var i :| 0 <= i < |s.oneOf| && s.oneOf[i] == t;
      RefsOfAllHas(s.oneOf, i);
    } else if t in s.allOf {
      var i :| 0 <= i < |s.allOf| && s.allOf[i] == t;
      RefsOfAllHas(s.allOf, i);
    } else if p :| p in s.properties && p.schema == t {
      var i :| 0 <= i < |s.properties| && s.properties[i] == p;
      RefsOfPropsHas(s.properties, i);
    } else {
      assert RefsOfOpt(Some(t)) == RefsOf(t);
    }
  }

  lemma {:induction false} RefsOfPropsHas(ps: seq<Property>, i: nat)
    requires i < |ps|
    ensures RefsOf(ps[i].schema) <= RefsOfProps(ps)
  {
    if i > 0 {
      RefsOfPropsHas(ps[1..], i - 1);
    }
  }

  lemma {:induction false} NestedIsRef(s: Schema, n: string, chain: seq<Schema>)
    requires NestedRef(s, n, chain)
    ensures n in RefsOf(s)
    decreases |chain|
  {
    if |chain| > 1 {
      assert Part(chain[0], chain[1]);
      assert NestedRef(chain[1], n, chain[1..]) by {
        forall i | 0 <= i < |chain[1..]| - 1 ensures Part(chain[1..][i], chain[1..][i + 1]) {
          assert Part(chain[i + 1], chain[i + 2]);
        }
      }
      NestedIsRef(chain[1], n, chain[1..]);
      PartRefs(s, chain[1]);
    }
  }

  // A schema refers to a name exactly when the schema itself, or one nested in it at any depth, does.
  lemma RefsExactly(s: Schema, n: string)
    ensures n in RefsOf(s) <==> exists chain :: NestedRef(s, n, chain)
  {
    if n in RefsOf(s) {
      var chain := RefIsNested(s, n);
    }
    if chain :| NestedRef(s, n, chain) {
      NestedIsRef(s, n, chain);
    }
  }
}

// Which definitions are emitted: depth-first reachability over the definition table.
module RefClosure {
  import opened Wrappers
  import opened Schemas

  // ---------------------------------------------------------------------------------------------
  // Reachability

  predicate Edge(defs: Defs, m: string, n: string) { m in defs && n in RefsOf(defs[m]) }

  ghost predicate Path(defs: Defs, path: seq<string>) {
    path != [] && forall i :: 0 <= i < |path| - 1 ==> Edge(defs, path[i], path[i + 1])
  }

  ghost predicate PathFrom(defs: Defs, roots: set<string>, n: string, path: seq<string>) {
    Path(defs, path) && path[0] in roots && path[|path| - 1] == n
  }

  // n is named by a root, or by a definition that is itself reachable.
  ghost predicate Reach(defs: Defs, roots: set<string>, n: string) {
    exists path: seq<string> :: PathFrom(defs, roots, n, path)
  }

  lemma ReachRoot(defs: Defs, roots: set<string>, n: string)
    requires n in roots
    ensures Reach(defs, roots, n)
  {
    assert PathFrom(defs, roots, n, [n]);
  }

  lemma ReachStep(defs: Defs, roots: set<string>, m: string, n: string)
    requires Reach(defs, roots, m) && Edge(defs, m, n)
    ensures Reach(defs, roots, n)
  {
    var path: seq<string> :| PathFrom(defs, roots, m, path);
    assert PathFrom(defs, roots, n, path + [n]);
  }

  lemma ReachVia(defs: Defs, roots: set<string>, m: string, n: string)
    requires m in roots && m in defs && Reach(defs, RefsOf(defs[m]), n)
    ensures Reach(defs, roots, n)
  {
    var path: seq<string> :| PathFrom(defs, RefsOf(defs[m]), n, path);
    var longer := [m] + path;
    forall i | 0 <= i < |longer| - 1 ensures Edge(defs, longer[i], longer[i + 1]) {
      if i > 0 {
        assert longer[i] == path[i - 1] && longer[i + 1] == path[i];
      }
    }
    assert PathFrom(defs, roots, n, longer);
  }

  lemma ReachMore(defs: Defs, roots: set<string>, more: set<string>, n: string)
    requires roots <= more && Reach(defs, roots, n)
    ensures Reach(defs, more, n)
  {
    var path: seq<string> :| PathFrom(defs, roots, n, path);
    assert PathFrom(defs, more, n, path);
  }

  // A set closed under references that holds the roots holds everything reachable.
  lemma ClosedHoldsReach(defs: Defs, roots: set<string>, closed: set<string>, n: string)
    requires roots <= closed && forall m :: m in closed && m in defs ==> RefsOf(defs[m]) <= closed
    requires Reach(defs, roots, n)
    ensures n in closed
  {
    var path: seq<string> :| PathFrom(defs, roots, n, path);
    PathStaysInside(defs, path, closed);
  }

  lemma {:induction false} PathStaysInside(defs: Defs, path: seq<string>, closed: set<string>)
    requires Path(defs, path) && path[0] in closed
    requires forall m :: m in closed && m in defs ==> RefsOf(defs[m]) <= closed
    ensures path[|path| - 1] in closed
  {
    if |path| > 1 {
      assert Edge(defs, path[0], path[1]);
      assert Path(defs, path[1..]) by {
        forall i | 0 <= i < |path[1..]| - 1 ensures Edge(defs, path[1..][i], path[1..][i + 1]) {
          assert Edge(defs, path[i + 1], path[i + 2]);
        }
      }
      PathStaysInside(defs, path[1..], closed);
    }
  }

  // ---------------------------------------------------------------------------------------------
  // collectRefs

  // What one traversal adds: everything below `roots` that was not seen before.
  ghost predicate Collected(defs: Defs, roots: set<string>, refs: set<string>, seen: set<string>,
                            refs': set<string>, seen': set<string>)
  {
    && refs <= refs' && seen <= seen'
    && roots <= refs' && roots <= seen'
    && (forall n :: n in seen' - seen && n in defs ==> RefsOf(defs[n]) <= seen')
    && (forall n :: n in seen' - seen ==> Reach(defs, roots, n))
    && (forall n :: n in refs' - refs ==> n in seen' && Reach(defs, roots, n))
    && seen' - seen <= refs'
  }

  lemma CollectedThen(defs: Defs, r1: set<string>, r2: set<string>, a: set<string>, sa: set<string>,
                      b: set<string>, sb: set<string>, c: set<string>, sc: set<string>)
    requires Collected(defs, r1, a, sa, b, sb) && Collected(defs, r2, b, sb, c, sc)
    ensures Collected(defs, r1 + r2, a, sa, c, sc)
  {
    forall n | n in sc - sa || n in c - a ensures Reach(defs, r1 + r2, n) {
      if Reach(defs, r1, n) {
        ReachMore(defs, r1, r1 + r2, n);
      } else {
        ReachMore(defs, r2, r1 + r2, n);
      }
    }
  }

  class Collector {
    var refs: set<string>
    var seen: set<string>

    constructor ()
      ensures refs == {} && seen == {}
    {
      refs, seen := {}, {};
    }

    // collectRefs; it ends on cyclic definitions because a name is followed only once.
    method Collect(schema: Schema, defs: Defs)
      modifies this
      ensures Collected(defs, RefsOf(schema), old(refs), old(seen), refs, seen)
      decreases defs.Keys - seen, schema, 1
    {
      if schema.ref.Some? {
        var name := schema.ref.value;
        refs := refs + {name};
        ReachRoot(defs, {name}, name);
        if name !in seen {
          seen := seen + {name};
          if name in defs {
            Collect(defs[name], defs);
            forall n | Reach(defs, RefsOf(defs[name]), n) ensures Reach(defs, {name}, n) {
              ReachVia(defs, {name}, name, n);
            }
          }
        }
      }
      ghost var own := OwnRef(schema);
      label own:
      CollectParts(schema, defs);
      CollectedThen(defs, own, RefsOfParts(schema), old(refs), old(seen), old@own(refs), old@own(seen), refs, seen);
    }

    method CollectParts(schema: Schema, defs: Defs)
      modifies this
      ensures Collected(defs, RefsOfParts(schema), old(refs), old(seen), refs, seen)
      decreases defs.Keys - seen, schema, 0
    {
      CollectAll(schema.anyOf, defs);
      hide Collected, Reach, RefsOfAll, RefsOfOpt, RefsOfProps;
      ghost var found := RefsOfAll(schema.anyOf);
      label one:
      CollectAll(schema.oneOf, defs);
      CollectedThen(defs, found, RefsOfAll(schema.oneOf), old(refs), old(seen), old@one(refs), old@one(seen), refs, seen);
      found := found + RefsOfAll(schema.oneOf);
      label all:
      CollectAll(schema.allOf, defs);
      CollectedThen(defs, found, RefsOfAll(schema.allOf), old(refs), old(seen), old@all(refs), old@all(seen), refs, seen);
      found := found + RefsOfAll(schema.allOf);
      label props:
      CollectProps(schema.properties, defs);
      CollectedThen(defs, found, RefsOfProps(schema.properties), old(refs), old(seen), old@props(refs), old@props(seen), refs, seen);
      found := found + RefsOfProps(schema.properties);
      label items:
      CollectOpt(schema.items, defs);
      CollectedThen(defs, found, RefsOfOpt(schema.items), old(refs), old(seen), old@items(refs), old@items(seen), refs, seen);
      found := found + RefsOfOpt(schema.items);
      label additional:
      CollectOpt(schema.additional, defs);
      CollectedThen(defs, found, RefsOfOpt(schema.additional), old(refs), old(seen), old@additional(refs), old@additional(seen), refs, seen);
    }

    method CollectOpt(o: Option<Schema>, defs: Defs)
      modifies this
      ensures Collected(defs, RefsOfOpt(o), old(refs), old(seen), refs, seen)
      decreases defs.Keys - seen, o, 1
    {
      if o.Some? {
        Collect(o.value, defs);
      }
    }

    method CollectAll(ss: seq<Schema>, defs: Defs)
      modifies this
      ensures Collected(defs, RefsOfAll(ss), old(refs), old(seen), refs, seen)
      decreases defs.Keys - seen, ss, 1
    {
      for i := 0 to |ss|
        invariant Collected(defs, RefsOfAll(ss[..i]), old(refs), old(seen), refs, seen)
      {
        label before:
        Collect(ss[i], defs);
        RefsOfAllSplit(ss, i);
        CollectedThen(defs, RefsOfAll(ss[..i]), RefsOf(ss[i]), old(refs), old(seen), old@before(refs), old@before(seen), refs, seen);
      }
      assert ss[..|ss|] == ss;
    }

    method CollectProps(ps: seq<Property>, defs: Defs)
      modifies this
      ensures Collected(defs, RefsOfProps(ps), old(refs), old(seen), refs, seen)
      decreases defs.Keys - seen, ps, 1
    {
      for i := 0 to |ps|
        invariant Collected(defs, RefsOfProps(ps[..i]), old(refs), old(seen), refs, seen)
      {
        label before:
        Collect(ps[i].schema, defs);
        RefsOfPropsSplit(ps, i);
        CollectedThen(defs, RefsOfProps(ps[..i]), RefsOf(ps[i].schema), old(refs), old(seen), old@before(refs), old@before(seen), refs, seen);
      }
      assert ps[..|ps|] == ps;
    }

    // A traversal with a fresh `seen` map adds exactly the reachable names.
    method CollectFresh(schema: Schema, defs: Defs)
      modifies this
      ensures forall n :: n in refs <==> n in old(refs) || Reach(defs, RefsOf(schema), n)
    {
      seen := {};
      Collect(schema, defs);
      forall n | Reach(defs, RefsOf(schema), n) ensures n in refs {
        ClosedHoldsReach(defs, RefsOf(schema), seen, n);
      }
    }
  }

  // ---------------------------------------------------------------------------------------------
  // Which definitions are emitted

  // A schema document: its definitions and its top-level envelope branches.
  datatype Document = Document(defs: Defs, envelope: seq<Schema>)

  predicate ProtocolBranch(b: Schema) { b.title == "ProtocolLevel" && b.docsIgnore }

  // Reachable from an envelope branch that is, or is not, an undocumented one of the protocol level.
  ghost predicate FromBranches(doc: Document, protocol: bool, n: string) {
    exists i :: 0 <= i < |doc.envelope| && (protocol <==> doc.envelope[i].title == "ProtocolLevel" && doc.envelope[i].docsIgnore)
                && Reach(doc.defs, RefsOf(doc.envelope[i]), n)
  }

  // Reachable from a definition that is documented and outside the given set.
  ghost predicate FromDefs(doc: Document, excluded: set<string>, n: string) {
    exists d :: d in doc.defs && !doc.defs[d].docsIgnore && d !in excluded && Reach(doc.defs, RefsOf(doc.defs[d]), n)
  }

  // What the two-stage filter amounts to. A name is protocol-only when a protocol branch of the envelope
  // reaches it and nothing public does; a definition stands on its own when it is documented and not
  // protocol-only.
  ghost predicate ProtocolOnly(doc: Document, n: string) {
    FromBranches(doc, true, n) && !FromBranches(doc, false, n) && !FromOutsideProtocol(doc, n)
  }

  ghost predicate FromOutsideProtocol(doc: Document, n: string) {
    exists d :: d in doc.defs && !doc.defs[d].docsIgnore && !FromBranches(doc, true, d) && Reach(doc.defs, RefsOf(doc.defs[d]), n)
  }

  ghost predicate Standing(doc: Document, n: string) {
    n in doc.defs && !doc.defs[n].docsIgnore && !ProtocolOnly(doc, n)
  }

  ghost predicate FromStanding(doc: Document, n: string) {
    exists d :: Standing(doc, d) && Reach(doc.defs, RefsOf(doc.defs[d]), n)
  }

  // The names the protocol-only branches reach, except those something public also reaches.
  method IgnoredTopLevelProtocolRefs(doc: Document) returns (ignored: set<string>)
    ensures forall n :: n in ignored <==> ProtocolOnly(doc, n)
  {
    var ignoring := new Collector();
    var publishing := new Collector();
    for i := 0 to |doc.envelope|
      invariant fresh(ignoring) && fresh(publishing) && ignoring != publishing
      invariant forall n :: n in ignoring.refs <==> FromBranches(doc.(envelope := doc.envelope[..i]), true, n)
      invariant forall n :: n in publishing.refs <==> FromBranches(doc.(envelope := doc.envelope[..i]), false, n)
    {
      BranchesStep(doc, i);
      if ProtocolBranch(doc.envelope[i]) {
        ignoring.CollectFresh(doc.envelope[i], doc.defs);
      } else {
        publishing.CollectFresh(doc.envelope[i], doc.defs);
      }
    }
    assert doc.envelope[..|doc.envelope|] == doc.envelope;
    ghost var protocol := ignoring.refs;
    CollectFromDefs(doc, ignoring.refs, publishing);
    forall n ensures FromDefs(doc, protocol, n) <==> FromOutsideProtocol(doc, n) {}
    ignored := ignoring.refs - publishing.refs;
  }

  lemma BranchesStep(doc: Document, i: nat)
    requires i < |doc.envelope|
    ensures forall p: bool, n :: FromBranches(doc.(envelope := doc.envelope[..i + 1]), p, n)
              <==> FromBranches(doc.(envelope := doc.envelope[..i]), p, n)
                   || (ProtocolBranch(doc.envelope[i]) == p && Reach(doc.defs, RefsOf(doc.envelope[i]), n))
  {
    forall p: bool, n
      ensures FromBranches(doc.(envelope := doc.envelope[..i + 1]), p, n)
              <==> FromBranches(doc.(envelope := doc.envelope[..i]), p, n)
                   || (ProtocolBranch(doc.envelope[i]) == p && Reach(doc.defs, RefsOf(doc.envelope[i]), n))
    {
      var longer, shorter := doc.(envelope := doc.envelope[..i + 1]), doc.(envelope := doc.envelope[..i]);
      assert longer.envelope[i] == doc.envelope[i];
      forall j | 0 <= j < i ensures longer.envelope[j] == shorter.envelope[j] {}
      if FromBranches(shorter, p, n) {
        var j :| 0 <= j < i && ProtocolBranch(shorter.envelope[j]) == p && Reach(doc.defs, RefsOf(shorter.envelope[j]), n);
        assert ProtocolBranch(longer.envelope[j]) == p;
      }
    }
  }

  // Collects from the documented definitions outside `excluded`, in any order of the definitions.
  method CollectFromDefs(doc: Document, excluded: set<string>, into: Collector)
    modifies into
    ensures forall n :: n in into.refs <==> n in old(into.refs) || FromDefs(doc, excluded, n)
  {
    var left := doc.defs.Keys;
    while left != {}
      invariant left <= doc.defs.Keys
      invariant forall n :: n in into.refs <==> n in old(into.refs) || FromSome(doc, excluded, doc.defs.Keys - left, n)
      decreases left
    {
      var name :| name in left;
      ghost var done := doc.defs.Keys - left;
      left := left - {name};
      assert doc.defs.Keys - left == done + {name};
      FromSomeStep(doc, excluded, done, name);
      if !doc.defs[name].docsIgnore && name !in excluded {
        into.CollectFresh(doc.defs[name], doc.defs);
      }
    }
  }

  ghost predicate FromSome(doc: Document, excluded: set<string>, names: set<string>, n: string) {
    exists d :: d in names && d in doc.defs && !doc.defs[d].docsIgnore && d !in excluded && Reach(doc.defs, RefsOf(doc.defs[d]), n)
  }

  lemma FromSomeStep(doc: Document, excluded: set<string>, names: set<string>, d: string)
    requires d in doc.defs
    ensures forall n :: FromSome(doc, excluded, names + {d}, n)
              <==> FromSome(doc, excluded, names, n)
                   || (!doc.defs[d].docsIgnore && d !in excluded && Reach(doc.defs, RefsOf(doc.defs[d]), n))
  {}

  method PublicDefinitionRefs(doc: Document, ignored: set<string>) returns (refs: set<string>)
    ensures forall n :: n in refs <==> FromDefs(doc, ignored, n)
    ensures (forall n :: n in ignored <==> ProtocolOnly(doc, n)) ==> forall n :: n in refs <==> FromStanding(doc, n)
  {
    var collector := new Collector();
    CollectFromDefs(doc, ignored, collector);
    refs := collector.refs;
  }

  predicate OnlyProtocolEnvelope(doc: Document) {
    doc.envelope != [] && forall i :: 0 <= i < |doc.envelope| ==> doc.envelope[i].title == "ProtocolLevel"
  }

  // Nothing a standing definition reaches is protocol-only.
  lemma StandingReachesPublic(doc: Document, d: string, n: string)
    requires Standing(doc, d) && Reach(doc.defs, RefsOf(doc.defs[d]), n)
    ensures FromBranches(doc, false, n) || FromOutsideProtocol(doc, n)
  {
    if FromBranches(doc, true, d) {
      if FromBranches(doc, false, d) {
        var i :| 0 <= i < |doc.envelope| && !(doc.envelope[i].title == "ProtocolLevel" && doc.envelope[i].docsIgnore) && Reach(doc.defs, RefsOf(doc.envelope[i]), d);
        ReachJoin(doc.defs, RefsOf(doc.envelope[i]), d, n);
      } else {
        var e :| e in doc.defs && !doc.defs[e].docsIgnore && !FromBranches(doc, true, e) && Reach(doc.defs, RefsOf(doc.defs[e]), d);
        ReachJoin(doc.defs, RefsOf(doc.defs[e]), d, n);
      }
    }
  }

  lemma ReachJoin(defs: Defs, roots: set<string>, m: string, n: string)
    requires m in defs && Reach(defs, roots, m) && Reach(defs, RefsOf(defs[m]), n)
    ensures Reach(defs, roots, n)
  {
    var path: seq<string> :| PathFrom(defs, RefsOf(defs[m]), n, path);
    ReachAlong(defs, roots, m, path);
  }

  lemma {:induction false} ReachAlong(defs: Defs, roots: set<string>, m: string, path: seq<string>)
    requires Reach(defs, roots, m) && Path(defs, path) && Edge(defs, m, path[0])
    ensures Reach(defs, roots, path[|path| - 1])
    decreases |path|
  {
    ReachStep(defs, roots, m, path[0]);
    if |path| > 1 {
      forall i | 0 <= i < |path[1..]| - 1 ensures Edge(defs, path[1..][i], path[1..][i + 1]) {
        assert Edge(defs, path[i + 1], path[i + 2]);
      }
      ReachAlong(defs, roots, path[0], path[1..]);
    }
  }

  // The emission filter of Generate: the definitions for which code is written.
  method EmittedDefinitions(doc: Document) returns (emitted: set<string>)
    ensures doc.envelope != [] && (forall b :: b in doc.envelope ==> b.title == "ProtocolLevel") ==> emitted == {}
    ensures doc.envelope == [] || (exists b :: b in doc.envelope && b.title != "ProtocolLevel") ==> forall n :: n in emitted <==> n in doc.defs && (Standing(doc, n) || FromStanding(doc, n))
    ensures forall m, n :: m in emitted && Edge(doc.defs, m, n) && n in doc.defs ==> n in emitted
  {
    emitted := {};
    if doc.defs == map[] || OnlyProtocolEnvelope(doc) {
      return;
    }
    var ignored := IgnoredTopLevelProtocolRefs(doc);
    var refs := PublicDefinitionRefs(doc, ignored);
    var left := doc.defs.Keys;
    while left != {}
      invariant left <= doc.defs.Keys
      invariant forall n :: n in emitted <==> n in doc.defs && n !in left && (Standing(doc, n) || FromStanding(doc, n))
      decreases left
    {
      var name :| name in left;
      left := left - {name};
      FilterDecides(doc, ignored, refs, name);
      if !(name in ignored || (doc.defs[name].docsIgnore && name !in refs)) {
        emitted := emitted + {name};
      }
    }
    forall m, n | m in emitted && Edge(doc.defs, m, n) && n in doc.defs ensures n in emitted {
      EmittedRefersToEmitted(doc, m, n);
    }
  }

  lemma FilterDecides(doc: Document, ignored: set<string>, refs: set<string>, n: string)
    requires n in doc.defs && (forall m :: m in ignored <==> ProtocolOnly(doc, m)) && (forall m :: m in refs <==> FromStanding(doc, m))
    ensures (n in ignored || (doc.defs[n].docsIgnore && n !in refs)) <==> !(Standing(doc, n) || FromStanding(doc, n))
  {
    if FromStanding(doc, n) {
      var d :| Standing(doc, d) && Reach(doc.defs, RefsOf(doc.defs[d]), n);
      StandingReachesPublic(doc, d, n);
    }
  }

  lemma EmittedRefersToEmitted(doc: Document, m: string, n: string)
    requires m in doc.defs && (Standing(doc, m) || FromStanding(doc, m)) && Edge(doc.defs, m, n)
    ensures FromStanding(doc, n)
  {
    if Standing(doc, m) {
      ReachRoot(doc.defs, RefsOf(doc.defs[m]), n);
    } else {
      var d :| Standing(doc, d) && Reach(doc.defs, RefsOf(doc.defs[d]), m);
      ReachStep(doc.defs, RefsOf(doc.defs[d]), m, n);
    }
  }
}
