// The required keys and the properties of a union branch. A branch may name a definition through a
// single allOf reference, and that definition may itself be a union, to any depth. A full choice
// picks one branch at every level; the two computations are compared with all full choices.
module Unions {
  import opened Wrappers
  import opened Schemas

  // oneOf wins over anyOf.
  function UnionBranches(s: Schema): seq<Schema> { if s.oneOf != [] then s.oneOf else s.anyOf }

  function VariantRef(b: Schema): Option<string> {
    if |b.allOf| == 1 && b.allOf[0].ref.Some? && b.allOf[0].ref.value != "" then b.allOf[0].ref else None
  }

  // A branch whose reference has no definition: the generator panics on it.
  predicate Dangles(defs: Defs, b: Schema) { VariantRef(b).Some? && VariantRef(b).value !in defs }

  predicate Resolved(defs: Defs, b: Schema) { VariantRef(b).Some? && VariantRef(b).value in defs }

  function Definition(defs: Defs, b: Schema): Schema
    requires Resolved(defs, b)
  {
    defs[VariantRef(b).value]
  }

  // The branches nested directly under b.
  function Nested(defs: Defs, b: Schema): seq<Schema> {
    if Resolved(defs, b) then UnionBranches(Definition(defs, b)) else []
  }

  // ---------------------------------------------------------------------------------------------
  // Full choices

  ghost predicate Choice(defs: Defs, b: Schema, path: seq<Schema>)
    decreases |path|
  {
    && path != [] && path[0] == b
    && if Nested(defs, b) == [] then |path| == 1
       else |path| > 1 && path[1] in Nested(defs, b) && Choice(defs, path[1], path[1..])
  }

  // What one branch says itself or through its definition.
  predicate Demands(defs: Defs, b: Schema, key: string) {
    key in b.required || (Resolved(defs, b) && key in Definition(defs, b).required)
  }

  ghost predicate Has(properties: seq<Property>, key: string, value: Schema) {
    Property(key, value) in properties
  }

  ghost predicate Declares(defs: Defs, b: Schema, key: string, value: Schema) {
    Has(b.properties, key, value) || (Resolved(defs, b) && Has(Definition(defs, b).properties, key, value))
  }

  ghost predicate PathDemands(defs: Defs, path: seq<Schema>, key: string) {
    exists i :: 0 <= i < |path| && Demands(defs, path[i], key)
  }

  ghost predicate PathDeclares(defs: Defs, path: seq<Schema>, key: string, value: Schema) {
    exists i :: 0 <= i < |path| && Declares(defs, path[i], key, value)
  }

  // Every full choice requires the key.
  ghost predicate AlwaysDemanded(defs: Defs, b: Schema, key: string) {
    forall path :: Choice(defs, b, path) ==> PathDemands(defs, path, key)
  }

  // Some full choice declares the key with this schema.
  ghost predicate SomewhereDeclared(defs: Defs, b: Schema, key: string, value: Schema) {
    exists path :: Choice(defs, b, path) && PathDeclares(defs, path, key, value)
  }

  // Some full choice ends at a reference without a definition.
  ghost predicate Broken(defs: Defs, b: Schema) {
    exists path :: Choice(defs, b, path) && Dangles(defs, path[|path| - 1])
  }

  // No definition nests itself: each nesting step goes down in rank.
  ghost predicate Acyclic(defs: Defs, rank: map<string, nat>) {
    forall n :: n in defs ==> n in rank && forall b :: b in UnionBranches(defs[n]) ==> Below(defs, rank, b, rank[n])
  }

  ghost predicate Below(defs: Defs, rank: map<string, nat>, b: Schema, height: nat) {
    Resolved(defs, b) && VariantRef(b).value in rank ==> rank[VariantRef(b).value] < height
  }

  // ---------------------------------------------------------------------------------------------
  // Choices, one level at a time

  lemma ChoiceOver(defs: Defs, b: Schema, c: Schema, path: seq<Schema>)
    requires c in Nested(defs, b) && Choice(defs, c, path)
    ensures Choice(defs, b, [b] + path)
  {
    assert ([b] + path)[1..] == path;
  }

  lemma {:induction false} ChoiceExists(defs: Defs, b: Schema, rank: map<string, nat>, height: nat) returns (path: seq<Schema>)
    requires Acyclic(defs, rank) && Below(defs, rank, b, height)
    ensures Choice(defs, b, path)
    decreases height
  {
    if Nested(defs, b) == [] {
      path := [b];
    } else {
      var c := Nested(defs, b)[0];
      assert c in Nested(defs, b);
      var rest := ChoiceExists(defs, c, rank, rank[VariantRef(b).value]);
      ChoiceOver(defs, b, c, rest);
      path := [b] + rest;
    }
  }

  lemma DemandedStep(defs: Defs, b: Schema, key: string)
    ensures AlwaysDemanded(defs, b, key)
      <==> Demands(defs, b, key)
           || (Nested(defs, b) != [] && forall c :: c in Nested(defs, b) ==> AlwaysDemanded(defs, c, key))
  {
    if Demands(defs, b, key) {
      forall path | Choice(defs, b, path) ensures PathDemands(defs, path, key) {
        assert Demands(defs, path[0], key);
      }
    } else if Nested(defs, b) == [] {
      assert Choice(defs, b, [b]) && !PathDemands(defs, [b], key);
    } else if forall c :: c in Nested(defs, b) ==> AlwaysDemanded(defs, c, key) {
      forall path | Choice(defs, b, path) ensures PathDemands(defs, path, key) {
        assert PathDemands(defs, path[1..], key);
        var i :| 0 <= i < |path[1..]| && Demands(defs, path[1..][i], key);
        assert Demands(defs, path[i + 1], key);
      }
    } else {
      var c :| c in Nested(defs, b) && !AlwaysDemanded(defs, c, key);
      var path :| Choice(defs, c, path) && !PathDemands(defs, path, key);
      ChoiceOver(defs, b, c, path);
      forall i | 0 <= i < |[b] + path| ensures !Demands(defs, ([b] + path)[i], key) {
        if i > 0 {
          assert ([b] + path)[i] == path[i - 1];
        }
      }
    }
  }

  lemma DeclaredStep(defs: Defs, b: Schema, key: string, value: Schema, rank: map<string, nat>, height: nat)
    requires Acyclic(defs, rank) && Below(defs, rank, b, height)
    ensures SomewhereDeclared(defs, b, key, value)
      <==> Declares(defs, b, key, value) || exists c :: c in Nested(defs, b) && SomewhereDeclared(defs, c, key, value)
  {
    if Declares(defs, b, key, value) {
      var path := ChoiceExists(defs, b, rank, height);
      assert Declares(defs, path[0], key, value);
      assert PathDeclares(defs, path, key, value);
    } else if SomewhereDeclared(defs, b, key, value) {
      var path :| Choice(defs, b, path) && PathDeclares(defs, path, key, value);
      var i :| 0 <= i < |path| && Declares(defs, path[i], key, value);
      assert path[1..][i - 1] == path[i];
      assert PathDeclares(defs, path[1..], key, value);
    }
    forall c | c in Nested(defs, b) && SomewhereDeclared(defs, c, key, value) ensures SomewhereDeclared(defs, b, key, value) {
      var path :| Choice(defs, c, path) && PathDeclares(defs, path, key, value);
      var i :| 0 <= i < |path| && Declares(defs, path[i], key, value);
      ChoiceOver(defs, b, c, path);
      assert ([b] + path)[i + 1] == path[i];
      assert PathDeclares(defs, [b] + path, key, value);
    }
  }

  lemma BrokenStep(defs: Defs, b: Schema)
    ensures Broken(defs, b) <==> Dangles(defs, b) || exists c :: c in Nested(defs, b) && Broken(defs, c)
  {
    if Dangles(defs, b) {
      assert Choice(defs, b, [b]);
    } else if Broken(defs, b) {
      var path :| Choice(defs, b, path) && Dangles(defs, path[|path| - 1]);
      assert Nested(defs, b) != [];
      assert Choice(defs, path[1], path[1..]) && path[1..][|path[1..]| - 1] == path[|path| - 1];
    }
    forall c | c in Nested(defs, b) && Broken(defs, c) ensures Broken(defs, b) {
      var path :| Choice(defs, c, path) && Dangles(defs, path[|path| - 1]);
      ChoiceOver(defs, b, c, path);
      var longer := [b] + path;
      assert longer[|longer| - 1] == path[|path| - 1];
    }
  }

  // ---------------------------------------------------------------------------------------------
  // The required keys

  // What both callers do with a second list: append what is not there yet.
  method AppendMissing(base: seq<string>, more: seq<string>) returns (all: seq<string>)
    ensures forall key :: key in all <==> key in base || key in more
    ensures base <= all && (Distinct(base) ==> Distinct(all))
  {
    all := base;
    for i := 0 to |more|
      invariant forall key :: key in all <==> key in base || key in more[..i]
      invariant base <= all && (Distinct(base) ==> Distinct(all))
    {
      if more[i] !in all {
        all := all + [more[i]];
      }
    }
  }

  method IntersectStrings(a: seq<string>, b: seq<string>) returns (common: seq<string>)
    ensures forall key :: key in common <==> key in a && key in b
  {
    common := [];
    for i := 0 to |a|
      invariant forall key :: key in common <==> key in a[..i] && key in b
    {
      if a[i] in b {
        common := common + [a[i]];
      }
    }
  }

  // The same in the fields of the schema alone: a branch with a single allOf reference has its own keys,
  // those of the definition of that name, and those that all of its branches list; without a definition
  // it has no answer; any other branch has its own keys only.
  ghost predicate RequiredFields(defs: Defs, b: Schema, required: Option<seq<string>>) {
    if |b.allOf| == 1 && b.allOf[0].ref.Some? && b.allOf[0].ref.value != "" then
      var n := b.allOf[0].ref.value;
      && (n !in defs ==> required.None?)
      && (n in defs && required.Some? ==>
            var d := defs[n];
            var branches := if d.oneOf != [] then d.oneOf else d.anyOf;
            && (forall key :: key in b.required || key in d.required ==> key in required.value)
            && (forall key :: branches != [] && (forall c :: c in branches ==> key in c.required) ==> key in required.value)
            && (branches == [] ==> forall key :: key in required.value ==> key in b.required || key in d.required))
    else
      required.Some? && forall key :: key in required.value <==> key in b.required
  }

  lemma RequiredInFields(defs: Defs, b: Schema, required: Option<seq<string>>)
    requires required.None? <==> Broken(defs, b)
    requires required.Some? ==> forall key :: key in required.value <==> AlwaysDemanded(defs, b, key)
    ensures RequiredFields(defs, b, required)
  {
    BrokenStep(defs, b);
    hide Broken, AlwaysDemanded;
    forall key { DemandedStep(defs, b, key); }
    forall c, key | c in Nested(defs, b) && key in c.required ensures AlwaysDemanded(defs, c, key) {
      DemandedStep(defs, c, key);
    }
  }

  // None is the panic on an unresolved reference.
  method VariantRequired(defs: Defs, b: Schema, ghost rank: map<string, nat>, ghost height: nat)
      returns (required: Option<seq<string>>)
    requires Acyclic(defs, rank) && Below(defs, rank, b, height)
    ensures required.None? <==> Broken(defs, b)
    ensures required.Some? ==> forall key :: key in required.value <==> AlwaysDemanded(defs, b, key)
    ensures required.Some? && (Resolved(defs, b) ==> Distinct(Definition(defs, b).required)) ==> Distinct(required.value)
    ensures RequiredFields(defs, b, required)
    decreases height, 0
  {
    hide RequiredFields;
    BrokenStep(defs, b);
    forall key { DemandedStep(defs, b, key); }
    var found: seq<string> := [];
    if VariantRef(b).Some? {
      var name := VariantRef(b).value;
      if name !in defs {
        RequiredInFields(defs, b, None);
        return None;
      }
      var inherited := SchemaVariantRequired(defs, defs[name], rank, rank[name]);
      if inherited.None? {
        RequiredInFields(defs, b, None);
        return None;
      }
      found := inherited.value;
    }
    found := AppendMissing(found, b.required);
    RequiredInFields(defs, b, Some(found));
    return Some(found);
  }

  method SchemaVariantRequired(defs: Defs, s: Schema, ghost rank: map<string, nat>, ghost height: nat)
      returns (required: Option<seq<string>>)
    requires Acyclic(defs, rank) && forall b :: b in UnionBranches(s) ==> Below(defs, rank, b, height)
    ensures required.None? <==> exists b :: b in UnionBranches(s) && Broken(defs, b)
    ensures required.Some? ==> forall key :: key in required.value <==>
      (key in s.required || (UnionBranches(s) != [] && forall b :: b in UnionBranches(s) ==> AlwaysDemanded(defs, b, key)))
    ensures required.Some? && Distinct(s.required) ==> Distinct(required.value)
    decreases height, 1
  {
    var branches := UnionBranches(s);
    if branches == [] {
      return Some(s.required);
    }
    assert branches[0] in branches;
    var first := VariantRequired(defs, branches[0], rank, height);
    if first.None? {
      return None;
    }
    var common := first.value;
    for i := 1 to |branches|
      invariant forall b :: b in branches[..i] ==> !Broken(defs, b)
      invariant forall key :: key in common <==> forall b :: b in branches[..i] ==> AlwaysDemanded(defs, b, key)
    {
      assert branches[i] in branches;
      var next := VariantRequired(defs, branches[i], rank, height);
      if next.None? {
        return None;
      }
      assert branches[..i + 1] == branches[..i] + [branches[i]];
      common := IntersectStrings(common, next.value);
    }
    assert branches[..|branches|] == branches;
    var all := AppendMissing(s.required, common);
    return Some(all);
  }

  // ---------------------------------------------------------------------------------------------
  // The properties

  // One layer over another: what the upper one declares wins.
  ghost predicate Layered(base: map<string, Schema>, own: seq<Property>, all: map<string, Schema>) {
    && (forall key :: key in all ==> Has(own, key, all[key]) || (key in base && all[key] == base[key]))
    && (forall key :: key in base ==> key in all)
    && (forall key, value :: Has(own, key, value) ==> key in all && Has(own, key, all[key]))
  }

  method AddProperties(base: map<string, Schema>, own: seq<Property>) returns (all: map<string, Schema>)
    ensures Layered(base, own, all)
  {
    all := base;
    for i := 0 to |own|
      invariant Layered(base, own[..i], all)
    {
      assert own[..i + 1] == own[..i] + [own[i]];
      forall key, value ensures Has(own[..i + 1], key, value) <==> Has(own[..i], key, value) || own[i] == Property(key, value) {}
      all := all[own[i].name := own[i].schema];
      assert Has(own[..i + 1], own[i].name, own[i].schema);
    }
    assert own[..|own|] == own;
  }

  // The properties of the schema itself and of all the given branches together.
  ghost predicate Given(defs: Defs, s: Schema, branches: seq<Schema>, key: string, value: Schema) {
    Has(s.properties, key, value) || exists b :: b in branches && SomewhereDeclared(defs, b, key, value)
  }

  // Which of them wins: the last branch that declares the key, and the schema's own property only
  // when no branch does.
  ghost predicate Wins(defs: Defs, s: Schema, branches: seq<Schema>, key: string, value: Schema) {
    if exists b, other :: b in branches && SomewhereDeclared(defs, b, key, other) then LastDeclares(defs, branches, key, value)
    else Has(s.properties, key, value)
  }

  ghost predicate LastDeclares(defs: Defs, branches: seq<Schema>, key: string, value: Schema) {
    exists i :: 0 <= i < |branches| && SomewhereDeclared(defs, branches[i], key, value) && NoneDeclares(defs, branches[i + 1..], key)
  }

  ghost predicate NoneDeclares(defs: Defs, branches: seq<Schema>, key: string) {
    forall b, other :: b in branches ==> !SomewhereDeclared(defs, b, key, other)
  }

  ghost predicate Collects(defs: Defs, s: Schema, branches: seq<Schema>, properties: map<string, Schema>) {
    && (forall key, value :: Given(defs, s, branches, key, value) ==> key in properties)
    && (forall key :: key in properties ==> Wins(defs, s, branches, key, properties[key]))
  }

  // A key is a property exactly when some full choice declares it, with a schema some full choice
  // gives it. What the branch declares itself wins over its definition, there the last nested branch
  // over the earlier ones, and any of them over the definition's own property.
  ghost predicate Gathered(defs: Defs, b: Schema, properties: map<string, Schema>) {
    && (forall key, value :: SomewhereDeclared(defs, b, key, value) ==> key in properties)
    && (forall key :: key in properties ==> SomewhereDeclared(defs, b, key, properties[key]))
    && (forall key :: key in properties ==>
          || Has(b.properties, key, properties[key])
          || (Resolved(defs, b) && Wins(defs, Definition(defs, b), Nested(defs, b), key, properties[key])))
    && (forall key, value :: Has(b.properties, key, value) ==> key in properties && Has(b.properties, key, properties[key]))
  }

  lemma WinnerIsGiven(defs: Defs, s: Schema, branches: seq<Schema>, key: string, value: Schema)
    requires Wins(defs, s, branches, key, value)
    ensures Given(defs, s, branches, key, value)
  {}

  // The same in the fields of the schema alone: the properties of the branch and of the definition it
  // refers to and of the branches of that are all there, the branch's own with their own schemas.
  ghost predicate PropertyFields(defs: Defs, b: Schema, properties: Option<map<string, Schema>>) {
    && (properties.Some? ==> forall p :: p in b.properties ==>
          p.name in properties.value && Property(p.name, properties.value[p.name]) in b.properties)
    && if |b.allOf| == 1 && b.allOf[0].ref.Some? && b.allOf[0].ref.value != "" then
         var n := b.allOf[0].ref.value;
         && (n !in defs ==> properties.None?)
         && (n in defs && properties.Some? ==>
               var d := defs[n];
               var branches := if d.oneOf != [] then d.oneOf else d.anyOf;
               && (forall p :: p in d.properties ==> p.name in properties.value)
               && (forall c, p :: c in branches && p in c.properties ==> p.name in properties.value)
               && (branches == [] ==> forall key :: key in properties.value ==>
                     Property(key, properties.value[key]) in b.properties || Property(key, properties.value[key]) in d.properties))
       else
         properties.Some? && forall key :: key in properties.value ==> Property(key, properties.value[key]) in b.properties
  }

  lemma PropertiesInFields(defs: Defs, b: Schema, properties: Option<map<string, Schema>>, rank: map<string, nat>, height: nat)
    requires Acyclic(defs, rank) && Below(defs, rank, b, height)
    requires properties.None? <==> Broken(defs, b)
    requires properties.Some? ==> Gathered(defs, b, properties.value)
    ensures PropertyFields(defs, b, properties)
  {
    BrokenStep(defs, b);
    hide Broken, SomewhereDeclared, Acyclic;
    if properties.Some? {
      forall p | p in b.properties ensures p.name in properties.value && Property(p.name, properties.value[p.name]) in b.properties {
        assert Has(b.properties, p.name, p.schema);
      }
      forall key | key in properties.value
        ensures Declares(defs, b, key, properties.value[key])
                || exists c :: c in Nested(defs, b) && SomewhereDeclared(defs, c, key, properties.value[key])
      {
        DeclaredStep(defs, b, key, properties.value[key], rank, height);
      }
      if Resolved(defs, b) {
        forall p | p in Definition(defs, b).properties ensures p.name in properties.value {
          assert Declares(defs, b, p.name, p.schema);
          DeclaredStep(defs, b, p.name, p.schema, rank, height);
        }
        RankHolds(defs, rank, VariantRef(b).value);
        forall c, p | c in Nested(defs, b) && p in c.properties ensures p.name in properties.value {
          assert Declares(defs, c, p.name, p.schema);
          DeclaredStep(defs, c, p.name, p.schema, rank, rank[VariantRef(b).value]);
          DeclaredStep(defs, b, p.name, p.schema, rank, height);
        }
      }
    }
  }

  method VariantProperties(defs: Defs, b: Schema, ghost rank: map<string, nat>, ghost height: nat)
      returns (properties: Option<map<string, Schema>>)
    requires Acyclic(defs, rank) && Below(defs, rank, b, height)
    ensures properties.None? <==> Broken(defs, b)
    ensures properties.Some? ==> Gathered(defs, b, properties.value)
    ensures PropertyFields(defs, b, properties)
    decreases height, 0
  {
    hide Gathered, Collects, Layered, Broken, Acyclic, PropertyFields;
    BrokenStep(defs, b);
    var found: map<string, Schema> := map[];
    if VariantRef(b).Some? {
      var name := VariantRef(b).value;
      if name !in defs {
        PropertiesInFields(defs, b, None, rank, height);
        return None;
      }
      RankHolds(defs, rank, name);
      var inherited := SchemaVariantProperties(defs, defs[name], rank, rank[name]);
      if inherited.None? {
        PropertiesInFields(defs, b, None, rank, height);
        return None;
      }
      found := inherited.value;
    }
    var all := AddProperties(found, b.properties);
    LayersGather(defs, b, found, all, rank, height);
    PropertiesInFields(defs, b, Some(all), rank, height);
    return Some(all);
  }

  lemma RankHolds(defs: Defs, rank: map<string, nat>, name: string)
    requires Acyclic(defs, rank) && name in defs
    ensures name in rank && forall c :: c in UnionBranches(defs[name]) ==> Below(defs, rank, c, rank[name])
  {}

  lemma LayersGather(defs: Defs, b: Schema, base: map<string, Schema>, all: map<string, Schema>, rank: map<string, nat>, height: nat)
    requires Acyclic(defs, rank) && Below(defs, rank, b, height) && Layered(base, b.properties, all)
    requires if Resolved(defs, b) then Collects(defs, Definition(defs, b), Nested(defs, b), base) else base == map[]
    ensures Gathered(defs, b, all)
  {
    forall key, value
      ensures SomewhereDeclared(defs, b, key, value)
        <==> Has(b.properties, key, value) || (Resolved(defs, b) && Given(defs, Definition(defs, b), Nested(defs, b), key, value))
    {
      hide Acyclic, Layered, Collects, SomewhereDeclared, Has;
      DeclaredStep(defs, b, key, value, rank, height);
    }
    hide SomewhereDeclared, Has, Acyclic, Wins;
    if Resolved(defs, b) {
      forall key | key in base ensures Given(defs, Definition(defs, b), Nested(defs, b), key, base[key]) {
        WinnerIsGiven(defs, Definition(defs, b), Nested(defs, b), key, base[key]);
      }
    }
    hide Given;
  }

  method SchemaVariantProperties(defs: Defs, s: Schema, ghost rank: map<string, nat>, ghost height: nat)
      returns (properties: Option<map<string, Schema>>)
    requires Acyclic(defs, rank) && forall b :: b in UnionBranches(s) ==> Below(defs, rank, b, height)
    ensures properties.None? <==> exists b :: b in UnionBranches(s) && Broken(defs, b)
    ensures properties.Some? ==> Collects(defs, s, UnionBranches(s), properties.value)
    decreases height, 1
  {
    hide Gathered, Collects, Layered, Broken, Acyclic;
    var branches := UnionBranches(s);
    var found := AddProperties(map[], s.properties);
    OwnCollects(defs, s, found);
    assert branches[..0] == [];
    for i := 0 to |branches|
      invariant forall b :: b in branches[..i] ==> !Broken(defs, b)
      invariant Collects(defs, s, branches[..i], found)
    {
      assert branches[i] in branches;
      var next := VariantProperties(defs, branches[i], rank, height);
      if next.None? {
        return None;
      }
      assert branches[..i + 1] == branches[..i] + [branches[i]];
      CollectsMore(defs, s, branches[..i], branches[i], found, next.value);
      found := found + next.value;
    }
    assert branches[..|branches|] == branches;
    return Some(found);
  }

  lemma OwnCollects(defs: Defs, s: Schema, own: map<string, Schema>)
    requires Layered(map[], s.properties, own)
    ensures Collects(defs, s, [], own)
  {}

  lemma CollectsMore(defs: Defs, s: Schema, branches: seq<Schema>, b: Schema, found: map<string, Schema>, more: map<string, Schema>)
    requires Collects(defs, s, branches, found) && Gathered(defs, b, more)
    ensures Collects(defs, s, branches + [b], found + more)
  {
    hide SomewhereDeclared, Has;
    forall key, value
      ensures Given(defs, s, branches + [b], key, value) <==> Given(defs, s, branches, key, value) || SomewhereDeclared(defs, b, key, value)
    {
      assert b in branches + [b];
    }
    forall key | key in found + more ensures Wins(defs, s, branches + [b], key, (found + more)[key]) {
      if key in more {
        LastWins(defs, s, branches, b, key, more[key]);
      } else {
        EarlierWins(defs, s, branches, b, key, found[key]);
      }
    }
    hide Given, Wins;
  }

  lemma LastWins(defs: Defs, s: Schema, branches: seq<Schema>, b: Schema, key: string, value: Schema)
    requires SomewhereDeclared(defs, b, key, value)
    ensures Wins(defs, s, branches + [b], key, value)
  {
    var all := branches + [b];
    assert all[|branches|] == b && all[|branches| + 1..] == [];
    assert b in all;
  }

  lemma EarlierWins(defs: Defs, s: Schema, branches: seq<Schema>, b: Schema, key: string, value: Schema)
    requires Wins(defs, s, branches, key, value) && forall other :: !SomewhereDeclared(defs, b, key, other)
    ensures Wins(defs, s, branches + [b], key, value)
  {
    hide SomewhereDeclared, Has;
    var all := branches + [b];
    if LastDeclares(defs, branches, key, value) {
      var i :| 0 <= i < |branches| && SomewhereDeclared(defs, branches[i], key, value) && NoneDeclares(defs, branches[i + 1..], key);
      assert all[i] == branches[i] && all[i + 1..] == branches[i + 1..] + [b];
      assert all[i] in all;
    }
  }
}
