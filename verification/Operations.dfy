// The RPC operations of a schema: one per wire method and kind, with Go names that do not clash, and
// the dispatch tables built from them.
module Operations {
  import opened Wrappers
  import opened Naming

  datatype Kind = Request | Notification

  datatype Endpoint = Agent | Client

  // What a definition says about its operation: x-method ("" when absent) and x-side.
  datatype Def = Def(xMethod: string, xSide: string)

  datatype Key = Key(methodName: string, kind: Kind)

  datatype Operation = Operation(
    methodName: string, kind: Kind, side: string, handlers: seq<Endpoint>,
    constName: string, name: string, params: string, result: string)

  function KeyOf(op: Operation): Key { Key(op.methodName, op.kind) }

  function HandlerInterface(op: Operation): string { op.name + "Handler" }

  function Title(op: Operation): string { op.methodName + if op.kind.Request? then " request" else " notification" }

  // sideRule.handlersFor; None is a side missing from the table, which is a panic.
  function HandlersFor(side: string, methodName: string): Option<seq<Endpoint>> {
    if side == "agent" then Some([Agent])
    else if side == "client" then Some([Client])
    else if side == "both" then Some([Agent, Client])
    else if side == "protocol" then Some([])
    else if side == "proxy" then Some(if methodName == "proxy/initialize" then [Agent] else [Agent, Client])
    else None
  }

  predicate HasSuffix(s: string, suffix: string) { |s| >= |suffix| && s[|s| - |suffix|..] == suffix }

  // ---------------------------------------------------------------------------------------------
  // From definitions to operations

  // What one definition contributes: nothing, a panic, or the params or result type of an operation.
  datatype Contribution = Skipped | Rejected | Gives(key: Key, isResult: bool)

  function Contributes(def: Def, typeName: string): Contribution {
    if def.xMethod == "" then Skipped
    else match HandlersFor(def.xSide, def.xMethod)
      case None => Rejected
      case Some(handlers) =>
        if handlers == [] then Skipped
        else if HasSuffix(typeName, "Request") then Gives(Key(def.xMethod, Request), false)
        else if HasSuffix(typeName, "Response") then Gives(Key(def.xMethod, Request), true)
        else if HasSuffix(typeName, "Notification") then Gives(Key(def.xMethod, Notification), false)
        else Rejected
  }

  type Table = map<Key, Operation>

  function SlotOf(op: Operation, isResult: bool): string { if isResult then op.result else op.params }

  // Definition n supplies this slot of this operation.
  predicate Supplies(defs: map<string, Def>, types: map<string, string>, n: string, op: Operation, isResult: bool) {
    && n in defs && n in types && Contributes(defs[n], types[n]) == Gives(KeyOf(op), isResult)
    && SlotOf(op, isResult) == types[n] && op.side == defs[n].xSide
  }

  // Definition n fills this slot of the operation with this key.
  predicate Fills(defs: map<string, Def>, types: map<string, string>, n: string, k: Key, isResult: bool) {
    n in defs && n in types && Contributes(defs[n], types[n]) == Gives(k, isResult)
  }

  // None of the named definitions is rejected, and no two of them fill the same slot, or the slots of
  // one operation from different sides.
  ghost predicate Collectable(defs: map<string, Def>, types: map<string, string>, names: set<string>) {
    && (forall n :: n in names && n in defs && n in types ==> !Contributes(defs[n], types[n]).Rejected?)
    && (forall n, m, k, r: bool, q: bool :: n in names && m in names && n != m && Fills(defs, types, n, k, r) && Fills(defs, types, m, k, q)
          ==> r != q && defs[n].xSide == defs[m].xSide)
  }

  // The operations hold what the named definitions say, and nothing else.
  ghost predicate Holds(defs: map<string, Def>, types: map<string, string>, names: set<string>, table: Table) {
    && (forall k :: k in table ==> KeyOf(table[k]) == k && HandlersFor(table[k].side, k.methodName) == Some(table[k].handlers))
    && (forall k, r: bool :: k in table && SlotOf(table[k], r) != "" ==> exists n :: n in names && Supplies(defs, types, n, table[k], r))
    && (forall k :: k in table ==> SlotOf(table[k], false) != "" || SlotOf(table[k], true) != "")
    && (forall n, k, r: bool :: n in names && Fills(defs, types, n, k, r) ==> k in table && Supplies(defs, types, n, table[k], r))
  }

  method AddDefinition(defs: map<string, Def>, types: map<string, string>, ghost names: set<string>, table: Table, n: string)
      returns (r: Option<Table>)
    requires n in defs && n in types && n !in names && names <= defs.Keys * types.Keys
    requires Holds(defs, types, names, table) && Collectable(defs, types, names)
    ensures r.Some? <==> Collectable(defs, types, names + {n})
    ensures r.Some? ==> Holds(defs, types, names + {n}, r.value)
  {
    hide Holds, Collectable, HandlersFor;
    var def, typeName := defs[n], types[n];
    match Contributes(def, typeName)
    case Skipped =>
      SkippedAdds(defs, types, names, table, n);
      return Some(table);
    case Rejected =>
      RejectedSpoils(defs, types, names, n);
      return None;
    case Gives(key, isResult) =>
      GivesNamedType(def, typeName);
      if key in table {
        HoldsAt(defs, types, names, table, key);
      }
      var op := if key in table then table[key]
                else Operation(key.methodName, key.kind, def.xSide, HandlersFor(def.xSide, key.methodName).value, "", "", "", "");
      if op.side != def.xSide || SlotOf(op, isResult) != "" {
        TakenSpoils(defs, types, names, table, n, key, isResult);
        return None;
      }
      op := if isResult then op.(result := typeName) else op.(params := typeName);
      HoldsMore(defs, types, names, table, n, key, isResult, op);
      FreeAdds(defs, types, names, table, n, key, isResult);
      return Some(table[key := op]);
  }

  lemma HoldsAt(defs: map<string, Def>, types: map<string, string>, names: set<string>, table: Table, key: Key)
    requires Holds(defs, types, names, table) && key in table
    ensures KeyOf(table[key]) == key && HandlersFor(table[key].side, key.methodName) == Some(table[key].handlers)
  {}

  lemma SkippedAdds(defs: map<string, Def>, types: map<string, string>, names: set<string>, table: Table, n: string)
    requires n in defs && n in types && Contributes(defs[n], types[n]).Skipped?
    requires Holds(defs, types, names, table) && Collectable(defs, types, names)
    ensures Holds(defs, types, names + {n}, table) && Collectable(defs, types, names + {n})
  {
    hide Contributes, HandlersFor;
  }

  lemma RejectedSpoils(defs: map<string, Def>, types: map<string, string>, names: set<string>, n: string)
    requires n in defs && n in types && Contributes(defs[n], types[n]).Rejected?
    ensures !Collectable(defs, types, names + {n})
  {
    assert n in names + {n};
  }

  // A second side, or a second filler of one slot.
  lemma TakenSpoils(defs: map<string, Def>, types: map<string, string>, names: set<string>, table: Table,
                    n: string, key: Key, isResult: bool)
    requires n !in names && Holds(defs, types, names, table) && Fills(defs, types, n, key, isResult) && key in table
    requires table[key].side != defs[n].xSide || SlotOf(table[key], isResult) != ""
    ensures !Collectable(defs, types, names + {n})
  {
    hide Contributes, HandlersFor;
    var r := if SlotOf(table[key], isResult) != "" then isResult else !isResult;
    assert SlotOf(table[key], r) != "";
    var m :| m in names && Supplies(defs, types, m, table[key], r);
    assert Fills(defs, types, m, key, r) && m in names + {n} && n in names + {n};
  }

  // The first filler of a slot, on the side of its operation.
  lemma FreeAdds(defs: map<string, Def>, types: map<string, string>, names: set<string>, table: Table,
                 n: string, key: Key, isResult: bool)
    requires Holds(defs, types, names, table) && Collectable(defs, types, names) && Fills(defs, types, n, key, isResult)
    requires key in table ==> table[key].side == defs[n].xSide && SlotOf(table[key], isResult) == ""
    ensures Collectable(defs, types, names + {n})
  {
    hide Contributes, HandlersFor;
    forall m, r: bool | m in names && Fills(defs, types, m, key, r) ensures r != isResult && defs[m].xSide == defs[n].xSide {
      assert Supplies(defs, types, m, table[key], r);
      GivesNamedType(defs[m], types[m]);
    }
  }

  lemma HoldsMore(defs: map<string, Def>, types: map<string, string>, names: set<string>, table: Table,
                  n: string, key: Key, isResult: bool, op: Operation)
    requires n in defs && n in types && n !in names && names <= defs.Keys * types.Keys && Holds(defs, types, names, table)
    requires Contributes(defs[n], types[n]) == Gives(key, isResult)
    requires KeyOf(op) == key && op.side == defs[n].xSide && SlotOf(op, isResult) == types[n]
    requires HandlersFor(op.side, key.methodName) == Some(op.handlers)
    requires key in table ==> table[key].side == op.side && SlotOf(table[key], isResult) == "" && SlotOf(table[key], !isResult) == SlotOf(op, !isResult)
    requires key !in table ==> SlotOf(op, !isResult) == ""
    ensures Holds(defs, types, names + {n}, table[key := op])
  {
    GivesNamedType(defs[n], types[n]);
    hide Contributes, HandlersFor;
    var more := table[key := op];
    forall k, r: bool | k in more && SlotOf(more[k], r) != ""
      ensures exists m :: m in names + {n} && Supplies(defs, types, m, more[k], r)
    {
      if k == key && r == isResult {
        assert Supplies(defs, types, n, op, r);
      } else {
        var m :| m in names && Supplies(defs, types, m, table[k], r);
        assert Supplies(defs, types, m, more[k], r);
      }
    }
    forall m, k, r: bool | m in names && Fills(defs, types, m, k, r) ensures k in more && Supplies(defs, types, m, more[k], r) {
      assert Supplies(defs, types, m, table[k], r);
      GivesNamedType(defs[m], types[m]);
    }
    forall k | k in more ensures SlotOf(more[k], false) != "" || SlotOf(more[k], true) != "" {
      assert k == key ==> SlotOf(more[k], isResult) != "";
    }
  }

  lemma GivesNamedType(def: Def, typeName: string)
    requires Contributes(def, typeName).Gives?
    ensures typeName != ""
  {}

  // It returns unless a definition is rejected, an operation has two sides or a slot two definitions.
  method CollectOperations(defs: map<string, Def>, types: map<string, string>, sorted: seq<string>) returns (r: Option<Table>)
    requires UsedBy(sorted) == defs.Keys == types.Keys && Distinct(sorted)
    ensures r.Some? <==> Collectable(defs, types, defs.Keys)
    ensures r.Some? ==> Holds(defs, types, defs.Keys, r.value)
    ensures r.Some? ==> TableFields(defs, types, r.value)
  {
    hide TableFields;
    hide Holds, Collectable, Contributes;
    var table: Table := map[];
    NothingHeld(defs, types);
    assert UsedBy(sorted[..0]) == {};
    for i := 0 to |sorted|
      invariant Holds(defs, types, UsedBy(sorted[..i]), table) && Collectable(defs, types, UsedBy(sorted[..i]))
    {
      assert sorted[i] in UsedBy(sorted) && sorted[..i + 1] == sorted[..i] + [sorted[i]];
      assert UsedBy(sorted[..i + 1]) == UsedBy(sorted[..i]) + {sorted[i]};
      assert UsedBy(sorted[..i + 1]) <= UsedBy(sorted);
      var next := AddDefinition(defs, types, UsedBy(sorted[..i]), table, sorted[i]);
      if next.None? {
        FewerCollectable(defs, types, UsedBy(sorted[..i + 1]), UsedBy(sorted));
        return None;
      }
      table := next.value;
    }
    assert sorted[..|sorted|] == sorted;
    HoldsInFields(defs, types, table);
    return Some(table);
  }

  lemma NothingHeld(defs: map<string, Def>, types: map<string, string>)
    ensures Holds(defs, types, {}, map[]) && Collectable(defs, types, {})
  {}

  lemma FewerCollectable(defs: map<string, Def>, types: map<string, string>, some: set<string>, all: set<string>)
    requires some <= all
    ensures Collectable(defs, types, all) ==> Collectable(defs, types, some)
  {}

  // Every operation needs params, and a request a result.
  predicate IsComplete(op: Operation) { op.params != "" && (op.kind.Request? ==> op.result != "") }

  // Every operation that a definition contributes to has a definition of its params, and a request one
  // of its result.
  ghost predicate Complete(defs: map<string, Def>, types: map<string, string>) {
    forall n, k, r: bool :: Fills(defs, types, n, k, r) ==>
      && (exists m :: Fills(defs, types, m, k, false))
      && (k.kind.Request? ==> exists m :: Fills(defs, types, m, k, true))
  }

  lemma CompleteTable(defs: map<string, Def>, types: map<string, string>, table: Table)
    requires defs.Keys == types.Keys && Holds(defs, types, defs.Keys, table)
    ensures Complete(defs, types) <==> forall k :: k in table ==> IsComplete(table[k])
  {
    hide HandlersFor, Contributes;
    forall k, r: bool | k in table ensures SlotOf(table[k], r) != "" <==> exists m :: Fills(defs, types, m, k, r) {
      if SlotOf(table[k], r) != "" {
        var m :| m in defs.Keys && Supplies(defs, types, m, table[k], r);
        assert Fills(defs, types, m, k, r);
      }
      if m :| Fills(defs, types, m, k, r) {
        GivesNamedType(defs[m], types[m]);
      }
    }
    if Complete(defs, types) {
      forall k | k in table ensures IsComplete(table[k]) {
        var r := SlotOf(table[k], true) != "";
        assert SlotOf(table[k], r) != "";
        var n :| Fills(defs, types, n, k, r);
        assert SlotOf(table[k], false) != "" && (k.kind.Request? ==> SlotOf(table[k], true) != "");
      }
    } else {
      var n, k, r: bool :| Fills(defs, types, n, k, r)
        && ((forall m :: !Fills(defs, types, m, k, false)) || (k.kind.Request? && forall m :: !Fills(defs, types, m, k, true)));
      assert SlotOf(table[k], false) == "" || SlotOf(table[k], true) == "";
    }
  }

  // The operations listed from the table in map order.
  method ListOperations(table: Table) returns (r: Option<seq<Operation>>)
    requires forall k :: k in table ==> KeyOf(table[k]) == k
    ensures r.Some? <==> forall k :: k in table ==> IsComplete(table[k])
    ensures r.Some? ==> Listed(table, table.Keys, r.value)
  {
    var ops: seq<Operation> := [];
    var left := table.Keys;
    while left != {}
      invariant left <= table.Keys && Listed(table, table.Keys - left, ops)
      invariant forall k :: k in table && k !in left ==> IsComplete(table[k])
      decreases left
    {
      var k :| k in left;
      if !IsComplete(table[k]) {
        return None;
      }
      assert table.Keys - (left - {k}) == (table.Keys - left) + {k};
      ListedMore(table, table.Keys - left, ops, k);
      ops, left := ops + [table[k]], left - {k};
    }
    assert table.Keys - left == table.Keys;
    return Some(ops);
  }

  lemma ListedMore(table: Table, keys: set<Key>, ops: seq<Operation>, k: Key)
    requires Listed(table, keys, ops) && k in table && k !in keys && KeyOf(table[k]) == k
    ensures Listed(table, keys + {k}, ops + [table[k]])
  {
    var more := ops + [table[k]];
    forall key | key in keys + {k} ensures exists i :: 0 <= i < |more| && KeyOf(more[i]) == key {
      if key == k {
        assert KeyOf(more[|ops|]) == key;
      } else {
        var i :| 0 <= i < |ops| && KeyOf(ops[i]) == key;
        assert KeyOf(more[i]) == key;
      }
    }
  }

  // ops lists the table's operations under these keys, each once.
  ghost predicate Listed(table: Table, keys: set<Key>, ops: seq<Operation>) {
    && (forall i :: 0 <= i < |ops| ==> KeyOf(ops[i]) in keys && KeyOf(ops[i]) in table && table[KeyOf(ops[i])] == ops[i])
    && (forall k :: k in keys ==> exists i :: 0 <= i < |ops| && KeyOf(ops[i]) == k)
    && (forall i, j :: 0 <= i < j < |ops| ==> KeyOf(ops[i]) != KeyOf(ops[j]))
  }

  // ---------------------------------------------------------------------------------------------
  // Names

  function ConstBase(a: Alphabet, methodName: string): string { "Method" + PascalFrom(a, methodName, true) }

  function ConstBases(a: Alphabet, methods: seq<string>): seq<string> {
    seq(|methods|, i requires 0 <= i < |methods| => ConstBase(a, methods[i]))
  }

  // The constants of the wire methods are handed out along their ascending listing.
  ghost predicate ConstantsFrom(a: Alphabet, methods: set<string>, names: map<string, string>) {
    exists sorted :: Ascending(sorted) && UsedBy(sorted) == methods && HandedOut(ConstBases(a, sorted), sorted, names)
  }

  lemma ConstantsApart(a: Alphabet, methods: set<string>, names: map<string, string>)
    requires ConstantsFrom(a, methods, names)
    ensures names.Keys == methods && Injective(names)
  {
    var sorted :| Ascending(sorted) && UsedBy(sorted) == methods && HandedOut(ConstBases(a, sorted), sorted, names);
    HandedOutApart(ConstBases(a, sorted), sorted, names);
  }

  lemma SameMethodsSameConstants(a: Alphabet, methods: set<string>, n: map<string, string>, m: map<string, string>)
    requires ConstantsFrom(a, methods, n) && ConstantsFrom(a, methods, m)
    ensures n == m
  {
    var s :| Ascending(s) && UsedBy(s) == methods && HandedOut(ConstBases(a, s), s, n);
    var t :| Ascending(t) && UsedBy(t) == methods && HandedOut(ConstBases(a, t), t, m);
    AscendingIsOne(s, t);
    HandedOutOnce(ConstBases(a, s), s, n, m);
  }

  // The constant is the base of the method or a suffixed form of it.
  ghost predicate Constant(a: Alphabet, methodName: string, constName: string) {
    exists used: set<string> :: FirstFree(ConstBase(a, methodName), used, constName)
  }

  lemma ConstantOf(a: Alphabet, methods: set<string>, names: map<string, string>, m: string)
    requires ConstantsFrom(a, methods, names) && m in names
    ensures Constant(a, m, names[m])
  {
    var sorted :| Ascending(sorted) && UsedBy(sorted) == methods && HandedOut(ConstBases(a, sorted), sorted, names);
    var given :| Assigned(ConstBases(a, sorted), {}, given) && Zipped(sorted, given, names);
    var i :| 0 <= i < |sorted| && sorted[i] == m;
    AssignedFrom(ConstBases(a, sorted), {}, given, i);
  }

  lemma {:induction false} AssignedFrom(bases: seq<string>, used: set<string>, names: seq<string>, i: nat)
    requires Assigned(bases, used, names) && i < |bases|
    ensures i < |names| && exists taken: set<string> :: FirstFree(bases[i], taken, names[i])
    decreases |bases|
  {
    if i > 0 {
      AssignedFrom(bases[1..], used + {names[0]}, names[1..], i - 1);
    }
  }

  function GoName(constName: string, op: Operation, both: bool): string {
    (if "Method" <= constName then constName[6..] else constName) + if op.kind.Notification? && both then "Notification" else ""
  }

  function MethodsOf(ops: seq<Operation>): set<string> { set op | op in ops :: op.methodName }

  lemma MethodsMore(ops: seq<Operation>, i: nat)
    requires i < |ops|
    ensures MethodsOf(ops[..i + 1]) == MethodsOf(ops[..i]) + {ops[i].methodName}
  {
    assert ops[..i + 1] == ops[..i] + [ops[i]];
    assert ops[i] in ops[..i + 1];
    forall op | op in ops[..i] ensures op in ops[..i + 1] {}
  }

  ghost predicate Named(a: Alphabet, ops: seq<Operation>, names: map<string, string>, named: seq<Operation>) {
    && |named| == |ops| && ConstantsFrom(a, MethodsOf(ops), names)
    && forall i :: 0 <= i < |ops| ==>
         && ops[i].methodName in names
         && named[i] == ops[i].(constName := names[ops[i].methodName], name := named[i].name)
  }

  method MethodsIn(ops: seq<Operation>) returns (methods: seq<string>)
    ensures Distinct(methods) && UsedBy(methods) == MethodsOf(ops)
  {
    methods := [];
    for i := 0 to |ops|
      invariant Distinct(methods) && UsedBy(methods) == MethodsOf(ops[..i])
    {
      MethodsMore(ops, i);
      if ops[i].methodName !in methods {
        methods := methods + [ops[i].methodName];
      }
    }
    assert ops[..|ops|] == ops && MethodsOf([]) == {};
  }

  method AssignNames(a: Alphabet, ops: seq<Operation>, table: Table) returns (named: seq<Operation>, ghost names: map<string, string>)
    ensures Named(a, ops, names, named)
    ensures forall i :: 0 <= i < |ops| ==>
      named[i].name == GoName(named[i].constName, ops[i], Key(ops[i].methodName, Request) in table)
  {
    hide ConstantsFrom, GoName;
    var methods := MethodsIn(ops);
    var constNames := ConstNames(a, methods);
    names := constNames;
    ConstantsApart(a, MethodsOf(ops), names);
    named := [];
    for i := 0 to |ops|
      invariant |named| == i && forall k :: 0 <= k < i ==> named[k] == ops[k].(constName := names[ops[k].methodName], name := named[k].name)
      invariant forall k :: 0 <= k < i ==> named[k].name == GoName(named[k].constName, ops[k], Key(ops[k].methodName, Request) in table)
    {
      var constName := constNames[ops[i].methodName];
      var name := GoName(constName, ops[i], Key(ops[i].methodName, Request) in table);
      named := named + [ops[i].(constName := constName, name := name)];
    }
  }

  method ConstNames(a: Alphabet, methods: seq<string>) returns (names: map<string, string>)
    requires Distinct(methods)
    ensures ConstantsFrom(a, UsedBy(methods), names)
  {
    hide Assigned, Zipped;
    var sorted := SortedNames(methods);
    var used: set<string> := {};
    names := map[];
    ghost var given: seq<string> := [];
    NothingHandedOut();
    assert ConstBases(a, sorted[..0]) == [] && sorted[..0] == [];
    for i := 0 to |sorted|
      invariant Assigned(ConstBases(a, sorted[..i]), {}, given) && Zipped(sorted[..i], given, names) && used == UsedBy(given)
    {
      var pascal := PascalIdentifier(a, sorted[i]);
      var name, now := UniqueConstName("Method" + pascal, used);
      assert {} + UsedBy(given) == used;
      AssignedMore(ConstBases(a, sorted[..i]), {}, given, ConstBase(a, sorted[i]), name);
      assert ConstBases(a, sorted[..i + 1]) == ConstBases(a, sorted[..i]) + [ConstBase(a, sorted[i])];
      assert sorted[i] !in sorted[..i] by { BeforeSelf(sorted[i]); }
      ZippedOneMore(sorted[..i], given, names, sorted[i], name);
      assert sorted[..i + 1] == sorted[..i] + [sorted[i]];
      names, used, given := names[sorted[i] := name], now, given + [name];
    }
    assert sorted[..|sorted|] == sorted;
  }

  lemma NothingHandedOut()
    ensures Assigned([], {}, []) && Zipped([], [], map[])
  {}

  // ---------------------------------------------------------------------------------------------
  // Order

  // By constant, and a request before the notification of the same method.
  predicate OpBefore(o: Operation, p: Operation) {
    Before(o.constName, p.constName) || (o.constName == p.constName && o.kind.Request? && p.kind.Notification?)
  }

  predicate SameSortKey(o: Operation, p: Operation) { o.constName == p.constName && o.kind == p.kind }

  lemma OpBeforeTotal(o: Operation, p: Operation)
    ensures SameSortKey(o, p) || OpBefore(o, p) || OpBefore(p, o)
    ensures !(OpBefore(o, p) && OpBefore(p, o))
  {
    BeforeTotal(o.constName, p.constName);
    BeforeSelf(o.constName);
  }

  lemma OpBeforeChain(o: Operation, p: Operation, q: Operation)
    requires OpBefore(o, p) && OpBefore(p, q)
    ensures OpBefore(o, q)
  {
    if Before(o.constName, p.constName) && Before(p.constName, q.constName) {
      BeforeChain(o.constName, p.constName, q.constName);
    }
  }

  predicate InOrder(ops: seq<Operation>) { forall i, j :: 0 <= i < j < |ops| ==> OpBefore(ops[i], ops[j]) }

  predicate OwnSortKeys(ops: seq<Operation>) { forall i, j :: 0 <= i < j < |ops| ==> !SameSortKey(ops[i], ops[j]) }

  method SortOperations(ops: seq<Operation>) returns (sorted: seq<Operation>)
    requires OwnSortKeys(ops)
    ensures InOrder(sorted) && multiset(sorted) == multiset(ops)
  {
    hide OpBefore, SameSortKey;
    sorted := [];
    for i := 0 to |ops|
      invariant InOrder(sorted) && multiset(sorted) == multiset(ops[..i])
    {
      var at := 0;
      while at < |sorted| && OpBefore(sorted[at], ops[i])
        invariant 0 <= at <= |sorted|
        invariant forall k :: 0 <= k < at ==> OpBefore(sorted[k], ops[i])
      {
        at := at + 1;
      }
      assert ops[..i + 1] == ops[..i] + [ops[i]];
      forall k | 0 <= k < |sorted| ensures !SameSortKey(sorted[k], ops[i]) {
        assert sorted[k] in multiset(ops[..i]);
      }
      OpInserted(sorted, at, ops[i]);
      sorted := sorted[..at] + [ops[i]] + sorted[at..];
    }
    assert ops[..|ops|] == ops;
  }

  lemma OpInserted(sorted: seq<Operation>, at: nat, op: Operation)
    requires InOrder(sorted) && at <= |sorted| && forall k :: 0 <= k < |sorted| ==> !SameSortKey(sorted[k], op)
    requires forall k :: 0 <= k < at ==> OpBefore(sorted[k], op)
    requires at < |sorted| ==> !OpBefore(sorted[at], op)
    ensures InOrder(sorted[..at] + [op] + sorted[at..])
    ensures multiset(sorted[..at] + [op] + sorted[at..]) == multiset(sorted) + multiset{op}
  {
    assert sorted == sorted[..at] + sorted[at..];
    forall k | at <= k < |sorted| ensures OpBefore(op, sorted[k]) {
      hide OpBefore;
      OpBeforeTotal(op, sorted[at]);
      if k > at {
        OpBeforeChain(op, sorted[at], sorted[k]);
      }
    }
    hide OpBefore, SameSortKey;
  }

  // ---------------------------------------------------------------------------------------------
  // validateNames

  datatype Declaration = Declaration(identifier: string, owner: string)

  function DeclaredBy(op: Operation): seq<Declaration> {
    [Declaration(op.constName, op.methodName), Declaration(HandlerInterface(op), Title(op))]
  }

  function Declarations(ops: seq<Operation>): seq<Declaration> {
    if ops == [] then []
    else Declarations(ops[..|ops| - 1]) + DeclaredBy(ops[|ops| - 1])
  }

  // Nothing is declared under a type's name, or by two different owners.
  ghost predicate Compatible(types: set<string>, declared: seq<Declaration>) {
    && (forall d :: d in declared ==> d.identifier !in types)
    && (forall d, e :: d in declared && e in declared && d.identifier == e.identifier ==> d.owner == e.owner)
  }

  ghost predicate OwnNames(ops: seq<Operation>) { forall i, j :: 0 <= i < j < |ops| ==> ops[i].name != ops[j].name }

  ghost predicate Tracks(identifiers: map<string, string>, declared: seq<Declaration>) {
    && (forall d :: d in declared ==> d.identifier in identifiers && identifiers[d.identifier] == d.owner)
    && (forall id :: id in identifiers ==> Declaration(id, identifiers[id]) in declared)
  }

  method Declare(types: set<string>, identifiers: map<string, string>, d: Declaration, ghost declared: seq<Declaration>)
      returns (r: Option<map<string, string>>)
    requires Tracks(identifiers, declared) && Compatible(types, declared)
    ensures r.Some? <==> Compatible(types, declared + [d])
    ensures r.Some? ==> Tracks(r.value, declared + [d])
  {
    assert d in declared + [d];
    if d.identifier in types {
      return None;
    }
    if d.identifier in identifiers && identifiers[d.identifier] != d.owner {
      assert Declaration(d.identifier, identifiers[d.identifier]) in declared + [d];
      return None;
    }
    return Some(identifiers[d.identifier := d.owner]);
  }

  method DeclareBoth(types: set<string>, identifiers: map<string, string>, op: Operation, ghost declared: seq<Declaration>)
      returns (r: Option<map<string, string>>)
    requires Tracks(identifiers, declared) && Compatible(types, declared)
    ensures r.Some? <==> Compatible(types, declared + DeclaredBy(op))
    ensures r.Some? ==> Tracks(r.value, declared + DeclaredBy(op))
  {
    hide Tracks, Compatible;
    var d, e := DeclaredBy(op)[0], DeclaredBy(op)[1];
    assert declared + [d] + [e] == declared + DeclaredBy(op);
    FewerCompatible(types, declared + [d], declared + DeclaredBy(op));
    r := Declare(types, identifiers, d, declared);
    if r.Some? {
      r := Declare(types, r.value, e, declared + [d]);
    }
  }

  method ValidateNames(ops: seq<Operation>, types: set<string>) returns (ok: bool)
    ensures ok <==> OwnNames(ops) && Compatible(types, Declarations(ops))
  {
    hide Tracks, Compatible, DeclaredBy;
    var methods: set<string> := {};
    var identifiers: map<string, string> := map[];
    NothingDeclared(types);
    assert ops[..0] == [];
    for i := 0 to |ops|
      invariant OwnNames(ops[..i]) && methods == set j | 0 <= j < i :: ops[j].name
      invariant Tracks(identifiers, Declarations(ops[..i])) && Compatible(types, Declarations(ops[..i]))
    {
      if ops[i].name in methods {
        return false;
      }
      methods := methods + {ops[i].name};
      DeclarationsMore(ops, i);
      var next := DeclareBoth(types, identifiers, ops[i], Declarations(ops[..i]));
      if next.None? {
        DeclaredFirst(ops, i + 1);
        FewerCompatible(types, Declarations(ops[..i + 1]), Declarations(ops));
        return false;
      }
      identifiers := next.value;
    }
    assert ops[..|ops|] == ops;
    ok := true;
  }

  lemma NothingDeclared(types: set<string>)
    ensures Declarations([]) == [] && Tracks(map[], []) && Compatible(types, [])
  {}

  lemma DeclarationsMore(ops: seq<Operation>, i: nat)
    requires i < |ops|
    ensures Declarations(ops[..i + 1]) == Declarations(ops[..i]) + DeclaredBy(ops[i])
  {
    assert ops[..i + 1][..i] == ops[..i];
  }

  lemma {:induction false} DeclaredFirst(ops: seq<Operation>, i: nat)
    requires i <= |ops|
    ensures Declarations(ops[..i]) <= Declarations(ops)
    decreases |ops|
  {
    if i == |ops| {
      assert ops[..i] == ops;
    } else {
      assert ops[..|ops| - 1][..i] == ops[..i];
      DeclaredFirst(ops[..|ops| - 1], i);
    }
  }

  lemma FewerCompatible(types: set<string>, some: seq<Declaration>, all: seq<Declaration>)
    requires some <= all
    ensures Compatible(types, all) ==> Compatible(types, some)
  {
    assert forall d :: d in some ==> d in all;
  }

  lemma {:induction false} DeclaredIn(ops: seq<Operation>, i: nat)
    requires i < |ops|
    ensures Declaration(ops[i].constName, ops[i].methodName) in Declarations(ops)
    ensures Declaration(HandlerInterface(ops[i]), Title(ops[i])) in Declarations(ops)
    decreases |ops|
  {
    if i < |ops| - 1 {
      DeclaredIn(ops[..|ops| - 1], i);
    }
  }

  // ---------------------------------------------------------------------------------------------
  // operations

  // The letters from a to z are word runes, a space is not.
  predicate KnowsAscii(a: Alphabet) {
    !a.isWord(' ') && forall c :: 'a' <= c <= 'z' ==> a.isWord(c)
  }

  // Each operation comes from definitions of its own method and side, and each definition that fills a
  // slot is in that slot of an operation.
  ghost predicate Faithful(defs: map<string, Def>, types: map<string, string>, ops: seq<Operation>) {
    && (forall n, k, r: bool :: Fills(defs, types, n, k, r) ==> exists op :: op in ops && Supplies(defs, types, n, op, r))
    && (forall op :: op in ops ==>
          && HandlersFor(op.side, op.methodName) == Some(op.handlers)
          && (exists n :: Supplies(defs, types, n, op, false))
          && (op.kind.Request? ==> exists n :: Supplies(defs, types, n, op, true))
          && (op.kind.Notification? ==> op.result == ""))
  }

  // One operation per method and kind, and no identifier generated twice or taken by a type.
  ghost predicate ClashFree(types: set<string>, ops: seq<Operation>) {
    && (forall o, p :: o in ops && p in ops ==> (o.constName == p.constName <==> o.methodName == p.methodName))
    && (forall o, p :: o in ops && p in ops && KeyOf(o) == KeyOf(p) ==> o == p)
    && (forall o, p :: o in ops && p in ops && o.name == p.name ==> o == p)
    && (forall o, p :: o in ops && p in ops && HandlerInterface(o) == HandlerInterface(p) ==> o == p)
    && (forall o :: o in ops ==> o.constName !in types && HandlerInterface(o) !in types)
    && (forall o, p :: o in ops && p in ops ==> o.constName != HandlerInterface(p))
  }

  predicate HasRequest(ops: seq<Operation>, methodName: string) { exists op :: op in ops && KeyOf(op) == Key(methodName, Request) }

  // The names follow from the constants, and the constants from the methods.
  ghost predicate Spelled(ops: seq<Operation>, names: map<string, string>) {
    forall op :: op in ops ==>
      && op.methodName in names && op.constName == names[op.methodName]
      && op.name == GoName(op.constName, op, HasRequest(ops, op.methodName))
  }

  // The operations of the definitions, named and in order.
  ghost predicate Built(a: Alphabet, defs: map<string, Def>, types: map<string, string>, ops: seq<Operation>) {
    Faithful(defs, types, ops) && InOrder(ops) && exists names :: ConstantsFrom(a, MethodsOf(ops), names) && Spelled(ops, names)
  }

  // ---------------------------------------------------------------------------------------------
  // The same in the fields of the definitions alone

  // Who handles a method of a side: its own endpoint, both of them, and of the proxy methods both but
  // for the first one of the handshake.
  predicate HandledBy(side: string, methodName: string, e: Endpoint) {
    match e
    case Agent => side == "agent" || side == "both" || side == "proxy"
    case Client => side == "client" || side == "both" || (side == "proxy" && methodName != "proxy/initialize")
  }

  predicate OnItsSide(op: Operation) { forall e :: e in op.handlers <==> HandledBy(op.side, op.methodName, e) }

  ghost predicate Ends(s: string, end: string) { exists stem: string :: s == stem + end }

  // Definition n is in its slot of the operation.
  ghost predicate InSlot(defs: map<string, Def>, types: map<string, string>, n: string, op: Operation)
    requires n in defs && n in types
  {
    && op.methodName == defs[n].xMethod && op.side == defs[n].xSide
    && if Ends(types[n], "Response") then op.kind.Request? && op.result == types[n]
       else op.params == types[n] && Ends(types[n], if op.kind.Request? then "Request" else "Notification")
  }

  // Every definition with a method has a known side, and is in its slot of an operation unless that side
  // is the protocol's; every operation is handled where its side says, has a definition of its params
  // and, if it is a request, one of its result.
  ghost predicate Describes(defs: map<string, Def>, types: map<string, string>, ops: seq<Operation>)
    requires defs.Keys == types.Keys
  {
    && (forall n :: n in defs && defs[n].xMethod != "" ==>
          || defs[n].xSide == "protocol"
          || (defs[n].xSide in ["agent", "client", "both", "proxy"] && exists op :: op in ops && InSlot(defs, types, n, op)))
    && (forall op :: op in ops ==>
          && OnItsSide(op) && op.methodName != "" && op.side in ["agent", "client", "both", "proxy"]
          && (exists n :: n in defs && InSlot(defs, types, n, op) && op.params == types[n])
          && (if op.kind.Request? then exists n :: n in defs && InSlot(defs, types, n, op) && op.result == types[n] else op.result == ""))
  }

  lemma SuffixEnds(s: string, end: string)
    ensures HasSuffix(s, end) <==> Ends(s, end)
  {
    if HasSuffix(s, end) {
      assert s == s[..|s| - |end|] + end;
    }
  }

  lemma RolesDiffer(s: string)
    ensures !(Ends(s, "Response") && Ends(s, "Request")) && !(Ends(s, "Response") && Ends(s, "Notification"))
  {
    if Ends(s, "Response") {
      assert s[|s| - 1] == 'e';
    }
    if Ends(s, "Request") {
      assert s[|s| - 1] == 't';
    }
    if Ends(s, "Notification") {
      assert s[|s| - 1] == 'n';
    }
  }

  lemma HandlersInFields(side: string, methodName: string)
    ensures HandlersFor(side, methodName).Some? && HandlersFor(side, methodName).value != [] <==> side in ["agent", "client", "both", "proxy"]
    ensures HandlersFor(side, methodName) == Some([]) <==> side == "protocol"
    ensures HandlersFor(side, methodName).Some? ==>
      forall e :: e in HandlersFor(side, methodName).value <==> HandledBy(side, methodName, e)
  {
    assert |"agent"| == 5 && |"client"| == 6 && |"both"| == 4 && |"protocol"| == 8 && |"proxy"| == 5;
    assert "agent"[0] == 'a' && "proxy"[0] == 'p';
  }

  lemma ContributesInFields(def: Def, typeName: string)
    ensures Contributes(def, typeName).Skipped? <==> def.xMethod == "" || def.xSide == "protocol"
    ensures var c := Contributes(def, typeName);
            c.Gives? ==>
              && def.xSide in ["agent", "client", "both", "proxy"] && def.xMethod != "" && c.key.methodName == def.xMethod
              && (c.isResult <==> Ends(typeName, "Response"))
              && (c.isResult ==> c.key.kind.Request?)
              && (!c.isResult ==> Ends(typeName, if c.key.kind.Request? then "Request" else "Notification"))
  {
    HandlersInFields(def.xSide, def.xMethod);
    SuffixEnds(typeName, "Request");
    SuffixEnds(typeName, "Response");
    SuffixEnds(typeName, "Notification");
    RolesDiffer(typeName);
    hide HandlersFor, HasSuffix, Ends;
  }

  // What the table says, in the same fields.
  ghost predicate TableFields(defs: map<string, Def>, types: map<string, string>, table: Table)
    requires defs.Keys == types.Keys
  {
    && (forall n :: n in defs && defs[n].xMethod != "" ==>
          || defs[n].xSide == "protocol"
          || (defs[n].xSide in ["agent", "client", "both", "proxy"] && exists k :: k in table && InSlot(defs, types, n, table[k])))
    && (forall k :: k in table ==> KeyOf(table[k]) == k && OnItsSide(table[k]) && exists n :: n in defs && InSlot(defs, types, n, table[k]))
  }

  lemma HoldsInFields(defs: map<string, Def>, types: map<string, string>, table: Table)
    requires defs.Keys == types.Keys && Collectable(defs, types, defs.Keys) && Holds(defs, types, defs.Keys, table)
    ensures TableFields(defs, types, table)
  {
    hide Contributes, HandlersFor, InSlot;
    forall n | n in defs && defs[n].xMethod != "" && defs[n].xSide != "protocol"
      ensures defs[n].xSide in ["agent", "client", "both", "proxy"] && exists k :: k in table && InSlot(defs, types, n, table[k])
    {
      ContributesInFields(defs[n], types[n]);
      var c := Contributes(defs[n], types[n]);
      assert Fills(defs, types, n, c.key, c.isResult);
      SuppliesInSlot(defs, types, n, table[c.key], c.isResult);
    }
    forall k | k in table ensures OnItsSide(table[k]) && exists n :: n in defs && InSlot(defs, types, n, table[k]) {
      HandlersInFields(table[k].side, k.methodName);
      var r := SlotOf(table[k], true) != "";
      assert SlotOf(table[k], r) != "";
      var n :| n in defs.Keys && Supplies(defs, types, n, table[k], r);
      SuppliesInSlot(defs, types, n, table[k], r);
    }
  }

  lemma SuppliesInSlot(defs: map<string, Def>, types: map<string, string>, n: string, op: Operation, r: bool)
    requires Supplies(defs, types, n, op, r)
    ensures InSlot(defs, types, n, op) && op.methodName != "" && op.side in ["agent", "client", "both", "proxy"]
  {
    ContributesInFields(defs[n], types[n]);
    hide Contributes, Ends;
  }

  lemma FaithfulDescribes(defs: map<string, Def>, types: map<string, string>, ops: seq<Operation>)
    requires defs.Keys == types.Keys && Collectable(defs, types, defs.Keys) && Faithful(defs, types, ops)
    ensures Describes(defs, types, ops)
  {
    hide Contributes, HandlersFor, InSlot;
    forall n | n in defs && defs[n].xMethod != "" && defs[n].xSide != "protocol"
      ensures defs[n].xSide in ["agent", "client", "both", "proxy"] && exists op :: op in ops && InSlot(defs, types, n, op)
    {
      ContributesInFields(defs[n], types[n]);
      var c := Contributes(defs[n], types[n]);
      assert Fills(defs, types, n, c.key, c.isResult);
      var op :| op in ops && Supplies(defs, types, n, op, c.isResult);
      SuppliesInSlot(defs, types, n, op, c.isResult);
    }
    forall op | op in ops
      ensures OnItsSide(op) && op.methodName != "" && op.side in ["agent", "client", "both", "proxy"]
      ensures exists n :: n in defs && InSlot(defs, types, n, op) && op.params == types[n]
      ensures if op.kind.Request? then exists n :: n in defs && InSlot(defs, types, n, op) && op.result == types[n] else op.result == ""
    {
      HandlersInFields(op.side, op.methodName);
      var n :| Supplies(defs, types, n, op, false);
      SuppliesInSlot(defs, types, n, op, false);
      if op.kind.Request? {
        var m :| Supplies(defs, types, m, op, true);
        SuppliesInSlot(defs, types, m, op, true);
      }
    }
  }

  predicate SharedNotification(ops: seq<Operation>, op: Operation) {
    op.kind.Notification? && exists p :: p in ops && p.kind.Request? && p.methodName == op.methodName
  }

  // An operation's Go name is its constant without the word in front, and a notification that shares its
  // method with a request says so.
  lemma NamesInFields(a: Alphabet, defs: map<string, Def>, types: map<string, string>, ops: seq<Operation>, op: Operation)
    requires Built(a, defs, types, ops) && op in ops
    ensures exists stem: string :: op.constName == "Method" + stem && op.name == stem + if SharedNotification(ops, op) then "Notification" else ""
  {
    hide Faithful, InOrder, ConstantsFrom, MethodsOf, Spelled;
    var names :| ConstantsFrom(a, MethodsOf(ops), names) && Spelled(ops, names);
    assert op.methodName in names && op.constName == names[op.methodName] by { SpelledAt(ops, names, op); }
    ConstantOf(a, MethodsOf(ops), names, op.methodName);
    ConstantPrefix(a, op.methodName, op.constName);
    SpelledAt(ops, names, op);
    assert op.constName == "Method" + op.constName[6..];
  }

  lemma SpelledAt(ops: seq<Operation>, names: map<string, string>, op: Operation)
    requires Spelled(ops, names) && op in ops
    ensures op.methodName in names && op.constName == names[op.methodName]
    ensures "Method" <= op.constName ==> op.name == op.constName[6..] + if SharedNotification(ops, op) then "Notification" else ""
  {
    hide HasRequest;
    assert HasRequest(ops, op.methodName) <==> exists p :: p in ops && p.kind.Request? && p.methodName == op.methodName by {
      RequestsOf(ops, op.methodName);
    }
  }

  lemma RequestsOf(ops: seq<Operation>, methodName: string)
    ensures HasRequest(ops, methodName) <==> exists p :: p in ops && p.kind.Request? && p.methodName == methodName
  {
    if p :| p in ops && p.kind.Request? && p.methodName == methodName {
      assert KeyOf(p) == Key(methodName, Request);
    }
  }

  lemma ConstantPrefix(a: Alphabet, methodName: string, constName: string)
    requires Constant(a, methodName, constName)
    ensures "Method" <= constName
  {
    var used: set<string> :| FirstFree(ConstBase(a, methodName), used, constName);
    assert "Method" <= ConstBase(a, methodName) <= constName;
  }

  // It returns the operations of the definitions, which are determined, unless a definition is rejected,
  // an operation has two sides, a slot two definitions or a needed slot none, or two of the identifiers
  // clash.
  method BuildOperations(a: Alphabet, defs: map<string, Def>, listed: seq<string>)
      returns (r: Option<seq<Operation>>, types: map<string, string>, ghost built: seq<Operation>)
    requires KnowsAscii(a) && Distinct(listed) && UsedBy(listed) == defs.Keys
    ensures NamedFrom(a, defs.Keys, types) && types.Keys == defs.Keys
    ensures Collectable(defs, types, defs.Keys) && Complete(defs, types) ==>
      Built(a, defs, types, built) && r == if ClashFree(types.Values, built) then Some(built) else None
    ensures !(Collectable(defs, types, defs.Keys) && Complete(defs, types)) ==> r.None?
    ensures r.Some? ==> Describes(defs, types, r.value)
  {
    hide Describes;
    hide Holds, Listed, Faithful, ClashFree, Compatible, NamedFrom, Named, Injective, InOrder, Collectable, Complete, Built, OwnNames,
         OwnSortKeys, SameSortKey, Distinct, Ascending;
    types := DefinitionNames(a, listed);
    built := [];
    var sorted := SortedNames(listed);
    assert Distinct(sorted) by { AscendingDistinct(sorted); }
    var table := CollectOperations(defs, types, sorted);
    if table.None? {
      return None, types, built;
    }
    HoldsKeys(defs, types, table.value);
    CompleteTable(defs, types, table.value);
    var ops := ListOperations(table.value);
    if ops.None? {
      return None, types, built;
    }
    var named, names := AssignNames(a, ops.value, table.value);
    ListedBuilt(defs, types, a, table.value, ops.value, names, named);
    var inOrder := SortOperations(named);
    SortedBuilt(defs, types, a, names, named, inOrder);
    built := inOrder;
    BuiltDescribes(a, defs, types, built);
    ClashFreeExactly(a, defs, types, built);
    var ok := ValidateNames(inOrder, types.Values);
    if !ok {
      return None, types, built;
    }
    return Some(inOrder), types, built;
  }

  lemma BuiltDescribes(a: Alphabet, defs: map<string, Def>, types: map<string, string>, ops: seq<Operation>)
    requires defs.Keys == types.Keys && Collectable(defs, types, defs.Keys) && Built(a, defs, types, ops)
    ensures Describes(defs, types, ops)
  {
    hide Describes, Collectable, Faithful;
    FaithfulDescribes(defs, types, ops);
  }

  lemma AscendingDistinct(sorted: seq<string>)
    requires Ascending(sorted)
    ensures Distinct(sorted)
  {
    forall i, j | 0 <= i < j < |sorted| ensures sorted[i] != sorted[j] {
      BeforeSelf(sorted[i]);
    }
  }

  lemma HoldsKeys(defs: map<string, Def>, types: map<string, string>, table: Table)
    requires Holds(defs, types, defs.Keys, table)
    ensures forall k :: k in table ==> KeyOf(table[k]) == k
  {}

  lemma ListedFaithful(defs: map<string, Def>, types: map<string, string>, table: Table, ops: seq<Operation>)
    requires types.Keys == defs.Keys && Holds(defs, types, defs.Keys, table) && Listed(table, table.Keys, ops)
    requires forall k :: k in table ==> IsComplete(table[k])
    ensures Faithful(defs, types, ops)
  {
    hide Contributes, HandlersFor, Supplies;
    forall n, k, r: bool | Fills(defs, types, n, k, r) ensures exists op :: op in ops && Supplies(defs, types, n, op, r) {
      var i :| 0 <= i < |ops| && KeyOf(ops[i]) == k;
      assert ops[i] in ops && Supplies(defs, types, n, ops[i], r);
    }
    forall op | op in ops
      ensures HandlersFor(op.side, op.methodName) == Some(op.handlers)
      ensures exists n :: Supplies(defs, types, n, op, false)
      ensures op.kind.Request? ==> exists n :: Supplies(defs, types, n, op, true)
      ensures op.kind.Notification? ==> op.result == ""
    {
      var k := KeyOf(op);
      assert k in table && table[k] == op && IsComplete(op);
      assert SlotOf(op, false) != "" && (op.kind.Request? ==> SlotOf(op, true) != "");
      if op.kind.Notification? && SlotOf(op, true) != "" {
        var n :| n in defs.Keys && Supplies(defs, types, n, op, true);
        NotificationsHaveNoResult(defs, types, n, op);
      }
    }
  }

  lemma NotificationsHaveNoResult(defs: map<string, Def>, types: map<string, string>, n: string, op: Operation)
    requires Supplies(defs, types, n, op, true)
    ensures op.kind.Request?
  {}

  // Naming leaves everything a definition said as it is.
  lemma NamedFaithful(defs: map<string, Def>, types: map<string, string>, a: Alphabet,
                      ops: seq<Operation>, names: map<string, string>, named: seq<Operation>)
    requires Faithful(defs, types, ops) && Named(a, ops, names, named)
    ensures Faithful(defs, types, named)
  {
    hide Contributes, HandlersFor, Constant, Injective;
    forall n, i, r: bool | 0 <= i < |ops| ensures Supplies(defs, types, n, named[i], r) <==> Supplies(defs, types, n, ops[i], r) {}
    hide Supplies;
    forall n, k, r: bool | Fills(defs, types, n, k, r) ensures exists op :: op in named && Supplies(defs, types, n, op, r) {
      var op :| op in ops && Supplies(defs, types, n, op, r);
      var i :| 0 <= i < |ops| && ops[i] == op;
      assert named[i] in named && Supplies(defs, types, n, named[i], r);
    }
    forall op | op in named
      ensures HandlersFor(op.side, op.methodName) == Some(op.handlers)
      ensures exists n :: Supplies(defs, types, n, op, false)
      ensures op.kind.Request? ==> exists n :: Supplies(defs, types, n, op, true)
      ensures op.kind.Notification? ==> op.result == ""
    {
      var i :| 0 <= i < |named| && named[i] == op;
      assert ops[i] in ops;
    }
  }

  lemma SortedFaithful(defs: map<string, Def>, types: map<string, string>, ops: seq<Operation>, sorted: seq<Operation>)
    requires Faithful(defs, types, ops) && multiset(sorted) == multiset(ops)
    ensures Faithful(defs, types, sorted)
  {
    hide Contributes, HandlersFor, Supplies;
    forall op ensures op in ops <==> op in sorted {
      assert op in multiset(sorted) <==> op in multiset(ops);
    }
  }

  // What is listed and named is spelled as it should be, and each key once.
  lemma ListedBuilt(defs: map<string, Def>, types: map<string, string>, a: Alphabet, table: Table,
                    ops: seq<Operation>, names: map<string, string>, named: seq<Operation>)
    requires types.Keys == defs.Keys && Holds(defs, types, defs.Keys, table) && Listed(table, table.Keys, ops)
    requires (forall k :: k in table ==> IsComplete(table[k])) && Named(a, ops, names, named)
    requires forall i :: 0 <= i < |ops| ==> named[i].name == GoName(named[i].constName, ops[i], Key(ops[i].methodName, Request) in table)
    ensures Faithful(defs, types, named) && ConstantsFrom(a, MethodsOf(named), names) && Spelled(named, names) && OwnSortKeys(named)
  {
    ListedFaithful(defs, types, table, ops);
    NamedFaithful(defs, types, a, ops, names, named);
    hide Holds, Faithful, ConstantsFrom, GoName;
    ConstantsApart(a, MethodsOf(ops), names);
    NamedMethods(a, ops, names, named);
    forall i, j | 0 <= i < j < |named| ensures !SameSortKey(named[i], named[j]) {
      assert KeyOf(ops[i]) != KeyOf(ops[j]);
    }
    ListedRequests(a, table, ops, names, named);
    SpelledNames(a, table, ops, names, named);
  }

  lemma ListedRequests(a: Alphabet, table: Table, ops: seq<Operation>, names: map<string, string>, named: seq<Operation>)
    requires Listed(table, table.Keys, ops) && Named(a, ops, names, named)
    ensures forall i :: 0 <= i < |ops| ==> (Key(ops[i].methodName, Request) in table <==> HasRequest(named, ops[i].methodName))
  {
    hide ConstantsFrom;
    forall i | 0 <= i < |ops| ensures Key(ops[i].methodName, Request) in table <==> HasRequest(named, ops[i].methodName) {
      var k := Key(ops[i].methodName, Request);
      if k in table {
        var j :| 0 <= j < |ops| && KeyOf(ops[j]) == k;
        assert named[j] in named && KeyOf(named[j]) == k;
      }
      if op :| op in named && KeyOf(op) == k {
        var j :| 0 <= j < |named| && named[j] == op;
        assert KeyOf(ops[j]) == k;
      }
    }
  }

  lemma SpelledNames(a: Alphabet, table: Table, ops: seq<Operation>, names: map<string, string>, named: seq<Operation>)
    requires Named(a, ops, names, named)
    requires forall i :: 0 <= i < |ops| ==> named[i].name == GoName(named[i].constName, ops[i], Key(ops[i].methodName, Request) in table)
    requires forall i :: 0 <= i < |ops| ==> (Key(ops[i].methodName, Request) in table <==> HasRequest(named, ops[i].methodName))
    ensures Spelled(named, names)
  {
    hide ConstantsFrom, HasRequest;
    forall op | op in named
      ensures op.methodName in names && op.constName == names[op.methodName]
      ensures op.name == GoName(op.constName, op, HasRequest(named, op.methodName))
    {
      var i :| 0 <= i < |named| && named[i] == op;
      assert op.methodName == ops[i].methodName && op.kind == ops[i].kind;
    }
  }

  lemma NamedMethods(a: Alphabet, ops: seq<Operation>, names: map<string, string>, named: seq<Operation>)
    requires Named(a, ops, names, named)
    ensures MethodsOf(named) == MethodsOf(ops)
  {
    hide ConstantsFrom;
    forall m | m in MethodsOf(ops) ensures m in MethodsOf(named) {
      var i :| 0 <= i < |ops| && ops[i].methodName == m;
      assert named[i] in named;
    }
    forall m | m in MethodsOf(named) ensures m in MethodsOf(ops) {
      var i :| 0 <= i < |named| && named[i].methodName == m;
      assert ops[i] in ops;
    }
  }

  lemma SortedBuilt(defs: map<string, Def>, types: map<string, string>, a: Alphabet, names: map<string, string>,
                    named: seq<Operation>, sorted: seq<Operation>)
    requires Faithful(defs, types, named) && ConstantsFrom(a, MethodsOf(named), names) && Spelled(named, names)
    requires multiset(sorted) == multiset(named) && InOrder(sorted)
    ensures Built(a, defs, types, sorted)
  {
    SortedFaithful(defs, types, named, sorted);
    hide Faithful, ConstantsFrom, InOrder, Spelled;
    SameElements(named, sorted);
    SortedSpelled(named, names, sorted);
  }

  lemma SortedSpelled(named: seq<Operation>, names: map<string, string>, sorted: seq<Operation>)
    requires Spelled(named, names) && multiset(sorted) == multiset(named)
    ensures Spelled(sorted, names)
  {
    SameElements(named, sorted);
    hide HasRequest, GoName;
  }

  lemma SameElements(ops: seq<Operation>, sorted: seq<Operation>)
    requires multiset(sorted) == multiset(ops)
    ensures MethodsOf(sorted) == MethodsOf(ops)
    ensures forall op :: op in sorted <==> op in ops
    ensures forall m :: HasRequest(sorted, m) <==> HasRequest(ops, m)
  {
    forall op ensures op in ops <==> op in sorted {
      assert op in multiset(sorted) <==> op in multiset(ops);
    }
  }

  // One way to build the operations, whatever order the maps were walked in.
  lemma BuiltIsOne(a: Alphabet, defs: map<string, Def>, types: map<string, string>, o: seq<Operation>, p: seq<Operation>)
    requires Built(a, defs, types, o) && Built(a, defs, types, p)
    ensures o == p
  {
    BuiltWithin(a, defs, types, o, p);
    BuiltWithin(a, defs, types, p, o);
    OrderIsOne(o, p);
  }

  // Built operations with the same key are one.
  lemma BuiltKeys(a: Alphabet, defs: map<string, Def>, types: map<string, string>, ops: seq<Operation>, o: Operation, p: Operation)
    requires Built(a, defs, types, ops) && o in ops && p in ops && KeyOf(o) == KeyOf(p)
    ensures o == p
  {
    hide Faithful, InOrder, GoName, HasRequest, ConstantsFrom;
    SortKeysTellApart(ops, o, p);
  }

  lemma BuiltAgree(a: Alphabet, defs: map<string, Def>, types: map<string, string>, o: seq<Operation>, p: seq<Operation>, op: Operation)
      returns (twin: Operation)
    requires Built(a, defs, types, o) && Built(a, defs, types, p) && op in o
    ensures twin in p && KeyOf(twin) == KeyOf(op)
    ensures twin.side == op.side && twin.handlers == op.handlers && twin.params == op.params && twin.result == op.result
  {
    hide HandlersFor, Contributes, InOrder, ConstantsFrom, Spelled;
    var n :| Supplies(defs, types, n, op, false);
    assert Fills(defs, types, n, KeyOf(op), false);
    twin :| twin in p && Supplies(defs, types, n, twin, false);
    if op.kind.Request? {
      var m :| Supplies(defs, types, m, op, true);
      assert Fills(defs, types, m, KeyOf(op), true);
      var other :| other in p && Supplies(defs, types, m, other, true);
      BuiltKeys(a, defs, types, p, twin, other);
    }
  }

  lemma BuiltMethods(a: Alphabet, defs: map<string, Def>, types: map<string, string>, o: seq<Operation>, p: seq<Operation>)
    requires Built(a, defs, types, o) && Built(a, defs, types, p)
    ensures MethodsOf(o) <= MethodsOf(p) && forall m :: HasRequest(o, m) ==> HasRequest(p, m)
  {
    hide Built;
    forall m | m in MethodsOf(o) ensures m in MethodsOf(p) {
      var op :| op in o && op.methodName == m;
      var twin := BuiltAgree(a, defs, types, o, p, op);
    }
    forall m | HasRequest(o, m) ensures HasRequest(p, m) {
      var op :| op in o && KeyOf(op) == Key(m, Request);
      var twin := BuiltAgree(a, defs, types, o, p, op);
    }
  }

  lemma BuiltNames(a: Alphabet, defs: map<string, Def>, types: map<string, string>, o: seq<Operation>, p: seq<Operation>)
      returns (names: map<string, string>)
    requires Built(a, defs, types, o) && Built(a, defs, types, p)
    ensures Spelled(o, names) && Spelled(p, names)
  {
    BuiltMethods(a, defs, types, o, p);
    BuiltMethods(a, defs, types, p, o);
    hide Faithful, InOrder, Spelled, ConstantsFrom;
    names :| ConstantsFrom(a, MethodsOf(o), names) && Spelled(o, names);
    var others :| ConstantsFrom(a, MethodsOf(p), others) && Spelled(p, others);
    SameMethodsSameConstants(a, MethodsOf(o), names, others);
  }

  lemma SpelledAlike(names: map<string, string>, o: seq<Operation>, p: seq<Operation>, op: Operation, twin: Operation)
    requires Spelled(o, names) && Spelled(p, names) && op in o && twin in p
    requires HasRequest(o, op.methodName) <==> HasRequest(p, op.methodName)
    requires KeyOf(twin) == KeyOf(op)
    requires twin.side == op.side && twin.handlers == op.handlers && twin.params == op.params && twin.result == op.result
    ensures twin == op
  {
    hide HasRequest;
  }

  lemma BuiltWithin(a: Alphabet, defs: map<string, Def>, types: map<string, string>, o: seq<Operation>, p: seq<Operation>)
    requires Built(a, defs, types, o) && Built(a, defs, types, p)
    ensures forall op :: op in o ==> op in p
  {
    hide Built, Spelled, HasRequest;
    BuiltMethods(a, defs, types, o, p);
    BuiltMethods(a, defs, types, p, o);
    var names := BuiltNames(a, defs, types, o, p);
    forall op | op in o ensures op in p {
      var twin := BuiltAgree(a, defs, types, o, p, op);
      SpelledAlike(names, o, p, op, twin);
    }
  }

  // A set of operations has one order.
  lemma {:induction false} OrderIsOne(o: seq<Operation>, p: seq<Operation>)
    requires InOrder(o) && InOrder(p) && forall op :: op in o <==> op in p
    ensures o == p
  {
    FirstIn(o);
    FirstIn(p);
    if o != [] && p != [] {
      assert o[0] == p[0] by { FirstIsOne(o, p); }
      WithoutFirst(o);
      WithoutFirst(p);
      OrderIsOne(o[1..], p[1..]);
      assert o == [o[0]] + o[1..] && p == [p[0]] + p[1..];
    }
  }

  lemma FirstIn(o: seq<Operation>)
    ensures o != [] ==> o[0] in o
  {}

  lemma FirstIsOne(o: seq<Operation>, p: seq<Operation>)
    requires InOrder(o) && InOrder(p) && o != [] && p != [] && o[0] in p && p[0] in o
    ensures o[0] == p[0]
  {
    var i :| 0 <= i < |p| && p[i] == o[0];
    var j :| 0 <= j < |o| && o[j] == p[0];
    OpBeforeTotal(o[0], p[0]);
  }

  lemma WithoutFirst(o: seq<Operation>)
    requires InOrder(o) && o != []
    ensures InOrder(o[1..]) && forall op :: op in o[1..] <==> op in o && op != o[0]
  {
    OpBeforeTotal(o[0], o[0]);
    assert forall op :: op in o <==> op == o[0] || op in o[1..];
  }

  // validateNames passes exactly the operations without a clash.
  lemma ClashFreeExactly(a: Alphabet, defs: map<string, Def>, types: map<string, string>, ops: seq<Operation>)
    requires KnowsAscii(a) && Built(a, defs, types, ops)
    ensures ClashFree(types.Values, ops) <==> OwnNames(ops) && Compatible(types.Values, Declarations(ops))
  {
    hide Faithful, KnowsAscii, ConstantsFrom, GoName, HasRequest, MethodsOf, ClashFree, OwnNames, Compatible, InOrder;
    var names :| ConstantsFrom(a, MethodsOf(ops), names) && Spelled(ops, names);
    ConstantsApart(a, MethodsOf(ops), names);
    forall op | op in ops ensures Constant(a, op.methodName, op.constName) {
      ConstantOf(a, MethodsOf(ops), names, op.methodName);
    }
    hide Constant;
    if OwnNames(ops) && Compatible(types.Values, Declarations(ops)) {
      ValidatedClashFree(a, types.Values, names, ops);
    }
    if ClashFree(types.Values, ops) {
      ClashFreeValidated(types.Values, ops);
    }
  }

  lemma ClashFreeValidated(types: set<string>, ops: seq<Operation>)
    requires ClashFree(types, ops) && InOrder(ops)
    ensures OwnNames(ops) && Compatible(types, Declarations(ops))
  {
    forall i, j | 0 <= i < j < |ops| ensures ops[i].name != ops[j].name {
      OpBeforeTotal(ops[i], ops[j]);
    }
    hide InOrder, OpBefore;
    forall d | d in Declarations(ops) ensures exists op :: op in ops && d in DeclaredBy(op) {
      DeclaredFrom(ops, d);
    }
    hide Declarations;
    assert Compatible(types, Declarations(ops));
  }

  lemma {:induction false} DeclaredFrom(ops: seq<Operation>, d: Declaration)
    requires d in Declarations(ops)
    ensures exists op :: op in ops && d in DeclaredBy(op)
  {
    if d in DeclaredBy(ops[|ops| - 1]) {
      assert ops[|ops| - 1] in ops;
    } else {
      DeclaredFrom(ops[..|ops| - 1], d);
    }
  }

  lemma ValidatedClashFree(a: Alphabet, types: set<string>, names: map<string, string>, ops: seq<Operation>)
    requires KnowsAscii(a) && Injective(names) && InOrder(ops)
    requires forall op :: op in ops ==> op.methodName in names && op.constName == names[op.methodName] && Constant(a, op.methodName, op.constName)
    requires OwnNames(ops) && Compatible(types, Declarations(ops))
    ensures ClashFree(types, ops)
  {
    hide Constant, Before, KnowsAscii;
    forall o | o in ops ensures o.constName !in types && HandlerInterface(o) !in types {
      var i :| 0 <= i < |ops| && ops[i] == o;
      DeclaredIn(ops, i);
    }
    forall o, p | o in ops && p in ops ensures o.constName != HandlerInterface(p) {
      var i :| 0 <= i < |ops| && ops[i] == o;
      var j :| 0 <= j < |ops| && ops[j] == p;
      DeclaredIn(ops, i);
      DeclaredIn(ops, j);
      if o.methodName == Title(p) {
        ConstantIsNoHandler(a, o, p);
      }
    }
    forall o, p | o in ops && p in ops && HandlerInterface(o) == HandlerInterface(p) ensures o.name == p.name {
      assert HandlerInterface(o)[..|o.name|] == o.name && HandlerInterface(p)[..|p.name|] == p.name;
    }
    forall o, p | o in ops && p in ops && KeyOf(o) == KeyOf(p) ensures o == p {
      SortKeysTellApart(ops, o, p);
    }
  }

  lemma SortKeysTellApart(ops: seq<Operation>, o: Operation, p: Operation)
    requires InOrder(ops) && o in ops && p in ops && SameSortKey(o, p)
    ensures o == p
  {
    var i :| 0 <= i < |ops| && ops[i] == o;
    var j :| 0 <= j < |ops| && ops[j] == p;
    BeforeSelf(o.constName);
  }

  // A wire method spelled like the title of another operation ("x request") ends in a letter of
  // "request" or "notification", so its constant cannot be that operation's handler interface.
  lemma ConstantIsNoHandler(a: Alphabet, o: Operation, p: Operation)
    requires KnowsAscii(a) && Constant(a, o.methodName, o.constName) && o.methodName == Title(p)
    ensures o.constName != HandlerInterface(p)
  {
    var used: set<string> :| FirstFree(ConstBase(a, o.methodName), used, o.constName);
    var kept := if p.kind.Request? then p.methodName + " reques" else p.methodName + " notificatio";
    var last := if p.kind.Request? then 't' else 'n';
    assert o.methodName == kept + [last];
    PascalAppend(a, kept, [last], true);
    OneRune(a, last);
    assert kept[|kept| - 1] == if p.kind.Request? then 's' else 'o';
    var base := ConstBase(a, o.methodName);
    assert base[|base| - 1] == last;
    assert HandlerInterface(p)[|HandlerInterface(p)| - 1] == 'r';
    if o.constName != base {
      var k: nat :| k >= 2 && o.constName == base + Decimal(k);
      assert o.constName[|o.constName| - 1] in DIGITS;
    }
  }

  // ---------------------------------------------------------------------------------------------
  // dispatchFunc

  // The handled operations of one method, in their order.
  function Group(ops: seq<Operation>, e: Endpoint, constName: string): seq<Operation> {
    if ops == [] then []
    else
      var op := ops[|ops| - 1];
      Group(ops[..|ops| - 1], e, constName) + if e in op.handlers && op.constName == constName then [op] else []
  }

  method DispatchGroups(ops: seq<Operation>, e: Endpoint) returns (byMethod: map<string, seq<Operation>>)
    ensures forall c :: (c in byMethod <==> Group(ops, e, c) != []) && (c in byMethod ==> byMethod[c] == Group(ops, e, c))
    ensures (forall op :: op in ops ==> OnItsSide(op)) ==>
      forall op :: op in ops ==> (HandledBy(op.side, op.methodName, e) <==> op.constName in byMethod && op in byMethod[op.constName])
  {
    byMethod := map[];
    for i := 0 to |ops|
      invariant forall c :: (c in byMethod <==> Group(ops[..i], e, c) != []) && (c in byMethod ==> byMethod[c] == Group(ops[..i], e, c))
    {
      var op := ops[i];
      assert ops[..i + 1][..i] == ops[..i] && ops[..i + 1][i] == op;
      if e in op.handlers {
        var group := if op.constName in byMethod then byMethod[op.constName] else [];
        byMethod := byMethod[op.constName := group + [op]];
      }
    }
    assert ops[..|ops|] == ops;
    GroupsBySide(ops, e, byMethod);
  }

  lemma GroupsBySide(ops: seq<Operation>, e: Endpoint, byMethod: map<string, seq<Operation>>)
    requires forall c :: (c in byMethod <==> Group(ops, e, c) != []) && (c in byMethod ==> byMethod[c] == Group(ops, e, c))
    ensures (forall op :: op in ops ==> OnItsSide(op)) ==>
      forall op :: op in ops ==> (HandledBy(op.side, op.methodName, e) <==> op.constName in byMethod && op in byMethod[op.constName])
  {
    forall op | op in ops ensures e in op.handlers <==> op.constName in byMethod && op in byMethod[op.constName] {
      GroupMembers(ops, e, op.constName);
    }
    hide HandledBy;
  }

  lemma {:induction false} GroupMembers(ops: seq<Operation>, e: Endpoint, constName: string)
    ensures forall op :: op in Group(ops, e, constName) <==> op in ops && e in op.handlers && op.constName == constName
    ensures InOrder(ops) ==> InOrder(Group(ops, e, constName))
  {
    if ops != [] {
      hide OpBefore;
      var rest, last := ops[..|ops| - 1], ops[|ops| - 1];
      GroupMembers(rest, e, constName);
      assert forall op :: op in ops <==> op in rest || op == last;
      assert InOrder(ops) ==> InOrder(rest) && forall op :: op in rest ==> OpBefore(op, last);
      var group := Group(rest, e, constName);
      forall i | 0 <= i < |group| ensures group[i] in rest {}
    }
  }

  // A group is one operation, or the request and then the notification of one method.
  lemma GroupShape(ops: seq<Operation>, e: Endpoint, constName: string)
    requires InOrder(ops)
    ensures |Group(ops, e, constName)| <= 2
    ensures |Group(ops, e, constName)| == 2 ==> Group(ops, e, constName)[0].kind.Request? && Group(ops, e, constName)[1].kind.Notification?
  {
    GroupMembers(ops, e, constName);
    var group := Group(ops, e, constName);
    BeforeSelf(constName);
    forall i | 0 < i < |group| ensures group[i].kind.Notification? {
      assert group[i - 1] in group && group[i] in group && OpBefore(group[i - 1], group[i]);
    }
    forall i | 0 <= i < |group| - 1 ensures group[i].kind.Request? {
      assert group[i] in group && group[i + 1] in group && OpBefore(group[i], group[i + 1]);
    }
    assert |group| >= 2 ==> group[1].kind.Notification?;
  }

  // What the generated switch does with a message: only a group of two looks at the kind.
  function Route(ops: seq<Operation>, e: Endpoint, constName: string, isCall: bool): Option<Operation> {
    var group := Group(ops, e, constName);
    if group == [] then None
    else if |group| == 2 then Some(if isCall then group[0] else group[1])
    else Some(group[0])
  }

  // In the terms of the definitions: the side of the operation gives its method to this endpoint.
  predicate Serves(op: Operation, e: Endpoint, methodName: string) { HandledBy(op.side, op.methodName, e) && op.methodName == methodName }

  // The groups hold each operation of an endpoint's own, and no other.
  lemma GroupsInFields(ops: seq<Operation>, e: Endpoint, constName: string)
    requires forall op :: op in ops ==> OnItsSide(op)
    ensures forall op :: op in Group(ops, e, constName) <==> op in ops && op.constName == constName && HandledBy(op.side, op.methodName, e)
  {
    GroupMembers(ops, e, constName);
  }

  // A message reaches an operation of its method; of its own kind whenever there is one, so a kind is
  // mistaken exactly when the endpoint handles the method in the other kind only.
  lemma RouteMeaning(types: set<string>, ops: seq<Operation>, e: Endpoint, of: Operation, isCall: bool)
    requires InOrder(ops) && ClashFree(types, ops) && of in ops && forall op :: op in ops ==> OnItsSide(op)
    ensures match Route(ops, e, of.constName, isCall)
      case None => forall op :: op in ops ==> !Serves(op, e, of.methodName)
      case Some(op) =>
        && op in ops && Serves(op, e, of.methodName)
        && (op.kind.Request? == isCall <==> exists own :: own in ops && Serves(own, e, of.methodName) && own.kind.Request? == isCall)
  {
    ServedGroup(types, ops, e, of);
    GroupShape(ops, e, of.constName);
    GroupRoute(Group(ops, e, of.constName), isCall);
    hide Group, InOrder, ClashFree, OnItsSide, HandledBy, Serves;
  }

  lemma ServedGroup(types: set<string>, ops: seq<Operation>, e: Endpoint, of: Operation)
    requires ClashFree(types, ops) && of in ops && forall op :: op in ops ==> OnItsSide(op)
    ensures forall op :: op in Group(ops, e, of.constName) <==> op in ops && Serves(op, e, of.methodName)
  {
    GroupsInFields(ops, e, of.constName);
    hide HandledBy, OnItsSide;
  }

  lemma GroupRoute(group: seq<Operation>, isCall: bool)
    requires |group| <= 2 && (|group| == 2 ==> group[0].kind.Request? && group[1].kind.Notification?)
    ensures group != [] ==>
              var op := if |group| == 2 && !isCall then group[1] else group[0];
              op in group && (op.kind.Request? == isCall <==> exists own :: own in group && own.kind.Request? == isCall)
  {
    if group != [] {
      assert group[0] in group;
      if |group| == 2 {
        assert group[1] in group;
      } else {
        assert forall op :: op in group ==> op == group[0];
      }
    }
  }
}
