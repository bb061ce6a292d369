// Go identifiers for schema names: words are capitalised and joined, and a name that is taken gets the
// first free decimal suffix, starting at 2.
module Naming {
  import opened Wrappers

  // ---------------------------------------------------------------------------------------------
  // PascalIdentifier. The Unicode tables are parameters: which runes belong to words, and upper case.

  datatype Alphabet = Alphabet(isWord: char -> bool, upper: char -> char)

  // The word runes in order, the first of each word in upper case. `fresh` holds outside a word.
  function PascalFrom(a: Alphabet, value: string, outside: bool): string {
    if value == "" then ""
    else if !a.isWord(value[0]) then PascalFrom(a, value[1..], true)
    else [if outside then a.upper(value[0]) else value[0]] + PascalFrom(a, value[1..], false)
  }

  function UpperFirst(a: Alphabet, word: string): string {
    if word == "" then "" else [a.upper(word[0])] + word[1..]
  }

  function Joined(a: Alphabet, words: seq<string>): string {
    if words == [] then "" else Joined(a, words[..|words| - 1]) + UpperFirst(a, words[|words| - 1])
  }

  // Whether the value ends inside a word.
  predicate EndsInWord(a: Alphabet, value: string) { value != "" && a.isWord(value[|value| - 1]) }

  lemma {:induction false} PascalAppend(a: Alphabet, u: string, v: string, outside: bool)
    ensures PascalFrom(a, u + v, outside)
         == PascalFrom(a, u, outside) + PascalFrom(a, v, if u == "" then outside else !EndsInWord(a, u))
  {
    if u == "" {
      assert u + v == v;
    } else {
      assert (u + v)[1..] == u[1..] + v;
      var next := !a.isWord(u[0]);
      PascalAppend(a, u[1..], v, next);
    }
  }

  // Separators split a name into parts with no other effect, so "a/b-c" and "a/b_c" get one identifier.
  lemma SeparatorsVanish(a: Alphabet, u: string, separator: char, v: string)
    requires !a.isWord(separator)
    ensures PascalFrom(a, u + [separator] + v, true) == PascalFrom(a, u, true) + PascalFrom(a, v, true)
  {
    PascalAppend(a, u, [separator] + v, true);
    assert u + [separator] + v == u + ([separator] + v);
    assert ([separator] + v)[1..] == v;
  }

  // The loop has read the prefix: its finished words and the word it is in.
  ghost predicate Read(a: Alphabet, words: seq<string>, word: string, prefix: string) {
    && (word != "" <==> EndsInWord(a, prefix))
    && Joined(a, words) + UpperFirst(a, word) == PascalFrom(a, prefix, true)
  }

  method PascalIdentifier(a: Alphabet, value: string) returns (name: string)
    ensures name == PascalFrom(a, value, true)
  {
    hide Read, Joined, UpperFirst;
    var words: seq<string> := [];
    var word := "";
    NothingRead(a);
    for i := 0 to |value|
      invariant Read(a, words, word, value[..i])
    {
      assert value[..i + 1] == value[..i] + [value[i]];
      ReadRune(a, words, word, value[..i], value[i]);
      if a.isWord(value[i]) {
        word := word + [value[i]];
      } else {
        if word != "" {
          words := words + [word];
        }
        word := "";
      }
    }
    assert value[..|value|] == value;
    AllRead(a, words, word, value);
    if word != "" {
      words := words + [word];
    }
    name := JoinUpper(a, words);
  }

  method JoinUpper(a: Alphabet, words: seq<string>) returns (name: string)
    ensures name == Joined(a, words)
  {
    name := "";
    for i := 0 to |words|
      invariant name == Joined(a, words[..i])
    {
      assert words[..i + 1][..i] == words[..i];
      name := name + UpperFirst(a, words[i]);
    }
    assert words[..|words|] == words;
  }

  lemma NothingRead(a: Alphabet)
    ensures Read(a, [], "", "")
  {}

  lemma ReadRune(a: Alphabet, words: seq<string>, word: string, prefix: string, c: char)
    requires Read(a, words, word, prefix)
    ensures if a.isWord(c) then Read(a, words, word + [c], prefix + [c])
            else Read(a, if word == "" then words else words + [word], "", prefix + [c])
  {
    PascalAppend(a, prefix, [c], true);
    OneRune(a, c);
    hide PascalFrom;
    if a.isWord(c) {
      assert UpperFirst(a, word + [c]) == UpperFirst(a, word) + if word == "" then [a.upper(c)] else [c];
    } else if word != "" {
      assert (words + [word])[..|words|] == words;
    }
  }

  lemma AllRead(a: Alphabet, words: seq<string>, word: string, value: string)
    requires Read(a, words, word, value)
    ensures Joined(a, if word == "" then words else words + [word]) == PascalFrom(a, value, true)
  {
    assert (words + [word])[..|words|] == words;
  }

  lemma OneRune(a: Alphabet, c: char)
    ensures PascalFrom(a, [c], true) == if a.isWord(c) then [a.upper(c)] else ""
    ensures PascalFrom(a, [c], false) == if a.isWord(c) then [c] else ""
  {
    assert [c][1..] == "";
  }

  // ---------------------------------------------------------------------------------------------
  // Decimal suffixes

  const DIGITS := "0123456789"

  function Decimal(n: nat): (text: string)
    ensures text != "" && text[|text| - 1] in DIGITS
  {
    if n < 10 then [DIGITS[n]] else Decimal(n / 10) + [DIGITS[n % 10]]
  }

  function DigitOf(c: char): int { c as int - '0' as int }

  function Number(text: string): int {
    if text == "" then 0 else 10 * Number(text[..|text| - 1]) + DigitOf(text[|text| - 1])
  }

  // Reading a decimal numeral gives the number back, so different numbers have different numerals.
  lemma {:induction false} DecimalReadsBack(n: nat)
    ensures Number(Decimal(n)) == n
  {
    assert forall d :: 0 <= d < 10 ==> DigitOf(DIGITS[d]) == d;
    if n < 10 {
      assert Decimal(n)[..0] == "";
    } else {
      DecimalReadsBack(n / 10);
      assert Decimal(n)[..|Decimal(n)| - 1] == Decimal(n / 10);
    }
  }

  function Suffixed(name: string, k: nat): string { name + Decimal(k) }

  lemma SuffixesDiffer(name: string, j: nat, k: nat)
    requires j != k
    ensures Suffixed(name, j) != Suffixed(name, k)
  {
    DecimalReadsBack(j);
    DecimalReadsBack(k);
    assert Suffixed(name, j)[|name|..] == Decimal(j) && Suffixed(name, k)[|name|..] == Decimal(k);
  }

  // ---------------------------------------------------------------------------------------------
  // Unique names

  // The name itself when it is free, otherwise its first free suffixed form.
  ghost predicate FirstFree(name: string, used: set<string>, unique: string) {
    && unique !in used
    && if name !in used then unique == name
       else exists k: nat :: k >= 2 && unique == Suffixed(name, k) && forall j: nat :: 2 <= j < k ==> Suffixed(name, j) in used
  }

  lemma FirstFreeIsOne(name: string, used: set<string>, u: string, v: string)
    requires FirstFree(name, used, u) && FirstFree(name, used, v)
    ensures u == v
  {
    if name in used {
      var j: nat :| j >= 2 && u == Suffixed(name, j) && forall i: nat :: 2 <= i < j ==> Suffixed(name, i) in used;
      var k: nat :| k >= 2 && v == Suffixed(name, k) && forall i: nat :: 2 <= i < k ==> Suffixed(name, i) in used;
      assert j == k;
    }
  }

  // The suffixed forms found taken so far.
  ghost predicate Tried(name: string, used: set<string>, tried: seq<string>) {
    UsedBy(tried) <= used && forall k :: 0 <= k < |tried| ==> tried[k] == Suffixed(name, k + 2)
  }

  lemma TriedOneMore(name: string, used: set<string>, tried: seq<string>)
    requires Tried(name, used, tried) && Suffixed(name, |tried| + 2) in used
    ensures Suffixed(name, |tried| + 2) !in UsedBy(tried) && Tried(name, used, tried + [Suffixed(name, |tried| + 2)])
  {
    hide Suffixed;
    var next := Suffixed(name, |tried| + 2);
    var more := tried + [next];
    forall k | 0 <= k < |tried| ensures tried[k] != next && more[k] == Suffixed(name, k + 2) {
      SuffixesDiffer(name, k + 2, |tried| + 2);
    }
    assert UsedBy(more) == UsedBy(tried) + {next};
    assert more[|tried|] == next;
  }

  lemma TriedAll(name: string, used: set<string>, tried: seq<string>)
    requires Tried(name, used, tried) && name in used && Suffixed(name, |tried| + 2) !in used
    ensures FirstFree(name, used, Suffixed(name, |tried| + 2))
  {
    forall j: nat | 2 <= j < |tried| + 2 ensures Suffixed(name, j) in used {
      assert tried[j - 2] == Suffixed(name, j - 2 + 2) && tried[j - 2] in UsedBy(tried);
    }
  }

  // The search ends: every candidate found taken is another element of the finite set of used names.
  method UniqueConstName(name: string, used: set<string>) returns (unique: string, now: set<string>)
    ensures FirstFree(name, used, unique) && now == used + {unique}
  {
    if name !in used {
      return name, used + {name};
    }
    hide Suffixed, FirstFree, Tried;
    var suffix := 2;
    var candidate := Suffixed(name, suffix);
    ghost var tried: seq<string> := [];
    assert Tried(name, used, []) by { NothingTried(name, used); }
    ghost var untried := used;
    while candidate in used
      invariant suffix == |tried| + 2 && candidate == Suffixed(name, suffix) && Tried(name, used, tried)
      invariant untried == used - UsedBy(tried)
      decreases untried
    {
      TriedOneMore(name, used, tried);
      assert UsedBy(tried + [candidate]) == UsedBy(tried) + {candidate};
      tried, untried := tried + [candidate], untried - {candidate};
      suffix := suffix + 1;
      candidate := Suffixed(name, suffix);
    }
    TriedAll(name, used, tried);
    return candidate, used + {candidate};
  }

  lemma NothingTried(name: string, used: set<string>)
    ensures Tried(name, used, [])
  {}

  // Names handed out one after the other.
  ghost predicate Assigned(bases: seq<string>, used: set<string>, names: seq<string>)
    decreases |bases|
  {
    && |names| == |bases|
    && (bases != [] ==> FirstFree(bases[0], used, names[0]) && Assigned(bases[1..], used + {names[0]}, names[1..]))
  }

  lemma {:induction false} AssignedOnce(bases: seq<string>, used: set<string>, a: seq<string>, b: seq<string>)
    requires Assigned(bases, used, a) && Assigned(bases, used, b)
    ensures a == b
    decreases |bases|
  {
    if bases != [] {
      FirstFreeIsOne(bases[0], used, a[0], b[0]);
      AssignedOnce(bases[1..], used + {a[0]}, a[1..], b[1..]);
      assert a == [a[0]] + a[1..] && b == [b[0]] + b[1..];
    }
  }

  lemma {:induction false} AssignedApart(bases: seq<string>, used: set<string>, names: seq<string>)
    requires Assigned(bases, used, names)
    ensures Distinct(names) && forall i :: 0 <= i < |names| ==> names[i] !in used
    decreases |bases|
  {
    if bases != [] {
      AssignedApart(bases[1..], used + {names[0]}, names[1..]);
      assert names == [names[0]] + names[1..];
    }
  }

  function UsedBy(names: seq<string>): set<string> { set n | n in names }

  lemma {:induction false} AssignedMore(bases: seq<string>, used: set<string>, names: seq<string>, base: string, name: string)
    requires Assigned(bases, used, names) && FirstFree(base, used + UsedBy(names), name)
    ensures Assigned(bases + [base], used, names + [name])
    decreases |bases|
  {
    if bases == [] {
      assert used + UsedBy(names) == used && (names + [name])[1..] == [] && (bases + [base])[1..] == [];
    } else {
      assert names == [names[0]] + names[1..];
      assert used + {names[0]} + UsedBy(names[1..]) == used + UsedBy(names);
      AssignedMore(bases[1..], used + {names[0]}, names[1..], base, name);
      assert (bases + [base])[1..] == bases[1..] + [base] && (names + [name])[1..] == names[1..] + [name];
    }
  }

  method UniqueNames(bases: seq<string>, reserved: set<string>) returns (names: seq<string>)
    ensures Assigned(bases, reserved, names)
  {
    names := [];
    var used := reserved;
    for i := 0 to |bases|
      invariant Assigned(bases[..i], reserved, names) && used == reserved + UsedBy(names)
    {
      var name, now := UniqueConstName(bases[i], used);
      AssignedMore(bases[..i], reserved, names, bases[i], name);
      assert bases[..i + 1] == bases[..i] + [bases[i]];
      names, used := names + [name], now;
    }
    assert bases[..|bases|] == bases;
  }

  // ---------------------------------------------------------------------------------------------
  // Sorting

  // Strings in the order sort.Strings uses.
  predicate Before(a: string, b: string) {
    if b == "" then false
    else if a == "" then true
    else if a[0] != b[0] then a[0] < b[0]
    else Before(a[1..], b[1..])
  }

  lemma {:induction false} BeforeTotal(a: string, b: string)
    ensures a == b || Before(a, b) || Before(b, a)
    ensures !(Before(a, b) && Before(b, a)) && !Before(a, a)
  {
    if a != "" && b != "" && a[0] == b[0] {
      BeforeTotal(a[1..], b[1..]);
      assert a == [a[0]] + a[1..] && b == [b[0]] + b[1..];
    }
    if a != "" {
      BeforeSelf(a);
    }
  }

  lemma {:induction false} BeforeSelf(a: string)
    ensures !Before(a, a)
  {
    if a != "" {
      BeforeSelf(a[1..]);
    }
  }

  lemma {:induction false} BeforeChain(a: string, b: string, c: string)
    requires Before(a, b) && Before(b, c)
    ensures Before(a, c)
  {
    if a != "" && b != "" && c != "" && a[0] == b[0] == c[0] {
      BeforeChain(a[1..], b[1..], c[1..]);
    }
  }

  predicate Ascending(names: seq<string>) { forall i, j :: 0 <= i < j < |names| ==> Before(names[i], names[j]) }

  // A set has one ascending listing.
  lemma {:induction false} AscendingIsOne(a: seq<string>, b: seq<string>)
    requires Ascending(a) && Ascending(b) && UsedBy(a) == UsedBy(b)
    ensures a == b
  {
    SomeUsed(a);
    SomeUsed(b);
    if a != [] {
      assert a[0] == b[0] by { LeastIsOne(a, b); }
      AscendingTail(a);
      AscendingTail(b);
      AscendingIsOne(a[1..], b[1..]);
      assert a == [a[0]] + a[1..] && b == [b[0]] + b[1..];
    }
  }

  lemma SomeUsed(names: seq<string>)
    ensures names != [] ==> names[0] in UsedBy(names)
    ensures names == [] <==> UsedBy(names) == {}
  {
    if names != [] {
      assert names[0] in names;
    }
  }

  lemma LeastIsOne(a: seq<string>, b: seq<string>)
    requires Ascending(a) && Ascending(b) && a != [] && b != [] && a[0] in b && b[0] in a
    ensures a[0] == b[0]
  {
    var i :| 0 <= i < |b| && b[i] == a[0];
    var j :| 0 <= j < |a| && a[j] == b[0];
    BeforeTotal(a[0], b[0]);
  }

  lemma AscendingTail(a: seq<string>)
    requires Ascending(a) && a != []
    ensures Ascending(a[1..]) && UsedBy(a[1..]) == UsedBy(a) - {a[0]}
  {
    BeforeSelf(a[0]);
    assert forall n :: n in a <==> n == a[0] || n in a[1..];
  }

  // The names in ascending order, whatever order the map gave them in.
  method SortedNames(listed: seq<string>) returns (sorted: seq<string>)
    requires Distinct(listed)
    ensures Ascending(sorted) && UsedBy(sorted) == UsedBy(listed)
  {
    sorted := [];
    for i := 0 to |listed|
      invariant Ascending(sorted) && UsedBy(sorted) == UsedBy(listed[..i])
    {
      var at := 0;
      while at < |sorted| && Before(sorted[at], listed[i])
        invariant 0 <= at <= |sorted|
        invariant forall k :: 0 <= k < at ==> Before(sorted[k], listed[i])
      {
        at := at + 1;
      }
      Inserted(sorted, at, listed[i]);
      assert listed[..i + 1] == listed[..i] + [listed[i]];
      assert listed[i] !in listed[..i];
      sorted := sorted[..at] + [listed[i]] + sorted[at..];
    }
    assert listed[..|listed|] == listed;
  }

  lemma Inserted(sorted: seq<string>, at: nat, name: string)
    requires Ascending(sorted) && at <= |sorted|
    requires forall k :: 0 <= k < at ==> Before(sorted[k], name)
    requires at < |sorted| ==> !Before(sorted[at], name)
    ensures UsedBy(sorted[..at] + [name] + sorted[at..]) == UsedBy(sorted) + {name}
    ensures name !in UsedBy(sorted) ==> Ascending(sorted[..at] + [name] + sorted[at..])
  {
    assert sorted == sorted[..at] + sorted[at..];
    if name !in UsedBy(sorted) {
      forall k | at <= k < |sorted| ensures Before(name, sorted[k]) {
        BeforeTotal(name, sorted[at]);
        assert sorted[at] in sorted;
        if k > at {
          BeforeChain(name, sorted[at], sorted[k]);
        }
      }
    }
  }

  // ---------------------------------------------------------------------------------------------
  // The names of definitions and of fields

  function Base(a: Alphabet, raw: string, fallback: string): string {
    if PascalFrom(a, raw, true) == "" then fallback else PascalFrom(a, raw, true)
  }

  function Bases(a: Alphabet, raws: seq<string>): seq<string> { seq(|raws|, i requires 0 <= i < |raws| => Base(a, raws[i], "Definition")) }

  predicate Injective(names: map<string, string>) {
    forall k, l :: k in names && l in names && names[k] == names[l] ==> k == l
  }

  // The names of the keys are handed out along them, each from its base.
  ghost predicate HandedOut(bases: seq<string>, keys: seq<string>, names: map<string, string>) {
    exists given :: Assigned(bases, {}, given) && Zipped(keys, given, names)
  }

  lemma HandedOutOnce(bases: seq<string>, keys: seq<string>, n: map<string, string>, m: map<string, string>)
    requires HandedOut(bases, keys, n) && HandedOut(bases, keys, m)
    ensures n == m
  {
    var g :| Assigned(bases, {}, g) && Zipped(keys, g, n);
    var h :| Assigned(bases, {}, h) && Zipped(keys, h, m);
    AssignedOnce(bases, {}, g, h);
    forall k | k in n ensures n[k] == m[k] {
      var i :| 0 <= i < |keys| && keys[i] == k;
    }
  }

  lemma HandedOutApart(bases: seq<string>, keys: seq<string>, names: map<string, string>)
    requires HandedOut(bases, keys, names)
    ensures names.Keys == UsedBy(keys) && Injective(names)
  {
    var given :| Assigned(bases, {}, given) && Zipped(keys, given, names);
    AssignedApart(bases, {}, given);
    ZippedInjective(keys, given, names);
  }

  // The result is the names handed out along the ascending listing of the keys, and nothing else.
  ghost predicate NamedFrom(a: Alphabet, raws: set<string>, names: map<string, string>) {
    exists sorted :: Ascending(sorted) && UsedBy(sorted) == raws && HandedOut(Bases(a, sorted), sorted, names)
  }

  ghost predicate Zipped(keys: seq<string>, values: seq<string>, names: map<string, string>) {
    && |keys| == |values| && names.Keys == UsedBy(keys)
    && forall i :: 0 <= i < |keys| && keys[i] in names ==> names[keys[i]] == values[i]
  }

  lemma ZippedOneMore(keys: seq<string>, values: seq<string>, names: map<string, string>, key: string, value: string)
    requires Zipped(keys, values, names) && key !in keys
    ensures Zipped(keys + [key], values + [value], names[key := value])
  {
    assert UsedBy(keys + [key]) == UsedBy(keys) + {key};
  }

  lemma ZippedInjective(keys: seq<string>, values: seq<string>, names: map<string, string>)
    requires Zipped(keys, values, names) && Distinct(values)
    ensures Injective(names)
  {
    forall k, l | k in names && l in names && names[k] == names[l] ensures k == l {
      var i :| 0 <= i < |keys| && keys[i] == k;
      var j :| 0 <= j < |keys| && keys[j] == l;
    }
  }

  method DefinitionBases(a: Alphabet, raws: seq<string>) returns (bases: seq<string>)
    ensures bases == Bases(a, raws)
  {
    bases := [];
    for i := 0 to |raws|
      invariant bases == Bases(a, raws[..i])
    {
      var name := PascalIdentifier(a, raws[i]);
      if name == "" {
        name := "Definition";
      }
      bases := bases + [name];
    }
    assert raws[..|raws|] == raws;
  }

  method DefinitionNames(a: Alphabet, listed: seq<string>) returns (names: map<string, string>)
    requires Distinct(listed)
    ensures names.Keys == UsedBy(listed) && Injective(names) && NamedFrom(a, UsedBy(listed), names)
  {
    hide Base, Assigned, Injective, Distinct, Before;
    var sorted := SortedNames(listed);
    var bases := DefinitionBases(a, sorted);
    var given := UniqueNames(bases, {});
    assert |given| == |sorted| by { AssignedLength(bases, {}, given); }
    names := map[];
    for i := 0 to |sorted|
      invariant Zipped(sorted[..i], given[..i], names)
    {
      hide Zipped;
      assert sorted[i] !in sorted[..i] by { BeforeSelf(sorted[i]); }
      ZippedOneMore(sorted[..i], given[..i], names, sorted[i], given[i]);
      assert sorted[..i + 1] == sorted[..i] + [sorted[i]] && given[..i + 1] == given[..i] + [given[i]];
      names := names[sorted[i] := given[i]];
    }
    assert sorted[..|sorted|] == sorted && given[..|given|] == given;
    HandedOutApart(bases, sorted, names);
  }

  // The names depend on the set of definitions only.
  lemma SameDefinitionsSameNames(a: Alphabet, raws: set<string>, n: map<string, string>, m: map<string, string>)
    requires NamedFrom(a, raws, n) && NamedFrom(a, raws, m)
    ensures n == m
  {
    var s :| Ascending(s) && UsedBy(s) == raws && HandedOut(Bases(a, s), s, n);
    var t :| Ascending(t) && UsedBy(t) == raws && HandedOut(Bases(a, t), t, m);
    AscendingIsOne(s, t);
    HandedOutOnce(Bases(a, s), s, n, m);
  }

  method NamesIgnoreMapOrder(a: Alphabet, listed: seq<string>, relisted: seq<string>) returns (n: map<string, string>, m: map<string, string>)
    requires Distinct(listed) && Distinct(relisted) && UsedBy(listed) == UsedBy(relisted)
    ensures n == m
  {
    n := DefinitionNames(a, listed);
    m := DefinitionNames(a, relisted);
    SameDefinitionsSameNames(a, UsedBy(listed), n, m);
  }

  function FieldName(a: Alphabet, jsonName: string): string {
    if jsonName == "_meta" then "Meta"
    else if jsonName == "id" then "ID"
    else if jsonName == "uri" then "URI"
    else
      var name := PascalFrom(a, jsonName, true);
      if |name| >= 2 && name[|name| - 2..] == "Id" then name[..|name| - 2] + "ID" else name
  }

  // Three fields have names of their own, and "Id" at the end of any other is written "ID".
  lemma FieldNames(a: Alphabet, jsonName: string, stem: string)
    ensures FieldName(a, "_meta") == "Meta" && FieldName(a, "id") == "ID" && FieldName(a, "uri") == "URI"
    ensures jsonName !in ["_meta", "id", "uri"] && PascalFrom(a, jsonName, true) == stem + "Id" ==> FieldName(a, jsonName) == stem + "ID"
    ensures FieldName(a, jsonName) == "" ==> FieldBase(a, jsonName) == "Field"
    ensures jsonName !in ["_meta", "id", "uri"] && (forall s: string :: PascalFrom(a, jsonName, true) != s + "Id")
      ==> FieldName(a, jsonName) == PascalFrom(a, jsonName, true)
  {
    assert "_meta" != "id" && "_meta" != "uri" && |"id"| != |"uri"|;
    var name := PascalFrom(a, jsonName, true);
    assert (stem + "Id")[|stem|..] == "Id" && (stem + "Id")[..|stem|] == stem;
    if |name| >= 2 && name[|name| - 2..] == "Id" {
      assert name == name[..|name| - 2] + "Id";
    }
  }

  function FieldBase(a: Alphabet, jsonName: string): string {
    if FieldName(a, jsonName) == "" then "Field" else FieldName(a, jsonName)
  }

  function FieldBases(a: Alphabet, jsonNames: seq<string>): seq<string> {
    seq(|jsonNames|, i requires 0 <= i < |jsonNames| => FieldBase(a, jsonNames[i]))
  }

  // names gives every key the value at its last mention.
  ghost predicate LastGiven(keys: seq<string>, values: seq<string>, names: map<string, string>) {
    && |keys| == |values| && names.Keys == UsedBy(keys)
    && forall k :: k in names ==> exists at :: LastMention(keys, at, k) && names[k] == values[at]
  }

  predicate LastMention(keys: seq<string>, at: int, key: string) {
    0 <= at < |keys| && keys[at] == key && forall later :: at < later < |keys| ==> keys[later] != key
  }

  lemma GivenOneMore(keys: seq<string>, values: seq<string>, names: map<string, string>, key: string, value: string)
    requires LastGiven(keys, values, names)
    ensures LastGiven(keys + [key], values + [value], names[key := value])
  {
    assert UsedBy(keys + [key]) == UsedBy(keys) + {key};
    var more := names[key := value];
    forall k | k in more ensures exists at :: LastMention(keys + [key], at, k) && more[k] == (values + [value])[at] {
      if k == key {
        assert LastMention(keys + [key], |keys|, k);
      } else {
        var at :| LastMention(keys, at, k) && names[k] == values[at];
        assert LastMention(keys + [key], at, k);
      }
    }
  }

  lemma GivenApart(keys: seq<string>, values: seq<string>, names: map<string, string>, used: set<string>)
    requires LastGiven(keys, values, names) && Distinct(values) && forall i :: 0 <= i < |values| ==> values[i] !in used
    ensures Injective(names) && forall k :: k in names ==> names[k] !in used
  {}

  method Reserve(reserved: seq<string>) returns (used: set<string>)
    ensures used == UsedBy(reserved) - {""}
  {
    used := {};
    for i := 0 to |reserved|
      invariant used == UsedBy(reserved[..i]) - {""}
    {
      assert reserved[..i + 1] == reserved[..i] + [reserved[i]];
      if reserved[i] != "" {
        used := used + {reserved[i]};
      }
    }
    assert reserved[..|reserved|] == reserved;
  }

  // Different JSON fields get different Go fields, none of them reserved; a field listed twice keeps
  // the name of its last mention.
  method UniqueFieldNamesWithReserved(a: Alphabet, jsonNames: seq<string>, reserved: seq<string>)
      returns (names: map<string, string>, given: seq<string>)
    ensures Assigned(FieldBases(a, jsonNames), UsedBy(reserved) - {""}, given) && LastGiven(jsonNames, given, names)
    ensures Injective(names) && forall k :: k in names ==> names[k] !in UsedBy(reserved) - {""}
  {
    hide LastGiven, Assigned, FieldBase, Injective, Distinct;
    var used := Reserve(reserved);
    given := UniqueNames(FieldBases(a, jsonNames), used);
    AssignedApart(FieldBases(a, jsonNames), used, given);
    names := map[];
    assert LastGiven([], [], map[]) by { NothingGiven(); }
    assert |given| == |jsonNames| by { AssignedLength(FieldBases(a, jsonNames), used, given); }
    for i := 0 to |jsonNames|
      invariant LastGiven(jsonNames[..i], given[..i], names)
    {
      GivenOneMore(jsonNames[..i], given[..i], names, jsonNames[i], given[i]);
      assert jsonNames[..i + 1] == jsonNames[..i] + [jsonNames[i]] && given[..i + 1] == given[..i] + [given[i]];
      names := names[jsonNames[i] := given[i]];
    }
    assert jsonNames[..|jsonNames|] == jsonNames && given[..|given|] == given;
    GivenApart(jsonNames, given, names, used);
  }

  lemma NothingGiven()
    ensures LastGiven([], [], map[])
  {}

  lemma AssignedLength(bases: seq<string>, used: set<string>, names: seq<string>)
    requires Assigned(bases, used, names)
    ensures |names| == |bases|
  {}
}
