/**
 * What reflection tells the command engine about a command class, written out
 * as data: every public method with its parameter types and its CommandInput,
 * DynamicInput and PositionalInput annotations (at most one of each, as Java
 * allows), and the class-level facts (abstract, ConsoleCommand name, whether it
 * is a LoaderCommand).
 *
 * The LinkedHashMap and HashMap objects filled by loadReadableFields are
 * association lists: `Put` keeps the position of an existing key and appends a
 * new one, so list order is first-insertion order, LinkedHashMap's iteration
 * order. HashMap iteration is given that same order here.
 */
module Declarations {
  import opened Wrappers
  import opened JavaLang
  import opened JavaTypes
  import StringUtils

  /** CommandInput: a named flag such as "-n", with its default text and arity (the older binder's parameters().getNum()). */
  datatype NamedAnn = NamedAnn(consoleFormat: string, mandatory: bool, defaultValue: string, description: string, arity: int)

  /** DynamicInput: a flag whose value names an object in the console's store. */
  datatype DynamicAnn = DynamicAnn(consoleFormat: string, description: string)

  /** PositionalInput: the parameter bound from the token at `position` (counted from 1). */
  datatype PositionalAnn = PositionalAnn(position: int, name: string, description: string)

  datatype Setter = Setter(
    name: string,
    paramTypes: seq<JType>,
    named: Option<NamedAnn>,
    dynamic: Option<DynamicAnn>,
    positional: Option<PositionalAnn>)

  datatype CommandType = CommandType(
    simpleName: string,
    consoleName: Option<string>,   // the ConsoleCommand annotation's name, if present
    isAbstract: bool,
    isLoader: bool,                // implements LoaderCommand
    description: string,           // what commandDescription() returns
    setters: seq<Setter>)          // getMethods(), in order

  predicate IsAnnotated(s: Setter) { s.named.Some? || s.dynamic.Some? || s.positional.Some? }

  // ------------------------------------------------------- association lists

  type Assoc<V> = seq<(string, V)>

  function Keys<V>(m: Assoc<V>): (r: seq<string>)
    ensures |r| == |m|
  {
    if |m| == 0 then [] else [m[0].0] + Keys(m[1..])
  }

  lemma KeysIndex<V>(m: Assoc<V>, i: nat)
    requires i < |m|
    ensures Keys(m)[i] == m[i].0
  {
    if i > 0 { KeysIndex(m[1..], i - 1); }
  }

  predicate HasKey<V>(m: Assoc<V>, k: string) { k in Keys(m) }

  predicate DistinctKeys<V>(m: Assoc<V>) {
    var ks := Keys(m);
    forall i, j :: 0 <= i < j < |ks| ==> ks[i] != ks[j]
  }

  /** Map.get on a present key: the value of its (first) entry. */
  function Get<V>(m: Assoc<V>, k: string): (v: V)
    requires HasKey(m, k)
    ensures (k, v) in m
  {
    if m[0].0 == k then m[0].1 else Get(m[1..], k)
  }

  /** Map.put: a present key keeps its place and takes the new value; a new key goes last. */
  function Put<V>(m: Assoc<V>, k: string, v: V): (r: Assoc<V>)
    ensures Keys(r) == if HasKey(m, k) then Keys(m) else Keys(m) + [k]
    ensures HasKey(r, k) && Get(r, k) == v
    ensures forall j :: j != k && HasKey(m, j) ==> Get(r, j) == Get(m, j)
    ensures forall e :: e in r ==> e in m || e == (k, v)
  {
    if |m| == 0 then [(k, v)]
    else if m[0].0 == k then
      assert ([(k, v)] + m[1..])[1..] == m[1..];
      [(k, v)] + m[1..]
    else
      var r := [m[0]] + Put(m[1..], k, v);
      assert r[1..] == Put(m[1..], k, v);
      r
  }

  /** Map.remove. */
  function Remove<V>(m: Assoc<V>, k: string): (r: Assoc<V>)
    ensures forall j :: j != k ==> (HasKey(r, j) <==> HasKey(m, j))
    ensures forall j :: j != k && HasKey(m, j) ==> Get(r, j) == Get(m, j)
    ensures forall e :: e in r ==> e in m
    ensures DistinctKeys(m) ==> !HasKey(r, k) && DistinctKeys(r)
  {
    if |m| == 0 then []
    else
      TailKeys(m);
      if m[0].0 == k then m[1..]
      else
        var rest := Remove(m[1..], k);
        ConsKeys(m[0], rest);
        var r := [m[0]] + rest;
        assert r[1..] == rest;
        assert HasKey(rest, m[0].0) <==> HasKey(m[1..], m[0].0);
        assert forall j :: HasKey(r, j) <==> j == m[0].0 || HasKey(rest, j);
        assert forall j :: HasKey(m, j) <==> j == m[0].0 || HasKey(m[1..], j);
        r
  }

  /** The rest of a list without repetitions has none, and does not hold the first element. */
  lemma DistinctRest(ks: seq<string>)
    requires |ks| > 0
    requires forall i, j :: 0 <= i < j < |ks| ==> ks[i] != ks[j]
    ensures forall i, j :: 0 <= i < j < |ks[1..]| ==> ks[1..][i] != ks[1..][j]
    ensures ks[0] !in ks[1..]
  {
    var rest := ks[1..];
    forall i, j | 0 <= i < j < |rest| ensures rest[i] != rest[j] {
      assert rest[i] == ks[i + 1] && rest[j] == ks[j + 1];
    }
    forall j | 0 <= j < |rest| ensures rest[j] != ks[0] {
      assert rest[j] == ks[j + 1];
    }
  }

  lemma TailKeys<V>(m: Assoc<V>)
    requires |m| > 0
    ensures Keys(m) == [m[0].0] + Keys(m[1..])
    ensures DistinctKeys(m) ==> DistinctKeys(m[1..]) && !HasKey(m[1..], m[0].0)
  {
    var ks := Keys(m);
    var ts := Keys(m[1..]);
    assert ks == [m[0].0] + ts;
    if DistinctKeys(m) {
      DistinctRest(ks);
      assert ks[1..] == ts;
    }
  }

  lemma ConsKeys<V>(e: (string, V), m: Assoc<V>)
    ensures Keys([e] + m) == [e.0] + Keys(m)
    ensures DistinctKeys(m) && !HasKey(m, e.0) ==> DistinctKeys([e] + m)
  {
    assert ([e] + m)[1..] == m;
  }

  lemma PutDistinct<V>(m: Assoc<V>, k: string, v: V)
    requires DistinctKeys(m)
    ensures DistinctKeys(Put(m, k, v))
  {
    var ks := Keys(m);
    var rs := Keys(Put(m, k, v));
    if !HasKey(m, k) {
      forall i, j | 0 <= i < j < |rs| ensures rs[i] != rs[j] {
        if j == |ks| {
          assert rs[i] == ks[i] && rs[j] == k;
        } else {
          assert rs[i] == ks[i] && rs[j] == ks[j];
        }
      }
    }
  }

  // ------------------------------------------------------ loadReadableFields

  /** A pending named parameter: its setter and its annotation. */
  datatype NamedEntry = NamedEntry(setter: Setter, ann: NamedAnn)

  /** The six maps loadReadableFields fills. */
  datatype Tables = Tables(
    descriptions: Assoc<string>,             // flag -> help text
    dynamicDescriptions: Assoc<string>,
    positionalDescriptions: Assoc<string>,   // positional name -> help text
    named: Assoc<NamedEntry>,                // flag -> setter
    dynamic: map<string, Setter>,
    positional: map<int, Setter>)            // position -> setter

  /**
   * The help text of a named flag: "[optional] " before an optional flag's
   * description and " (default d)" after it when the default d is not empty.
   */
  function NamedDescription(a: NamedAnn): (r: string)
    ensures !a.mandatory ==> StartsWith(r, "[optional] ")
    ensures a.defaultValue != "" ==> EndsWith(r, " (default " + a.defaultValue + ")")
    ensures a.mandatory && a.defaultValue == "" ==> r == a.description
  {
    (if !a.mandatory then "[optional] " else "") + a.description +
    (if a.defaultValue != "" then " (default " + a.defaultValue + ")" else "")
  }

  /** The entries one method adds: its annotations, in the source's order (named, dynamic, positional). */
  function Record(t: Tables, s: Setter): Tables {
    var t1 :=
      if s.named.Some? then
        var a := s.named.value;
        t.(descriptions := Put(t.descriptions, a.consoleFormat, NamedDescription(a)),
           named := Put(t.named, a.consoleFormat, NamedEntry(s, a)))
      else t;
    var t2 :=
      if s.dynamic.Some? then
        var d := s.dynamic.value;
        t1.(dynamicDescriptions := Put(t1.dynamicDescriptions, d.consoleFormat, d.description),
            dynamic := t1.dynamic[d.consoleFormat := s])
      else t1;
    if s.positional.Some? then
      var p := s.positional.value;
      t2.(positionalDescriptions := Put(t2.positionalDescriptions, p.name, p.description),
          positional := t2.positional[p.position := s])
    else t2
  }

  /** Record, field by field. */
  lemma RecordFields(t: Tables, s: Setter)
    ensures var r := Record(t, s);
      r.descriptions == (if s.named.Some? then Put(t.descriptions, s.named.value.consoleFormat, NamedDescription(s.named.value)) else t.descriptions) &&
      r.named == (if s.named.Some? then Put(t.named, s.named.value.consoleFormat, NamedEntry(s, s.named.value)) else t.named) &&
      r.dynamicDescriptions == (if s.dynamic.Some? then Put(t.dynamicDescriptions, s.dynamic.value.consoleFormat, s.dynamic.value.description) else t.dynamicDescriptions) &&
      r.dynamic == (if s.dynamic.Some? then t.dynamic[s.dynamic.value.consoleFormat := s] else t.dynamic) &&
      r.positionalDescriptions == (if s.positional.Some? then Put(t.positionalDescriptions, s.positional.value.name, s.positional.value.description) else t.positionalDescriptions) &&
      r.positional == (if s.positional.Some? then t.positional[s.positional.value.position := s] else t.positional)
  {
  }

  /** Loading one more method records it on top of the tables of the ones before. */
  lemma LoadSnoc(setters: seq<Setter>, i: nat)
    requires i < |setters|
    ensures Load(setters[..i + 1]) == Record(Load(setters[..i]), setters[i])
  {
    assert setters[..i + 1][..i] == setters[..i];
  }

  const EmptyTables: Tables := Tables([], [], [], [], map[], map[])

  /** The tables after loadReadableFields has gone over the given methods in order. */
  function Load(setters: seq<Setter>): Tables {
    if |setters| == 0 then EmptyTables
    else Record(Load(setters[..|setters| - 1]), setters[|setters| - 1])
  }

  /** The tables of two methods: the first recorded, then the second on top. */
  lemma LoadTwo(a: Setter, b: Setter)
    ensures Load([a, b]) == Record(Record(EmptyTables, a), b)
  {
    var s := [a, b];
    assert s[..1] == [a] && s[1] == b;
    assert Load(s) == Record(Load([a]), b);
    assert [a][..0] == [];
    assert Load([a]) == Record(EmptyTables, a);
  }

  /** A second key goes after the first. */
  lemma PutSecond<V>(k1: string, v1: V, k2: string, v2: V)
    requires k1 != k2
    ensures Put([(k1, v1)], k2, v2) == [(k1, v1), (k2, v2)]
  {
    assert [(k1, v1)][1..] == [];
    assert [(k1, v1)] + [(k2, v2)] == [(k1, v1), (k2, v2)];
  }

  /** Two methods that each declare only a named flag, under different flags: the flags in order, and no positional. */
  lemma LoadTwoNamed(a: Setter, b: Setter)
    requires a.named.Some? && a.dynamic.None? && a.positional.None?
    requires b.named.Some? && b.dynamic.None? && b.positional.None?
    requires a.named.value.consoleFormat != b.named.value.consoleFormat
    ensures Load([a, b]).named ==
      [(a.named.value.consoleFormat, NamedEntry(a, a.named.value)), (b.named.value.consoleFormat, NamedEntry(b, b.named.value))]
    ensures Load([a, b]).positionalDescriptions == []
  {
    LoadTwo(a, b);
    var t0 := Record(EmptyTables, a);
    RecordFields(EmptyTables, a);
    RecordFields(t0, b);
    PutSecond(a.named.value.consoleFormat, NamedEntry(a, a.named.value), b.named.value.consoleFormat, NamedEntry(b, b.named.value));
  }

  /** Two methods that each declare only a positional parameter, under different names. */
  lemma LoadTwoPositional(a: Setter, b: Setter)
    requires a.named.None? && a.dynamic.None? && a.positional.Some?
    requires b.named.None? && b.dynamic.None? && b.positional.Some?
    requires a.positional.value.name != b.positional.value.name
    ensures Load([a, b]).positional == map[a.positional.value.position := a][b.positional.value.position := b]
    ensures Load([a, b]).positionalDescriptions ==
      [(a.positional.value.name, a.positional.value.description), (b.positional.value.name, b.positional.value.description)]
  {
    LoadTwo(a, b);
    var t0 := Record(EmptyTables, a);
    RecordFields(EmptyTables, a);
    RecordFields(t0, b);
    PutSecond(a.positional.value.name, a.positional.value.description, b.positional.value.name, b.positional.value.description);
  }

  predicate DeclaresNamed(s: Setter, f: string) { s.named.Some? && s.named.value.consoleFormat == f }

  predicate DeclaresDynamic(s: Setter, f: string) { s.dynamic.Some? && s.dynamic.value.consoleFormat == f }

  predicate DeclaresPosition(s: Setter, p: int) { s.positional.Some? && s.positional.value.position == p }

  predicate DeclaresPositionalName(s: Setter, n: string) { s.positional.Some? && s.positional.value.name == n }

  /** The named-parameter map never holds a flag twice. */
  lemma {:induction false} LoadNamedDistinct(setters: seq<Setter>)
    ensures DistinctKeys(Load(setters).named)
  {
    if |setters| > 0 {
      var init := setters[..|setters| - 1];
      RecordFields(Load(init), setters[|setters| - 1]);
      LoadNamedDistinct(init);
      var s := setters[|setters| - 1];
      if s.named.Some? {
        PutDistinct(Load(init).named, s.named.value.consoleFormat, NamedEntry(s, s.named.value));
      }
    }
  }

  /** Every pending named entry carries the annotation it is keyed by. */
  lemma {:induction false} LoadNamedEntries(setters: seq<Setter>)
    ensures forall e :: e in Load(setters).named ==>
      e.0 == e.1.ann.consoleFormat && e.1.setter.named == Some(e.1.ann) && e.1.setter in setters
  {
    if |setters| > 0 {
      var init := setters[..|setters| - 1];
      RecordFields(Load(init), setters[|setters| - 1]);
      LoadNamedEntries(init);
    }
  }

  /** A flag is a named parameter exactly when some method declares it. */
  lemma {:induction false} LoadNamedKeys(setters: seq<Setter>, f: string)
    ensures HasKey(Load(setters).named, f) <==> exists i :: 0 <= i < |setters| && DeclaresNamed(setters[i], f)
  {
    if |setters| > 0 {
      var init := setters[..|setters| - 1];
      RecordFields(Load(init), setters[|setters| - 1]);
      LoadNamedKeys(init, f);
      assert forall i :: 0 <= i < |init| ==> init[i] == setters[i];
    }
  }

  /** A position has a setter exactly when some method declares that position. */
  lemma {:induction false} LoadPositionKeys(setters: seq<Setter>, p: int)
    ensures p in Load(setters).positional <==> exists i :: 0 <= i < |setters| && DeclaresPosition(setters[i], p)
  {
    if |setters| > 0 {
      var init := setters[..|setters| - 1];
      RecordFields(Load(init), setters[|setters| - 1]);
      LoadPositionKeys(init, p);
      assert forall i :: 0 <= i < |init| ==> init[i] == setters[i];
    }
  }

  /** The positional names, each counted once, are what the binder's positional loop counts. */
  lemma {:induction false} LoadPositionalNames(setters: seq<Setter>, n: string)
    ensures HasKey(Load(setters).positionalDescriptions, n) <==>
      exists i :: 0 <= i < |setters| && DeclaresPositionalName(setters[i], n)
    ensures DistinctKeys(Load(setters).positionalDescriptions)
  {
    LoadPositionalKeys(setters, n);
    LoadPositionalDistinct(setters);
  }

  lemma {:induction false} LoadPositionalKeys(setters: seq<Setter>, n: string)
    ensures HasKey(Load(setters).positionalDescriptions, n) <==>
      exists i :: 0 <= i < |setters| && DeclaresPositionalName(setters[i], n)
  {
    if |setters| > 0 {
      var init := setters[..|setters| - 1];
      var s := setters[|setters| - 1];
      var before := Load(init).positionalDescriptions;
      RecordFields(Load(init), s);
      LoadPositionalKeys(init, n);
      if HasKey(Load(setters).positionalDescriptions, n) && !DeclaresPositionalName(s, n) {
        assert HasKey(before, n);
        var i :| 0 <= i < |init| && DeclaresPositionalName(init[i], n);
        assert init[i] == setters[i];
      }
      if i :| 0 <= i < |setters| && DeclaresPositionalName(setters[i], n) {
        if i < |init| {
          assert init[i] == setters[i];
          assert HasKey(before, n);
        }
      }
    }
  }

  lemma {:induction false} LoadPositionalDistinct(setters: seq<Setter>)
    ensures DistinctKeys(Load(setters).positionalDescriptions)
  {
    if |setters| > 0 {
      var init := setters[..|setters| - 1];
      var s := setters[|setters| - 1];
      RecordFields(Load(init), s);
      LoadPositionalDistinct(init);
      if s.positional.Some? {
        PutDistinct(Load(init).positionalDescriptions, s.positional.value.name, s.positional.value.description);
      }
    }
  }

  /** When a flag is declared twice the later method wins, as HashMap.put overwrites. */
  lemma {:induction false} LoadLastDeclarationWins(setters: seq<Setter>, i: nat, f: string)
    requires i < |setters| && DeclaresNamed(setters[i], f)
    requires forall j :: i < j < |setters| ==> !DeclaresNamed(setters[j], f)
    ensures HasKey(Load(setters).named, f) && Get(Load(setters).named, f).setter == setters[i]
  {
    var n := |setters|;
    var init := setters[..n - 1];
    assert Load(setters) == Record(Load(init), setters[n - 1]);
    if i < n - 1 {
      LoadLastDeclarationWins(init, i, f);
      RecordKeepsNamed(Load(init), setters[n - 1], f);
    } else {
      RecordNamed(Load(init), setters[n - 1], f);
    }
  }

  /** Recording a method that does not declare flag f leaves f's entry as it was. */
  lemma RecordKeepsNamed(t: Tables, s: Setter, f: string)
    requires HasKey(t.named, f) && !DeclaresNamed(s, f)
    ensures HasKey(Record(t, s).named, f) && Get(Record(t, s).named, f) == Get(t.named, f)
  {
    RecordFields(t, s);
  }

  /** Recording a method that declares flag f makes it f's entry. */
  lemma RecordNamed(t: Tables, s: Setter, f: string)
    requires DeclaresNamed(s, f)
    ensures HasKey(Record(t, s).named, f) && Get(Record(t, s).named, f).setter == s
  {
    RecordFields(t, s);
  }

  // ------------------------------------------------------------------- help

  /** One help line: "name<TAB>description<NEWLINE>". */
  function Line(e: (string, string)): string { e.0 + "\t" + e.1 + "\n" }

  /** The help lines of a map, in its iteration order. */
  function Lines(m: Assoc<string>): string {
    if |m| == 0 then "" else Lines(m[..|m| - 1]) + Line(m[|m| - 1])
  }

  ghost predicate Contains(s: string, sub: string) {
    exists k: nat :: StringUtils.OccursAt(s, sub, k)
  }

  lemma ContainsLeft(a: string, b: string, sub: string)
    requires Contains(a, sub)
    ensures Contains(a + b, sub)
  {
    var k: nat :| StringUtils.OccursAt(a, sub, k);
    assert (a + b)[k..k + |sub|] == a[k..k + |sub|];
    assert StringUtils.OccursAt(a + b, sub, k);
  }

  lemma ContainsRight(a: string, b: string, sub: string)
    requires Contains(b, sub)
    ensures Contains(a + b, sub)
  {
    var k: nat :| StringUtils.OccursAt(b, sub, k);
    assert (a + b)[|a| + k..|a| + k + |sub|] == b[k..k + |sub|];
    assert StringUtils.OccursAt(a + b, sub, |a| + k);
  }

  lemma ContainsInContext(a: string, b: string, c: string, sub: string)
    requires Contains(b, sub)
    ensures Contains(a + b + c, sub)
  {
    var k: nat :| StringUtils.OccursAt(b, sub, k);
    var s := a + b + c;
    assert s[|a| + k..|a| + k + |sub|] == b[k..k + |sub|];
    assert StringUtils.OccursAt(s, sub, |a| + k);
  }

  /** Every entry of a map has its line in the map's help lines. */
  lemma {:induction false} LinesListEveryEntry(m: Assoc<string>, i: nat)
    requires i < |m|
    ensures Contains(Lines(m), Line(m[i]))
  {
    var n := |m|;
    if i == n - 1 {
      assert StringUtils.OccursAt(Line(m[i]), Line(m[i]), 0);
      ContainsInContext(Lines(m[..n - 1]), Line(m[i]), "", Line(m[i]));
      assert Lines(m[..n - 1]) + Line(m[i]) + "" == Lines(m);
    } else {
      LinesListEveryEntry(m[..n - 1], i);
      ContainsInContext("", Lines(m[..n - 1]), Line(m[n - 1]), Line(m[i]));
      assert "" + Lines(m[..n - 1]) + Line(m[n - 1]) == Lines(m);
    }
  }
}
