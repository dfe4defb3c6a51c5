/**
 * Properties of readParams (global/Command.java) stated on its specification
 * Bind: what the positional tokens set, which token lists are refused, how a
 * repeated flag behaves, and that giving a flag its default explicitly changes
 * nothing but the order of the setter calls.
 */
module GlobalBinding {
  import opened Wrappers
  import opened JavaTypes
  import opened Declarations
  import opened GlobalCommand

  // ------------------------------------------------------------ the phases

  /** Call c is what position j + 1 makes of token j. */
  predicate SetsPosition(t: Tables, params: seq<string>, j: nat, c: Call) {
    j + 1 in t.positional && j < |params| && SetFromText(t.positional[j + 1], params[j]) == Ok(c)
  }

  /** A successful positional phase sets position j+1 from token j, for every j < k, and touches nothing else. */
  lemma {:induction false} PositionalsSucceed(t: Tables, params: seq<string>, i: nat, st: BindState)
    requires i <= NumPositionals(t)
    requires PositionalsFrom(t, params, i, st).error.None?
    ensures var r := PositionalsFrom(t, params, i, st).state;
      (i < NumPositionals(t) ==> NumPositionals(t) <= |params|) && r.pending == st.pending &&
      |r.calls| == |st.calls| + NumPositionals(t) - i && IsPrefix(st.calls, r.calls) &&
      SetsPositions(t, params, i, r.calls[|st.calls|..])
    decreases NumPositionals(t) - i
  {
    if i < NumPositionals(t) {
      var c := SetFromText(t.positional[i + 1], params[i]).value;
      var st1 := st.(calls := st.calls + [c]);
      PositionalsSucceed(t, params, i + 1, st1);
      var r1 := PositionalsFrom(t, params, i + 1, st1).state;
      PrefixSnoc(st.calls, c, r1.calls);
      assert SetsPosition(t, params, i, c);
      SetsPositionsCons(t, params, i, c, r1.calls[|st1.calls|..]);
      assert PositionalsFrom(t, params, i, st).state == r1;
    }
  }

  /** If b begins with a + [x], then b begins with a, and what follows a is x and then the rest. */
  lemma PrefixSnoc<T>(a: seq<T>, x: T, b: seq<T>)
    requires |a| + 1 <= |b| && b[..|a| + 1] == a + [x]
    ensures b[..|a|] == a && b[|a|] == x && b[|a|..] == [x] + b[|a| + 1..]
  {
    assert b[..|a|] == b[..|a| + 1][..|a|];
    assert b[|a|] == b[..|a| + 1][|a|];
  }

  /** The calls `added` set positions i+1, i+2, … from tokens i, i+1, … in turn. */
  predicate SetsPositions(t: Tables, params: seq<string>, i: nat, added: seq<Call>) {
    forall j :: 0 <= j < |added| ==> SetsPosition(t, params, i + j, added[j])
  }

  lemma SetsPositionsCons(t: Tables, params: seq<string>, i: nat, c: Call, rest: seq<Call>)
    requires SetsPosition(t, params, i, c) && SetsPositions(t, params, i + 1, rest)
    ensures SetsPositions(t, params, i, [c] + rest)
  {
    forall j | 0 <= j < |[c] + rest| ensures SetsPosition(t, params, i + j, ([c] + rest)[j]) {
      if j > 0 {
        assert ([c] + rest)[j] == rest[j - 1];
        assert SetsPosition(t, params, (i + 1) + (j - 1), rest[j - 1]);
      }
    }
  }

  /** The positional phase reads no token past the k-th, so appending tokens does not change it. */
  lemma {:induction false} PositionalsExtend(t: Tables, params: seq<string>, extra: seq<string>, i: nat, st: BindState)
    requires PositionalsFrom(t, params, i, st).error.None?
    ensures PositionalsFrom(t, params + extra, i, st) == PositionalsFrom(t, params, i, st)
    decreases NumPositionals(t) - i
  {
    if i < NumPositionals(t) {
      assert (params + extra)[i] == params[i];
      var c := SetFromText(t.positional[i + 1], params[i]).value;
      PositionalsExtend(t, params, extra, i + 1, st.(calls := st.calls + [c]));
    }
  }

  /** A pending flag whose setter takes a primitive boolean stands alone: it sets true and is no longer pending. */
  lemma ScanSwitch(t: Tables, params: seq<string>, store: map<string, Value>, i: nat, st: BindState)
    requires i < |params| && HasKey(st.pending, params[i])
    requires Get(st.pending, params[i]).setter.paramTypes == [Primitive(PBoolean)]
    ensures ScanStep(t, params, store, i, st) ==
      Next(i + 1, BindState(Remove(st.pending, params[i]),
                            st.calls + [Call(Get(st.pending, params[i]).setter.name, VBool(true))]))
  {
  }

  /**
   * Any other pending flag takes the token after it, coerced to its parameter
   * type; given as the last token it is an error. Either way it is no longer pending.
   */
  lemma ScanValued(t: Tables, params: seq<string>, store: map<string, Value>, i: nat, st: BindState)
    requires i < |params| && HasKey(st.pending, params[i])
    requires |Get(st.pending, params[i]).setter.paramTypes| > 0 && !IsSwitch(Get(st.pending, params[i]))
    ensures var st1 := st.(pending := Remove(st.pending, params[i]));
      i + 1 == |params| ==> ScanStep(t, params, store, i, st) == Stop(Fail(st1, IndexOutOfRange))
    ensures var e := Get(st.pending, params[i]);
      var st1 := st.(pending := Remove(st.pending, params[i]));
      i + 1 < |params| ==>
        match SetFromText(e.setter, params[i + 1])
        case Ok(c) => ScanStep(t, params, store, i, st) == Next(i + 2, st1.(calls := st.calls + [c]))
        case Err(err) => ScanStep(t, params, store, i, st) == Stop(Fail(st1, err))
  {
  }

  /** A flag declared with a boxed Boolean is no switch: it takes a value, which checkInputClass then refuses. */
  lemma ScanBoxedBoolean(t: Tables, params: seq<string>, store: map<string, Value>, i: nat, st: BindState)
    requires i + 1 < |params| && HasKey(st.pending, params[i])
    requires Get(st.pending, params[i]).setter.paramTypes == [Boxed(PBoolean)]
    ensures ScanStep(t, params, store, i, st) ==
      Stop(Fail(st.(pending := Remove(st.pending, params[i])), NotRecognized(Boxed(PBoolean))))
  {
  }

  /**
   * A dynamic flag that is not a pending named flag takes the next token as the
   * name of a stored object and hands that object to its setter uncoerced; a
   * missing name or object is an error. The pending flags are untouched.
   */
  lemma ScanDynamic(t: Tables, params: seq<string>, store: map<string, Value>, i: nat, st: BindState)
    requires i < |params| && !HasKey(st.pending, params[i]) && params[i] in t.dynamic
    ensures i + 1 == |params| ==> ScanStep(t, params, store, i, st) == Stop(Fail(st, MissingVariableName(params[i])))
    ensures i + 1 < |params| && (params[i + 1] !in store || store[params[i + 1]] == VNull) ==>
      ScanStep(t, params, store, i, st).Stop? && ScanStep(t, params, store, i, st).outcome.state == st
    ensures var s := t.dynamic[params[i]];
      i + 1 < |params| && params[i + 1] in store && store[params[i + 1]] != VNull &&
      Invoke(s, store[params[i + 1]]).Some? ==>
        ScanStep(t, params, store, i, st) == Next(i + 2, st.(calls := st.calls + [Call(s.name, store[params[i + 1]])]))
  {
  }

  /** The scan only appends calls. */
  lemma {:induction false} ScanAppends(t: Tables, params: seq<string>, store: map<string, Value>, i: nat, st: BindState)
    ensures IsPrefix(st.calls, ScanFrom(t, params, store, i, st).state.calls)
    decreases |params| - i
  {
    if i < |params| {
      var r := ScanStep(t, params, store, i, st);
      if r.Next? {
        ScanAppends(t, params, store, r.next, r.state);
        var done := ScanFrom(t, params, store, r.next, r.state).state.calls;
        assert done[..|st.calls|] == done[..|r.state.calls|][..|st.calls|];
      }
    }
  }

  /** A flag that no remaining token names stays pending, with its entry, through a successful scan. */
  lemma {:induction false} ScanKeeps(t: Tables, params: seq<string>, store: map<string, Value>, i: nat, st: BindState, f: string)
    requires HasKey(st.pending, f) && forall j :: i <= j < |params| ==> params[j] != f
    requires ScanFrom(t, params, store, i, st).error.None?
    ensures var r := ScanFrom(t, params, store, i, st).state;
      HasKey(r.pending, f) && Get(r.pending, f) == Get(st.pending, f)
    decreases |params| - i
  {
    if i < |params| {
      var r := ScanStep(t, params, store, i, st);
      assert params[i] != f;
      ScanKeeps(t, params, store, r.next, r.state, f);
    }
  }

  /** A step that continues reads no token past the end of its list. */
  lemma StepExtend(t: Tables, params: seq<string>, extra: seq<string>, store: map<string, Value>, i: nat, st: BindState)
    requires i < |params| && ScanStep(t, params, store, i, st).Next?
    ensures ScanStep(t, params + extra, store, i, st) == ScanStep(t, params, store, i, st)
  {
    var ps := params + extra;
    assert ps[i] == params[i];
    if i + 1 < |params| {
      assert ps[i + 1] == params[i + 1];
    }
  }

  /**
   * A successful scan reads no token past the end of its own list, so on a
   * longer list it reaches the first appended token in the same state.
   */
  lemma {:induction false} ScanExtend(t: Tables, params: seq<string>, extra: seq<string>, store: map<string, Value>, i: nat, st: BindState)
    requires i <= |params| && ScanFrom(t, params, store, i, st).error.None?
    ensures ScanFrom(t, params + extra, store, i, st) ==
            ScanFrom(t, params + extra, store, |params|, ScanFrom(t, params, store, i, st).state)
    decreases |params| - i
  {
    if i < |params| {
      var r := ScanStep(t, params, store, i, st);
      StepExtend(t, params, extra, store, i, st);
      ScanExtend(t, params, extra, store, r.next, r.state);
    }
  }

  /** The defaults pass succeeds exactly when every flag left is optional and its default text sets its setter. */
  lemma {:induction false} DefaultsSucceed(rest: Assoc<NamedEntry>, st: BindState)
    ensures DefaultsOf(rest, st).error.None? <==>
      forall j :: 0 <= j < |rest| ==>
        !rest[j].1.ann.mandatory && SetFromText(rest[j].1.setter, rest[j].1.ann.defaultValue).Ok?
    ensures IsPrefix(st.calls, DefaultsOf(rest, st).state.calls)
  {
    if |rest| > 0 {
      var e := rest[0].1;
      if !e.ann.mandatory && SetFromText(e.setter, e.ann.defaultValue).Ok? {
        var st1 := st.(calls := st.calls + [SetFromText(e.setter, e.ann.defaultValue).value]);
        DefaultsSucceed(rest[1..], st1);
        assert forall j :: 1 <= j < |rest| ==> rest[j] == rest[1..][j - 1];
        assert DefaultsOf(rest, st).state.calls[..|st.calls|] == st1.calls[..|st.calls|];
      }
    }
  }

  /** The defaults pass does not depend on the order of the calls made before it. */
  lemma {:induction false} DefaultsPermute(rest: Assoc<NamedEntry>, a: BindState, b: BindState)
    requires multiset(a.calls) == multiset(b.calls)
    ensures DefaultsOf(rest, a).error == DefaultsOf(rest, b).error
    ensures multiset(DefaultsOf(rest, a).state.calls) == multiset(DefaultsOf(rest, b).state.calls)
  {
    if |rest| > 0 {
      var e := rest[0].1;
      if !e.ann.mandatory && SetFromText(e.setter, e.ann.defaultValue).Ok? {
        var c := SetFromText(e.setter, e.ann.defaultValue).value;
        DefaultsPermute(rest[1..], a.(calls := a.calls + [c]), b.(calls := b.calls + [c]));
      }
    }
  }

  /**
   * Taking flag f out of the defaults pass and making its call beforehand
   * leaves the pass successful with the same calls, in another order.
   */
  lemma {:induction false} DefaultsRemove(rest: Assoc<NamedEntry>, f: string, c: Call, a: BindState, b: BindState)
    requires HasKey(rest, f) && SetFromText(Get(rest, f).setter, Get(rest, f).ann.defaultValue) == Ok(c)
    requires multiset(a.calls) == multiset(b.calls) + multiset{c}
    requires DefaultsOf(rest, b).error.None?
    ensures DefaultsOf(Remove(rest, f), a).error.None?
    ensures multiset(DefaultsOf(Remove(rest, f), a).state.calls) == multiset(DefaultsOf(rest, b).state.calls)
  {
    var e := rest[0].1;
    var c0 := SetFromText(e.setter, e.ann.defaultValue).value;
    var b1 := b.(calls := b.calls + [c0]);
    if rest[0].0 == f {
      assert c0 == c;
      DefaultsPermute(rest[1..], a, b1);
    } else {
      TailKeys(rest);
      assert HasKey(rest[1..], f);
      var rest1 := Remove(rest[1..], f);
      assert Remove(rest, f) == [rest[0]] + rest1;
      assert ([rest[0]] + rest1)[1..] == rest1;
      DefaultsRemove(rest[1..], f, c, a.(calls := a.calls + [c0]), b1);
    }
  }

  /** The default call of each pending flag whose default text sets its setter, in order. */
  function DefaultCalls(rest: Assoc<NamedEntry>): seq<Call> {
    if |rest| == 0 then []
    else DefaultCall(rest[0].1) + DefaultCalls(rest[1..])
  }

  function DefaultCall(e: NamedEntry): seq<Call> {
    var r := SetFromText(e.setter, e.ann.defaultValue);
    if r.Ok? then [r.value] else []
  }

  /** A successful defaults pass makes exactly the default calls, in the order of the pending flags. */
  lemma {:induction false} DefaultsMakeDefaultCalls(rest: Assoc<NamedEntry>, st: BindState)
    requires DefaultsOf(rest, st).error.None?
    ensures DefaultsOf(rest, st).state.calls == st.calls + DefaultCalls(rest)
  {
    if |rest| > 0 {
      var e := rest[0].1;
      var c := SetFromText(e.setter, e.ann.defaultValue).value;
      var st1 := st.(calls := st.calls + [c]);
      assert DefaultsOf(rest, st) == DefaultsOf(rest[1..], st1);
      assert DefaultCalls(rest) == [c] + DefaultCalls(rest[1..]);
      DefaultsMakeDefaultCalls(rest[1..], st1);
      assert st1.calls + DefaultCalls(rest[1..]) == st.calls + DefaultCalls(rest);
    }
  }

  lemma {:induction false} DefaultCallsAppend(a: Assoc<NamedEntry>, b: Assoc<NamedEntry>)
    ensures DefaultCalls(a + b) == DefaultCalls(a) + DefaultCalls(b)
  {
    if |a| == 0 {
      assert a + b == b;
    } else {
      assert (a + b)[0] == a[0];
      assert (a + b)[1..] == a[1..] + b;
      DefaultCallsAppend(a[1..], b);
    }
  }

  /** Taking the flag at index i out of the list takes its default call out of the calls. */
  lemma DefaultCallsRemoveAt(y: Assoc<NamedEntry>, i: nat)
    requires i < |y|
    ensures multiset(DefaultCalls(y)) ==
      multiset(DefaultCall(y[i].1)) + multiset(DefaultCalls(y[..i] + y[i + 1..]))
  {
    var a, b := y[..i], y[i + 1..];
    SplitAt(y, i);
    DefaultCallsAppend(a + [y[i]], b);
    DefaultCallsAppend(a, [y[i]]);
    DefaultCallsAppend(a, b);
    var da, dc, db := DefaultCalls(a), DefaultCall(y[i].1), DefaultCalls(b);
    assert DefaultCalls([y[i]]) == dc by {
      assert [y[i]][1..] == [];
    }
    assert DefaultCalls(y) == da + dc + db;
    assert multiset(da + dc + db) == multiset(dc) + multiset(da + db);
  }

  lemma SplitAt<T>(y: seq<T>, i: nat)
    requires i < |y|
    ensures y == y[..i] + [y[i]] + y[i + 1..]
  {
  }

  lemma MultisetRemoveAt<T>(y: seq<T>, i: nat)
    requires i < |y|
    ensures multiset(y[..i] + y[i + 1..]) == multiset(y) - multiset{y[i]}
  {
    SplitAt(y, i);
    assert multiset(y) == multiset(y[..i]) + multiset{y[i]} + multiset(y[i + 1..]);
  }

  /** Taking the first element out of x and an equal one out of y keeps the two multisets equal. */
  lemma MultisetCancel<T>(x: seq<T>, y: seq<T>, i: nat)
    requires multiset(x) == multiset(y) && 0 < |x| && i < |y| && y[i] == x[0]
    ensures multiset(y[..i] + y[i + 1..]) == multiset(x[1..])
  {
    MultisetRemoveAt(y, i);
    assert multiset(x[1..]) == multiset(x) - multiset{x[0]} by {
      assert x == [x[0]] + x[1..];
    }
  }

  /** Two orders of the same pending flags make the same default calls, counted with repetition. */
  lemma {:induction false} DefaultCallsPermute(x: Assoc<NamedEntry>, y: Assoc<NamedEntry>)
    requires multiset(x) == multiset(y)
    ensures multiset(DefaultCalls(x)) == multiset(DefaultCalls(y))
    decreases |x|
  {
    if |x| == 0 {
      assert |multiset(y)| == 0;
    } else {
      assert x[0] in multiset(y);
      var i :| 0 <= i < |y| && y[i] == x[0];
      MultisetCancel(x, y, i);
      DefaultCallsPermute(x[1..], y[..i] + y[i + 1..]);
      DefaultCallsRemoveAt(y, i);
      assert DefaultCalls(x) == DefaultCall(x[0].1) + DefaultCalls(x[1..]);
    }
  }

  /**
   * Whether the defaults pass succeeds, and which calls it then makes, do not
   * depend on the order in which the pending flags are visited.
   */
  lemma DefaultsOrderFree(x: Assoc<NamedEntry>, y: Assoc<NamedEntry>, st: BindState)
    requires multiset(x) == multiset(y)
    ensures DefaultsOf(x, st).error.None? <==> DefaultsOf(y, st).error.None?
    ensures DefaultsOf(x, st).error.None? ==>
      multiset(DefaultsOf(x, st).state.calls) == multiset(DefaultsOf(y, st).state.calls)
  {
    DefaultsSucceed(x, st);
    DefaultsSucceed(y, st);
    forall j | 0 <= j < |y| ensures y[j] in x {
      assert y[j] in multiset(x);
    }
    forall j | 0 <= j < |x| ensures x[j] in y {
      assert x[j] in multiset(y);
    }
    if DefaultsOf(x, st).error.None? {
      DefaultsMakeDefaultCalls(x, st);
      DefaultsMakeDefaultCalls(y, st);
      DefaultCallsPermute(x, y);
    }
  }

  // -------------------------------------------------------------- readParams

  /**
   * On success the first k tokens (k the number of positional names) were
   * consumed by positions 1..k in order; with fewer than k tokens binding fails.
   */
  lemma BindPositionalPrefix(t: Tables, params: seq<string>, store: map<string, Value>, st0: BindState)
    ensures var o := Bind(t, params, store, st0);
      o.error.None? ==>
        NumPositionals(t) <= |params| && |st0.calls| + NumPositionals(t) <= |o.state.calls| &&
        var added := o.state.calls[|st0.calls|..];
        forall j :: 0 <= j < NumPositionals(t) ==> SetsPosition(t, params, j, added[j])
    ensures |params| < NumPositionals(t) ==> Bind(t, params, store, st0).error.Some?
  {
    var p := PositionalsFrom(t, params, 0, st0);
    if p.error.None? {
      PositionalsSucceed(t, params, 0, st0);
      var o := Bind(t, params, store, st0);
      if o.error.None? {
        BindExtendsPositionals(t, params, store, st0);
        AddedKept(t, params, |st0.calls|, p.state.calls, o.state.calls, NumPositionals(t));
      }
    }
  }

  /** A successful binding only appends calls to those of its positional phase. */
  lemma BindExtendsPositionals(t: Tables, params: seq<string>, store: map<string, Value>, st0: BindState)
    requires Bind(t, params, store, st0).error.None?
    ensures PositionalsFrom(t, params, 0, st0).error.None?
    ensures IsPrefix(PositionalsFrom(t, params, 0, st0).state.calls, Bind(t, params, store, st0).state.calls)
  {
    var p := PositionalsFrom(t, params, 0, st0);
    var s := ScanFrom(t, params, store, NumPositionals(t), p.state);
    ScanAppends(t, params, store, NumPositionals(t), p.state);
    DefaultsSucceed(s.state.pending, s.state);
    PrefixTrans(p.state.calls, s.state.calls, DefaultsOf(s.state.pending, s.state).state.calls);
  }

  lemma PrefixTrans(a: seq<Call>, b: seq<Call>, c: seq<Call>)
    requires IsPrefix(a, b) && IsPrefix(b, c)
    ensures IsPrefix(a, c)
  {
    assert c[..|a|] == c[..|b|][..|a|];
  }

  /** Calls that set positions keep doing so once later calls are appended. */
  lemma AddedKept(t: Tables, params: seq<string>, n: nat, a: seq<Call>, b: seq<Call>, k: nat)
    requires IsPrefix(a, b) && n + k <= |a|
    requires forall j :: 0 <= j < k ==> SetsPosition(t, params, j, a[n..][j])
    ensures forall j :: 0 <= j < k ==> SetsPosition(t, params, j, b[n..][j])
  {
    forall j | 0 <= j < k ensures SetsPosition(t, params, j, b[n..][j]) {
      assert b[n..][j] == b[..|a|][n + j] == a[n..][j];
    }
  }

  /**
   * The first token after the positional ones must be a flag: one that is
   * neither pending nor dynamic is refused by name, and nothing is un-pended.
   */
  lemma BindStrayToken(t: Tables, params: seq<string>, store: map<string, Value>, st0: BindState)
    requires NumPositionals(t) < |params|
    requires !HasKey(st0.pending, params[NumPositionals(t)]) && params[NumPositionals(t)] !in t.dynamic
    ensures Bind(t, params, store, st0).error.Some?
    ensures PositionalsFrom(t, params, 0, st0).error.None? ==>
      Bind(t, params, store, st0).error == Some(NotValidParameter(params[NumPositionals(t)])) &&
      Bind(t, params, store, st0).state.pending == st0.pending
  {
    var k := NumPositionals(t);
    var p := PositionalsFrom(t, params, 0, st0);
    if p.error.None? {
      PositionalsSucceed(t, params, 0, st0);
      assert ScanStep(t, params, store, k, p.state) == Stop(Fail(p.state, NotValidParameter(params[k])));
    }
  }

  /** The tokens a named flag consumes: a switch stands alone, any other flag takes the next token. */
  function Width(e: NamedEntry): nat { if IsSwitch(e) then 1 else 2 }

  /** The indices of the tokens the scan reads as flags, from token i on (the values they take are skipped). */
  function FlagIndices(t: Tables, params: seq<string>, store: map<string, Value>, i: nat, st: BindState): (v: seq<nat>)
    ensures forall a :: 0 <= a < |v| ==> i <= v[a] < |params|
    ensures forall a, b :: 0 <= a < b < |v| ==> v[a] < v[b]
    decreases |params| - i
  {
    if i >= |params| then []
    else match ScanStep(t, params, store, i, st)
      case Stop(_) => [i]
      case Next(j, st1) => [i] + FlagIndices(t, params, store, j, st1)
  }

  /** None of the tokens at indices v is f. */
  predicate Avoids(params: seq<string>, v: seq<nat>, f: string) {
    forall a :: 0 <= a < |v| && v[a] < |params| ==> params[v[a]] != f
  }

  /** In a successful scan, a token that is neither pending nor dynamic is never read as a flag. */
  lemma {:induction false} UnpendedNotReread(t: Tables, params: seq<string>, store: map<string, Value>,
                                             i: nat, st: BindState, f: string)
    requires !HasKey(st.pending, f) && f !in t.dynamic
    requires ScanFrom(t, params, store, i, st).error.None?
    ensures Avoids(params, FlagIndices(t, params, store, i, st), f)
    decreases |params| - i
  {
    if i < |params| {
      var r := ScanStep(t, params, store, i, st);
      if r.Next? {
        assert params[i] != f;
        UnpendedNotReread(t, params, store, r.next, r.state, f);
        assert FlagIndices(t, params, store, i, st) == [i] + FlagIndices(t, params, store, r.next, r.state);
      }
    }
  }

  /** Among the tokens at indices v, only names in `dynamic` occur more than once. */
  predicate OnlyDynamicRepeat(params: seq<string>, v: seq<nat>, dynamic: map<string, Setter>)
    requires forall a :: 0 <= a < |v| ==> v[a] < |params|
  {
    forall a, b :: 0 <= a < b < |v| && params[v[a]] == params[v[b]] ==> params[v[a]] in dynamic
  }

  /** Putting an index in front keeps the property when its token is dynamic or occurs nowhere after it. */
  lemma OnlyDynamicRepeatCons(params: seq<string>, i: nat, w: seq<nat>, dynamic: map<string, Setter>)
    requires i < |params| && forall a :: 0 <= a < |w| ==> w[a] < |params|
    requires OnlyDynamicRepeat(params, w, dynamic)
    requires params[i] in dynamic || Avoids(params, w, params[i])
    ensures OnlyDynamicRepeat(params, [i] + w, dynamic)
  {
    var v := [i] + w;
    forall a, b | 0 <= a < b < |v| && params[v[a]] == params[v[b]] ensures params[v[a]] in dynamic {
      assert v[b] == w[b - 1];
      if a > 0 {
        assert v[a] == w[a - 1];
      }
    }
  }

  /** A step past a token that is not dynamic un-pends it and keeps the pending flags distinct. */
  lemma NamedStepUnpends(t: Tables, params: seq<string>, store: map<string, Value>, i: nat, st: BindState)
    requires i < |params| && DistinctKeys(st.pending)
    requires ScanStep(t, params, store, i, st).Next?
    ensures DistinctKeys(ScanStep(t, params, store, i, st).state.pending)
    ensures params[i] !in t.dynamic ==> !HasKey(ScanStep(t, params, store, i, st).state.pending, params[i])
  {
    if params[i] !in t.dynamic {
      FlagStepRemoves(t, params, store, i, st);
    }
  }

  /** In a successful scan over distinct pending flags, only dynamic flags are read as flags more than once. */
  lemma {:induction false} ScanReadsNamedOnce(t: Tables, params: seq<string>, store: map<string, Value>, i: nat, st: BindState)
    requires DistinctKeys(st.pending)
    requires ScanFrom(t, params, store, i, st).error.None?
    ensures OnlyDynamicRepeat(params, FlagIndices(t, params, store, i, st), t.dynamic)
    decreases |params| - i
  {
    if i < |params| {
      var r := ScanStep(t, params, store, i, st);
      if r.Next? {
        var w := FlagIndices(t, params, store, r.next, r.state);
        assert ScanFrom(t, params, store, i, st) == ScanFrom(t, params, store, r.next, r.state);
        NamedStepUnpends(t, params, store, i, st);
        ScanReadsNamedOnce(t, params, store, r.next, r.state);
        var f := params[i];
        if f !in t.dynamic {
          UnpendedNotReread(t, params, store, r.next, r.state, f);
        }
        OnlyDynamicRepeatCons(params, i, w, t.dynamic);
        assert FlagIndices(t, params, store, i, st) == [i] + w;
      }
    }
  }

  /**
   * A named flag is set at most once: in a successful binding, a token read
   * as a flag a second time is a dynamic one, so giving a named flag twice
   * anywhere on the line is refused.
   */
  lemma BindRepeatedFlag(t: Tables, params: seq<string>, store: map<string, Value>, st0: BindState)
    requires DistinctKeys(st0.pending)
    requires Bind(t, params, store, st0).error.None?
    ensures OnlyDynamicRepeat(params, FlagIndices(t, params, store, NumPositionals(t), PositionalsFrom(t, params, 0, st0).state),
                              t.dynamic)
  {
    PositionalsSucceed(t, params, 0, st0);
    ScanReadsNamedOnce(t, params, store, NumPositionals(t), PositionalsFrom(t, params, 0, st0).state);
  }

  /**
   * For instance, repeating a named flag right after its first use (after its
   * value, for a valued flag) is refused.
   */
  lemma BindRepeatedRightAway(t: Tables, params: seq<string>, store: map<string, Value>, st0: BindState)
    requires DistinctKeys(st0.pending)
    requires NumPositionals(t) < |params| && HasKey(st0.pending, params[NumPositionals(t)])
    requires var f := params[NumPositionals(t)];
      f !in t.dynamic &&
      NumPositionals(t) + Width(Get(st0.pending, f)) < |params| &&
      params[NumPositionals(t) + Width(Get(st0.pending, f))] == f
    ensures Bind(t, params, store, st0).error.Some?
  {
    var k := NumPositionals(t);
    var p := PositionalsFrom(t, params, 0, st0);
    if p.error.None? {
      PositionalsSucceed(t, params, 0, st0);
      FlagStepRemoves(t, params, store, k, p.state);
      var s1 := ScanStep(t, params, store, k, p.state);
      if s1.Next? {
        StrayStops(t, params, store, s1.next, s1.state);
        assert ScanFrom(t, params, store, k, p.state) == ScanFrom(t, params, store, s1.next, s1.state);
      }
    }
  }

  /** A pending flag's step moves on by its width and leaves the flag no longer pending. */
  lemma FlagStepRemoves(t: Tables, params: seq<string>, store: map<string, Value>, i: nat, st: BindState)
    requires i < |params| && HasKey(st.pending, params[i]) && DistinctKeys(st.pending)
    ensures var r := ScanStep(t, params, store, i, st);
      r.Next? ==> r.next == i + Width(Get(st.pending, params[i])) && !HasKey(r.state.pending, params[i])
  {
    assert !HasKey(Remove(st.pending, params[i]), params[i]);
  }

  /** A token that is neither pending nor dynamic stops the scan. */
  lemma StrayStops(t: Tables, params: seq<string>, store: map<string, Value>, i: nat, st: BindState)
    requires i < |params| && !HasKey(st.pending, params[i]) && params[i] !in t.dynamic
    ensures ScanStep(t, params, store, i, st).Stop?
  {
  }

  /** n pairs [flag, key] from index i on. */
  predicate RepeatedPairs(params: seq<string>, i: nat, n: nat, flag: string, key: string)
    decreases n
  {
    n == 0 || (i + 1 < |params| && params[i] == flag && params[i + 1] == key && RepeatedPairs(params, i + 2, n - 1, flag, key))
  }

  /**
   * A dynamic flag, unlike a named one, may be given any number of times: each
   * time its setter receives the stored object itself, not a coercion of it.
   */
  lemma {:induction false} ScanRepeatedDynamic(t: Tables, params: seq<string>, store: map<string, Value>,
                                               i: nat, st: BindState, n: nat, flag: string, key: string)
    requires RepeatedPairs(params, i, n, flag, key)
    requires !HasKey(st.pending, flag) && flag in t.dynamic && key in store && store[key] != VNull
    requires Invoke(t.dynamic[flag], store[key]).Some?
    ensures ScanFrom(t, params, store, i, st) ==
      ScanFrom(t, params, store, i + 2 * n,
               st.(calls := st.calls + seq(n, _ => Call(t.dynamic[flag].name, store[key]))))
    decreases n
  {
    var c := Call(t.dynamic[flag].name, store[key]);
    if n == 0 {
      assert st.calls + seq(0, _ => c) == st.calls;
      assert st.(calls := st.calls) == st;
    } else {
      var st1 := st.(calls := st.calls + [c]);
      assert params[i] == flag && params[i + 1] == key;
      ScanDynamic(t, params, store, i, st);
      assert ScanStep(t, params, store, i, st) == Next(i + 2, st1);
      assert ScanFrom(t, params, store, i, st) == ScanFrom(t, params, store, i + 2, st1);
      ScanRepeatedDynamic(t, params, store, i + 2, st1, n - 1, flag, key);
      assert st1.calls + seq(n - 1, _ => c) == st.calls + seq(n, _ => c);
    }
  }

  /** A mandatory flag that no token names makes binding fail. */
  lemma BindMandatoryMissing(t: Tables, params: seq<string>, store: map<string, Value>, st0: BindState, f: string)
    requires HasKey(st0.pending, f) && Get(st0.pending, f).ann.mandatory && f !in params
    ensures Bind(t, params, store, st0).error.Some?
  {
    var p := PositionalsFrom(t, params, 0, st0);
    if p.error.None? {
      PositionalsSucceed(t, params, 0, st0);
      var s := ScanFrom(t, params, store, NumPositionals(t), p.state);
      if s.error.None? {
        ScanKeeps(t, params, store, NumPositionals(t), p.state, f);
        var l := s.state.pending;
        var j :| 0 <= j < |l| && l[j] == (f, Get(l, f));
        DefaultsSucceed(l, s.state);
      }
    }
  }

  /**
   * Writing an optional valued flag with its default text at the end of a
   * successful command line keeps it successful and makes the same setter
   * calls: the default is what an absent flag gets.
   */
  lemma BindDefaultExplicit(t: Tables, params: seq<string>, store: map<string, Value>, st0: BindState, f: string)
    requires HasKey(st0.pending, f) && !IsSwitch(Get(st0.pending, f)) && f !in params
    requires Bind(t, params, store, st0).error.None?
    ensures var o2 := Bind(t, params + [f, Get(st0.pending, f).ann.defaultValue], store, st0);
      o2.error.None? && multiset(o2.state.calls) == multiset(Bind(t, params, store, st0).state.calls)
  {
    var e := Get(st0.pending, f);
    var extra := [f, e.ann.defaultValue];
    var ps := params + extra;
    var k := NumPositionals(t);
    var p := PositionalsFrom(t, params, 0, st0);
    PositionalsSucceed(t, params, 0, st0);
    PositionalsExtend(t, params, extra, 0, st0);
    var s := ScanFrom(t, params, store, k, p.state);
    ScanKeeps(t, params, store, k, p.state, f);
    ScanExtend(t, params, extra, store, k, p.state);
    var l := s.state.pending;
    assert Get(l, f) == e;
    var j :| 0 <= j < |l| && l[j] == (f, Get(l, f));
    DefaultsSucceed(l, s.state);
    var c := SetFromText(e.setter, e.ann.defaultValue).value;
    assert ps[|params|] == f && ps[|params| + 1] == e.ann.defaultValue;
    var s2 := BindState(Remove(l, f), s.state.calls + [c]);
    assert ScanFrom(t, ps, store, |params|, s.state) == ScanFrom(t, ps, store, |params| + 2, s2);
    assert Bind(t, ps, store, st0) == DefaultsOf(Remove(l, f), s2);
    DefaultsRemove(l, f, c, s2, s.state);
  }

  // -------------------------------------------------------------------- help

  lemma SectionListsEveryEntry(header: string, m: Assoc<string>, i: nat)
    requires i < |m|
    ensures Contains(Section(header, m), Line(m[i]))
  {
    LinesListEveryEntry(m, i);
    ContainsRight(header, Lines(m), Line(m[i]));
  }

  /** The help begins with the command's description. */
  lemma HelpStartsWithDescription(d: string, t: Tables)
    ensures JavaLang.StartsWith(HelpText(d, t), d + "\n")
  {
    var pre := d + "\n";
    var sp := Section("\npositional arguments:\n", t.positionalDescriptions);
    var sn := Section("\nnamed arguments:\n", t.descriptions);
    var sd := Section("\nwhere the following are dynamic parameters\n", t.dynamicDescriptions);
    assert HelpText(d, t) == pre + sp + sn + sd;
    assert JavaLang.StartsWith(pre, pre);
    JavaLang.StartsWithAppend(pre, pre, sp);
    JavaLang.StartsWithAppend(pre + sp, pre, sn);
    JavaLang.StartsWithAppend(pre + sp + sn, pre, sd);
  }

  /** The help has a line for every parameter of every kind. */
  lemma HelpListsEveryParameter(d: string, t: Tables)
    ensures forall i :: 0 <= i < |t.positionalDescriptions| ==> Contains(HelpText(d, t), Line(t.positionalDescriptions[i]))
    ensures forall i :: 0 <= i < |t.descriptions| ==> Contains(HelpText(d, t), Line(t.descriptions[i]))
    ensures forall i :: 0 <= i < |t.dynamicDescriptions| ==> Contains(HelpText(d, t), Line(t.dynamicDescriptions[i]))
  {
    var pre := d + "\n";
    var sp := Section("\npositional arguments:\n", t.positionalDescriptions);
    var sn := Section("\nnamed arguments:\n", t.descriptions);
    var sd := Section("\nwhere the following are dynamic parameters\n", t.dynamicDescriptions);
    assert HelpText(d, t) == pre + sp + sn + sd;
    forall i | 0 <= i < |t.positionalDescriptions| ensures Contains(pre + sp + sn + sd, Line(t.positionalDescriptions[i])) {
      var l := Line(t.positionalDescriptions[i]);
      SectionListsEveryEntry("\npositional arguments:\n", t.positionalDescriptions, i);
      ContainsRight(pre, sp, l);
      ContainsLeft(pre + sp, sn, l);
      ContainsLeft(pre + sp + sn, sd, l);
    }
    forall i | 0 <= i < |t.descriptions| ensures Contains(pre + sp + sn + sd, Line(t.descriptions[i])) {
      var l := Line(t.descriptions[i]);
      SectionListsEveryEntry("\nnamed arguments:\n", t.descriptions, i);
      ContainsRight(pre + sp, sn, l);
      ContainsLeft(pre + sp + sn, sd, l);
    }
    forall i | 0 <= i < |t.dynamicDescriptions| ensures Contains(pre + sp + sn + sd, Line(t.dynamicDescriptions[i])) {
      SectionListsEveryEntry("\nwhere the following are dynamic parameters\n", t.dynamicDescriptions, i);
      ContainsRight(pre + sp + sn, sd, Line(t.dynamicDescriptions[i]));
    }
  }

  // ------------------------------------------------- unfolding, one step each

  /** One step of the positional phase: position i+1 is set from params[i]. */
  lemma PositionalHead(t: Tables, params: seq<string>, i: nat, st: BindState, c: Call)
    requires i < NumPositionals(t) && i + 1 in t.positional && i < |params|
    requires SetFromText(t.positional[i + 1], params[i]) == Ok(c)
    ensures PositionalsFrom(t, params, i, st) == PositionalsFrom(t, params, i + 1, st.(calls := st.calls + [c]))
  {
  }

  /** One step of the defaults pass: an optional flag whose default sets its parameter. */
  lemma DefaultsHead(rest: Assoc<NamedEntry>, st: BindState, c: Call)
    requires |rest| > 0 && !rest[0].1.ann.mandatory
    requires SetFromText(rest[0].1.setter, rest[0].1.ann.defaultValue) == Ok(c)
    ensures DefaultsOf(rest, st) == DefaultsOf(rest[1..], st.(calls := st.calls + [c]))
  {
  }

  /** With no tokens and no positional parameter, binding is the defaults pass alone. */
  lemma BindNoTokens(t: Tables, store: map<string, Value>, st: BindState)
    requires NumPositionals(t) == 0
    ensures Bind(t, [], store, st) == DefaultsOf(st.pending, st)
  {
  }

  /** When the positionals are bound from exactly the tokens given, the scan has nothing left. */
  lemma BindOnlyPositionals(t: Tables, params: seq<string>, store: map<string, Value>, st: BindState)
    requires |params| == NumPositionals(t) && PositionalsFrom(t, params, 0, st).error == None
    ensures var p := PositionalsFrom(t, params, 0, st);
      Bind(t, params, store, st) == DefaultsOf(p.state.pending, p.state)
  {
  }
}
