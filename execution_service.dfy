/**
 * global/ExecutionService.java: the console's registry of commands, its store
 * of named objects and its history. A command class is registered only after
 * checkCommandCorrectness has accepted its annotations; runCommand resolves a
 * name, binds and runs the command, and turns every failure into the single
 * CommandError.ERROR value (VError here).
 */
module Service {
  import opened Wrappers
  import opened JavaLang
  import opened JavaTypes
  import opened Declarations
  import StringUtils
  import opened GlobalCommand

  /** COMMAND_SEPARATOR: joins the tokens of a nested command inside one token. */
  const CommandSeparator: string := "=%="

  /** BATCH_COMMENT: a batch line starting with it is skipped. */
  const BatchComment: string := "#"

  // ----------------------------------------------- checkCommandCorrectness

  /** The ArgumentDeclarationExceptions checkCommandCorrectness throws. */
  datatype DeclError =
    | ArityError(setter: string)    // an annotated method does not take exactly one parameter
    | RepeatedName(flag: string)    // two CommandInput/DynamicInput annotations share a console flag
    | BadPositions                  // the positions are not 1..n

  datatype AnnKind = FlagAnn(flag: string) | PositionAnn(position: int)

  /** One annotation as the check sees it: on which method, that method's parameter count, and what it declares. */
  datatype Ann = Ann(setter: string, arity: nat, kind: AnnKind)

  /** A method's declared annotations, in the order CommandInput, DynamicInput, PositionalInput. */
  function AnnotationsOf(s: Setter): (r: seq<Ann>)
    ensures |r| == 0 <==> !IsAnnotated(s)
    ensures forall k :: 0 <= k < |r| ==> r[k].arity == |s.paramTypes| && r[k].setter == s.name
  {
    var n := |s.paramTypes|;
    (if s.named.Some? then [Ann(s.name, n, FlagAnn(s.named.value.consoleFormat))] else [])
    + (if s.dynamic.Some? then [Ann(s.name, n, FlagAnn(s.dynamic.value.consoleFormat))] else [])
    + (if s.positional.Some? then [Ann(s.name, n, PositionAnn(s.positional.value.position))] else [])
  }

  /** The annotations of all methods, in getMethods() order. */
  function Anns(ss: seq<Setter>): seq<Ann> {
    if |ss| == 0 then [] else AnnotationsOf(ss[0]) + Anns(ss[1..])
  }

  /** The console flags the annotations declare, in order. */
  function Flags(anns: seq<Ann>): seq<string> {
    if |anns| == 0 then [] else (if anns[0].kind.FlagAnn? then [anns[0].kind.flag] else []) + Flags(anns[1..])
  }

  /** The positions the annotations declare, in order. */
  function Positions(anns: seq<Ann>): seq<int> {
    if |anns| == 0 then [] else (if anns[0].kind.PositionAnn? then [anns[0].kind.position] else []) + Positions(anns[1..])
  }

  predicate NoRepeats(xs: seq<string>) { forall i, j :: 0 <= i < j < |xs| ==> xs[i] != xs[j] }

  /**
   * The nested loops of checkCommandCorrectness over the annotations still to
   * visit, with the flags seen so far and the positions gathered so far: the
   * first annotation on a method of the wrong arity, or the first repeated
   * flag, stops the check.
   */
  function ScanAnns(anns: seq<Ann>, names: set<string>, positions: seq<int>): Result<seq<int>, DeclError> {
    if |anns| == 0 then Ok(positions)
    else if anns[0].arity != 1 then Err(ArityError(anns[0].setter))
    else match anns[0].kind
      case FlagAnn(f) => if f in names then Err(RepeatedName(f)) else ScanAnns(anns[1..], names + {f}, positions)
      case PositionAnn(p) => ScanAnns(anns[1..], names, positions + [p])
  }

  /** What checkPositions(positions) answers for a list: 1..size all occur in it. */
  predicate Covers(ps: seq<int>) { forall i :: 1 <= i <= |ps| ==> i in ps }

  /** What checkPositions answers for a set: 1..size all belong to it. */
  predicate CoversSet(ps: set<int>) { forall i :: 1 <= i <= |ps| ==> i in ps }

  function Elems(ps: seq<int>): set<int> { set i | 0 <= i < |ps| :: ps[i] }

  /** checkCommandCorrectness as written: the positions are collected in a HashSet. */
  function CorrectnessAsWritten(ss: seq<Setter>): Option<DeclError> {
    match ScanAnns(Anns(ss), {}, [])
    case Err(e) => Some(e)
    case Ok(ps) => if CoversSet(Elems(ps)) then None else Some(BadPositions)
  }

  /** checkCommandCorrectness with the positions collected in a list, so a repeated position is rejected. */
  function Correctness(ss: seq<Setter>): Option<DeclError> {
    match ScanAnns(Anns(ss), {}, [])
    case Err(e) => Some(e)
    case Ok(ps) => if Covers(ps) then None else Some(BadPositions)
  }

  /**
   * What the declaration annotations promise: every annotated method takes one
   * parameter, no console flag is declared twice, and the positions are
   * 1..n, each once.
   */
  predicate WellDeclared(ss: seq<Setter>) {
    SettersUnary(ss)
    && NoRepeats(Flags(Anns(ss)))
    && Covers(Positions(Anns(ss)))
  }

  /** checkPositions, the loop over i, on the HashSet of the positions gathered. */
  method CheckPositions(positions: set<int>) returns (ok: bool)
    ensures ok <==> CoversSet(positions)
  {
    var i := 0;
    while i < |positions|
      invariant 0 <= i <= |positions|
      invariant forall j :: 1 <= j <= i ==> j in positions
    {
      if i + 1 !in positions {
        return false;
      }
      i := i + 1;
    }
    return true;
  }

  /**
   * checkCommandCorrectness(command): the loop over the methods and, inside it,
   * over each method's annotations, then checkPositions on the HashSet of the
   * positions gathered, as written (see CorrectnessAsWritten; Correctness is
   * the corrected check).
   */
  method CheckCommandCorrectness(c: CommandType) returns (err: Option<DeclError>)
    ensures err == CorrectnessAsWritten(c.setters)
  {
    var ss := c.setters;
    var names: set<string> := {};
    var positions: set<int> := {};
    ghost var gathered: seq<int> := [];
    ghost var goal := ScanAnns(Anns(ss), {}, []);
    ghost var rest := Anns(ss);
    assert ss[0..] == ss;
    var i := 0;
    while i < |ss|
      invariant 0 <= i <= |ss|
      invariant rest == Anns(ss[i..])
      invariant ScanAnns(rest, names, gathered) == goal && positions == Elems(gathered)
    {
      var anns := AnnotationsOf(ss[i]);
      ghost var tail := Anns(ss[i + 1..]);
      AnnsFrom(ss, i);
      var j := 0;
      while j < |anns|
        invariant 0 <= j <= |anns|
        invariant rest == anns[j..] + tail
        invariant ScanAnns(rest, names, gathered) == goal && positions == Elems(gathered)
      {
        var a := anns[j];
        DropFirst(anns, j, tail);
        ScanHead(rest, names, gathered);
        if a.arity != 1 {
          return Some(ArityError(a.setter));
        }
        match a.kind {
          case FlagAnn(f) =>
            if f in names {
              return Some(RepeatedName(f));
            }
            names := names + {f};
          case PositionAnn(p) =>
            ElemsSnoc(gathered, p);
            gathered := gathered + [p];
            positions := positions + {p};
        }
        rest := rest[1..];
        j := j + 1;
      }
      assert rest == tail;
      i := i + 1;
    }
    assert rest == [];
    var ok := CheckPositions(positions);
    if !ok {
      return Some(BadPositions);
    }
    return None;
  }

  /** Adding a position to the list adds it to the set. */
  lemma ElemsSnoc(ps: seq<int>, p: int)
    ensures Elems(ps + [p]) == Elems(ps) + {p}
  {
    forall v
      ensures v in Elems(ps + [p]) <==> v in Elems(ps) + {p}
    {
      if v in Elems(ps + [p]) {
        var i :| 0 <= i < |ps + [p]| && (ps + [p])[i] == v;
        if i < |ps| {
          assert ps[i] == v;
        }
      }
      if v in Elems(ps) {
        var i :| 0 <= i < |ps| && ps[i] == v;
        assert (ps + [p])[i] == v;
      }
      if v == p {
        assert (ps + [p])[|ps|] == p;
      }
    }
  }

  lemma DropFirst(anns: seq<Ann>, j: nat, tail: seq<Ann>)
    requires j < |anns|
    ensures (anns[j..] + tail)[0] == anns[j] && (anns[j..] + tail)[1..] == anns[j + 1..] + tail
  {
  }

  lemma AnnsFrom(ss: seq<Setter>, i: nat)
    requires i < |ss|
    ensures Anns(ss[i..]) == AnnotationsOf(ss[i]) + Anns(ss[i + 1..])
    ensures AnnotationsOf(ss[i])[0..] + Anns(ss[i + 1..]) == Anns(ss[i..])
  {
    assert ss[i..][1..] == ss[i + 1..];
    assert AnnotationsOf(ss[i])[0..] == AnnotationsOf(ss[i]);
  }

  /** One annotation of the scan. */
  lemma ScanHead(x: seq<Ann>, names: set<string>, ps: seq<int>)
    requires |x| > 0
    ensures x[0].arity != 1 ==> ScanAnns(x, names, ps) == Err(ArityError(x[0].setter))
    ensures x[0].arity == 1 && x[0].kind.FlagAnn? ==>
      ScanAnns(x, names, ps) ==
        if x[0].kind.flag in names then Err(RepeatedName(x[0].kind.flag))
        else ScanAnns(x[1..], names + {x[0].kind.flag}, ps)
    ensures x[0].arity == 1 && x[0].kind.PositionAnn? ==>
      ScanAnns(x, names, ps) == ScanAnns(x[1..], names, ps + [x[0].kind.position])
  {
  }

  lemma NoRepeatsCons(f: string, r: seq<string>)
    ensures NoRepeats([f] + r) <==> f !in r && NoRepeats(r)
  {
    var x := [f] + r;
    assert forall i :: 0 <= i < |r| ==> x[i + 1] == r[i];
    if f in r {
      var j :| 0 <= j < |r| && r[j] == f;
      assert x[0] == x[j + 1];
    }
    if NoRepeats(x) {
      forall i, j | 0 <= i < j < |r| ensures r[i] != r[j] {
        assert x[i + 1] == r[i] && x[j + 1] == r[j];
      }
    }
    if f !in r && NoRepeats(r) {
      forall i, j | 0 <= i < j < |x| ensures x[i] != x[j] {
        if i == 0 {
          assert x[j] == r[j - 1];
        } else {
          assert x[i] == r[i - 1] && x[j] == r[j - 1];
        }
      }
    }
  }

  lemma FlagsCons(anns: seq<Ann>)
    requires |anns| > 0
    ensures NoRepeats(Flags(anns)) <==>
      NoRepeats(Flags(anns[1..])) && (anns[0].kind.FlagAnn? ==> anns[0].kind.flag !in Flags(anns[1..]))
  {
    var r := Flags(anns[1..]);
    if anns[0].kind.FlagAnn? {
      assert Flags(anns) == [anns[0].kind.flag] + r;
      NoRepeatsCons(anns[0].kind.flag, r);
    } else {
      assert Flags(anns) == r;
    }
  }

  predicate AllUnary(anns: seq<Ann>) { forall k :: 0 <= k < |anns| ==> anns[k].arity == 1 }

  predicate Unseen(xs: seq<string>, names: set<string>) { forall k :: 0 <= k < |xs| ==> xs[k] !in names }

  lemma AllUnaryCons(anns: seq<Ann>)
    requires |anns| > 0
    ensures AllUnary(anns) <==> anns[0].arity == 1 && AllUnary(anns[1..])
  {
    assert forall k :: 0 <= k < |anns| - 1 ==> anns[1..][k] == anns[k + 1];
  }

  lemma UnseenCons(f: string, r: seq<string>, names: set<string>)
    ensures (Unseen([f] + r, names) && f !in r) <==> (f !in names && Unseen(r, names + {f}))
  {
    var x := [f] + r;
    assert x[0] == f;
    assert forall k :: 0 <= k < |r| ==> x[k + 1] == r[k];
  }

  /**
   * The scan succeeds exactly when every annotation sits on a one-parameter
   * method and no flag repeats another or one seen before; it then returns
   * the positions gathered, in order.
   */
  lemma {:induction false} ScanAnnsOk(anns: seq<Ann>, names: set<string>, ps: seq<int>)
    ensures ScanAnns(anns, names, ps).Ok? <==>
      AllUnary(anns) && NoRepeats(Flags(anns)) && Unseen(Flags(anns), names)
    ensures ScanAnns(anns, names, ps).Ok? ==> ScanAnns(anns, names, ps).value == ps + Positions(anns)
  {
    if |anns| > 0 {
      var r := anns[1..];
      FlagsCons(anns);
      AllUnaryCons(anns);
      match anns[0].kind {
        case FlagAnn(f) =>
          ScanAnnsOk(r, names + {f}, ps);
          assert Flags(anns) == [f] + Flags(r);
          assert Positions(anns) == Positions(r);
          UnseenCons(f, Flags(r), names);
        case PositionAnn(p) =>
          ScanAnnsOk(r, names, ps + [p]);
          assert Flags(anns) == Flags(r);
          assert Positions(anns) == [p] + Positions(r);
          assert ps + [p] + Positions(r) == ps + ([p] + Positions(r));
      }
    }
  }

  lemma AllUnaryAppend(x: seq<Ann>, y: seq<Ann>)
    ensures AllUnary(x + y) <==> AllUnary(x) && AllUnary(y)
  {
    assert forall k :: 0 <= k < |x| ==> (x + y)[k] == x[k];
    assert forall k :: 0 <= k < |y| ==> (x + y)[|x| + k] == y[k];
  }

  /** Every annotated method takes exactly one parameter. */
  predicate SettersUnary(ss: seq<Setter>) {
    forall i :: 0 <= i < |ss| && IsAnnotated(ss[i]) ==> |ss[i].paramTypes| == 1
  }

  lemma SettersUnaryCons(ss: seq<Setter>)
    requires |ss| > 0
    ensures SettersUnary(ss) <==> (IsAnnotated(ss[0]) ==> |ss[0].paramTypes| == 1) && SettersUnary(ss[1..])
  {
    assert forall i :: 0 < i < |ss| ==> ss[i] == ss[1..][i - 1];
  }

  lemma {:induction false} AnnsArity(ss: seq<Setter>)
    ensures AllUnary(Anns(ss)) <==> SettersUnary(ss)
  {
    if |ss| > 0 {
      var a := AnnotationsOf(ss[0]);
      AnnsArity(ss[1..]);
      AllUnaryAppend(a, Anns(ss[1..]));
      SettersUnaryCons(ss);
      if IsAnnotated(ss[0]) {
        assert a[0].arity == |ss[0].paramTypes|;
      }
    }
  }

  /** checkCommandCorrectness (with positions in a list) throws nothing exactly for well-declared commands. */
  lemma CorrectnessIff(ss: seq<Setter>)
    ensures Correctness(ss) == None <==> WellDeclared(ss)
  {
    ScanAnnsOk(Anns(ss), {}, []);
    AnnsArity(ss);
    assert [] + Positions(Anns(ss)) == Positions(Anns(ss));
  }

  /**
   * The check as written passes exactly the commands whose annotated methods
   * take one parameter, whose flags are not repeated, and whose positions,
   * as a set, are 1..n for n the set's size.
   */
  lemma CorrectnessAsWrittenIff(ss: seq<Setter>)
    ensures CorrectnessAsWritten(ss) == None <==>
      SettersUnary(ss) && NoRepeats(Flags(Anns(ss))) && CoversSet(Elems(Positions(Anns(ss))))
  {
    ScanAnnsOk(Anns(ss), {}, []);
    AnnsArity(ss);
    assert [] + Positions(Anns(ss)) == Positions(Anns(ss));
  }

  /** The corrected check is the stricter one: what it passes, the check as written passes too. */
  lemma CorrectedPasses(ss: seq<Setter>)
    requires Correctness(ss) == None
    ensures CorrectnessAsWritten(ss) == None
  {
    var ps := ScanAnns(Anns(ss), {}, []).value;
    assert Covers(ps);
    ElemsSize(ps);
    forall i | 1 <= i <= |Elems(ps)|
      ensures i in Elems(ps)
    {
      assert i in ps;
      var j :| 0 <= j < |ps| && ps[j] == i;
    }
  }

  /** A list has at least as many positions as its set of positions. */
  lemma {:induction false} ElemsSize(ps: seq<int>)
    ensures |Elems(ps)| <= |ps|
  {
    if |ps| > 0 {
      var init := ps[..|ps| - 1];
      assert init + [ps[|ps| - 1]] == ps;
      ElemsSnoc(init, ps[|ps| - 1]);
      ElemsSize(init);
    }
  }

  function Interval(n: nat): (r: set<int>)
    ensures |r| == n
    ensures forall i :: i in r <==> 1 <= i <= n
  {
    if n == 0 then {} else
      var r0 := Interval(n - 1);
      assert n !in r0;
      r0 + {n}
  }

  /** checkPositions on a set S holds exactly when S is {1..|S|}. */
  lemma CoversSetIff(ps: set<int>)
    ensures CoversSet(ps) <==> ps == Interval(|ps|)
  {
    var iv := Interval(|ps|);
    if CoversSet(ps) {
      assert iv <= ps;
      var extra := ps - iv;
      assert ps == iv + extra && iv * extra == {};
      assert |ps| == |iv| + |extra|;
      assert extra == {};
    }
  }

  lemma {:induction false} PositionsAppend(x: seq<Ann>, y: seq<Ann>)
    ensures Positions(x + y) == Positions(x) + Positions(y)
  {
    if |x| > 0 {
      assert (x + y)[1..] == x[1..] + y;
      PositionsAppend(x[1..], y);
    } else {
      assert x + y == y;
    }
  }

  /** A position is gathered by the check exactly when some method declares it. */
  lemma {:induction false} PositionsDeclared(ss: seq<Setter>, p: int)
    ensures p in Positions(Anns(ss)) <==> exists i :: 0 <= i < |ss| && DeclaresPosition(ss[i], p)
  {
    if |ss| > 0 {
      var a := AnnotationsOf(ss[0]);
      PositionsAppend(a, Anns(ss[1..]));
      PositionsDeclared(ss[1..], p);
      assert forall i :: 0 < i < |ss| ==> ss[i] == ss[1..][i - 1];
      AnnotationPositions(ss[0]);
    }
  }

  /** The position a method's annotations declare, if any. */
  lemma AnnotationPositions(s: Setter)
    ensures Positions(AnnotationsOf(s)) == if s.positional.Some? then [s.positional.value.position] else []
  {
    var n := |s.paramTypes|;
    var a1 := if s.named.Some? then [Ann(s.name, n, FlagAnn(s.named.value.consoleFormat))] else [];
    var a2 := if s.dynamic.Some? then [Ann(s.name, n, FlagAnn(s.dynamic.value.consoleFormat))] else [];
    var a3 := if s.positional.Some? then [Ann(s.name, n, PositionAnn(s.positional.value.position))] else [];
    assert AnnotationsOf(s) == a1 + a2 + a3;
    PositionsAppend(a1 + a2, a3);
    PositionsAppend(a1, a2);
    assert Positions(a1) == [] && Positions(a2) == [];
  }

  /** How many methods carry a PositionalInput annotation. */
  function PositionalCount(ss: seq<Setter>): nat {
    if |ss| == 0 then 0 else PositionalCount(ss[..|ss| - 1]) + (if ss[|ss| - 1].positional.Some? then 1 else 0)
  }

  /** loadReadableFields keeps at most one positional name per positional method. */
  lemma {:induction false} LoadPositionalCount(ss: seq<Setter>)
    ensures |Load(ss).positionalDescriptions| <= PositionalCount(ss)
  {
    if |ss| > 0 {
      var init := ss[..|ss| - 1];
      var s := ss[|ss| - 1];
      RecordFields(Load(init), s);
      LoadPositionalCount(init);
      if s.positional.Some? {
        var m := Load(init).positionalDescriptions;
        var r := Put(m, s.positional.value.name, s.positional.value.description);
        assert |Keys(r)| <= |Keys(m)| + 1;
      }
    }
  }

  lemma {:induction false} PositionsCount(ss: seq<Setter>)
    ensures |Positions(Anns(ss))| == PositionalCount(ss)
  {
    if |ss| > 0 {
      var init := ss[..|ss| - 1];
      var s := ss[|ss| - 1];
      AnnsSnoc(ss);
      PositionsAppend(Anns(init), AnnotationsOf(s));
      PositionsCount(init);
      AnnotationPositions(s);
    }
  }

  lemma {:induction false} AnnsSnoc(ss: seq<Setter>)
    requires |ss| > 0
    ensures Anns(ss) == Anns(ss[..|ss| - 1]) + AnnotationsOf(ss[|ss| - 1])
  {
    if |ss| > 1 {
      var t := ss[1..];
      assert t[..|t| - 1] == ss[..|ss| - 1][1..];
      assert t[|t| - 1] == ss[|ss| - 1];
      AnnsSnoc(t);
      assert Anns(ss[..|ss| - 1]) == AnnotationsOf(ss[0]) + Anns(ss[..|ss| - 1][1..]);
    } else {
      assert ss[..0] == [];
      assert Anns(ss[1..]) == [];
    }
  }

  /** The positional loop of readParams never finds a position missing when 1..k all have setters. */
  lemma {:induction false} PositionalsNeverMissing(t: Tables, params: seq<string>, i: nat, st: BindState)
    requires forall j :: i < j <= NumPositionals(t) ==> j in t.positional
    ensures PositionalsFrom(t, params, i, st).error != Some(PositionalMissing)
    decreases NumPositionals(t) - i
  {
    if i < NumPositionals(t) && i < |params| {
      match SetFromText(t.positional[i + 1], params[i]) {
        case Err(e) =>
          assert e != PositionalMissing;
        case Ok(c) =>
          PositionalsNeverMissing(t, params, i + 1, st.(calls := st.calls + [c]));
      }
    }
  }

  /**
   * With the positions checked as a list, a registered command has setters
   * for all positions 1..k that readParams binds, so its positional phase
   * never fails for want of a setter.
   */
  lemma CorrectedPositionsBind(ss: seq<Setter>, params: seq<string>, st: BindState)
    requires Correctness(ss) == None
    ensures PositionalsFrom(Load(ss), params, 0, st).error != Some(PositionalMissing)
  {
    var t := Load(ss);
    var ps := Positions(Anns(ss));
    ScanAnnsOk(Anns(ss), {}, []);
    assert [] + ps == ps;
    assert Covers(ps);
    LoadPositionalCount(ss);
    PositionsCount(ss);
    forall j | 0 < j <= NumPositionals(t) ensures j in t.positional {
      assert j in ps;
      PositionsDeclared(ss, j);
      LoadPositionKeys(ss, j);
    }
    PositionalsNeverMissing(t, params, 0, st);
  }

  /** Two String setters declared at position 1 under different names. */
  const RepeatedPosition: seq<Setter> := [
    Setter("setFirst", [StringClass], None, None, Some(PositionalAnn(1, "first", ""))),
    Setter("setSecond", [StringClass], None, None, Some(PositionalAnn(1, "second", "")))]

  /**
   * As written, checkCommandCorrectness accepts a repeated position, although
   * the PositionalInput documentation says repeated numbers throw; the command
   * then counts two positional names but has a setter for position 1 only, so
   * every binding fails. The check on the list of positions rejects it.
   */
  lemma RepeatedPositionAccepted(params: seq<string>, store: map<string, Value>, st: BindState)
    ensures CorrectnessAsWritten(RepeatedPosition) == None
    ensures Correctness(RepeatedPosition) == Some(BadPositions)
    ensures Bind(Load(RepeatedPosition), params, store, st).error.Some?
    ensures |params| > 0 ==> Bind(Load(RepeatedPosition), params, store, st).error == Some(PositionalMissing)
  {
    RepeatedPositionScan();
    RepeatedPositionMissing(params, st);
  }

  /** So the constructor registers a class declaring position 1 twice, which no call can then bind. */
  lemma RepeatedPositionRegistered(c: CommandType)
    requires c.setters == RepeatedPosition && !c.isAbstract
    ensures var m := Registry([c], c.consoleName.Some?); RegisteredName(c) in m && m[RegisteredName(c)] == c
  {
    RepeatedPositionScan();
    assert [c][..0] == [];
  }

  lemma RepeatedPositionMissing(params: seq<string>, st: BindState)
    ensures PositionalsFrom(Load(RepeatedPosition), params, 0, st).error.Some?
    ensures |params| > 0 ==> PositionalsFrom(Load(RepeatedPosition), params, 0, st).error == Some(PositionalMissing)
  {
    RepeatedPositionTables();
    var t := Load(RepeatedPosition);
    if |params| > 0 {
      var c := Call("setSecond", VString(params[0]));
      assert SetFromText(RepeatedPosition[1], params[0]) == Ok(c);
      assert PositionalsFrom(t, params, 1, st.(calls := st.calls + [c])).error == Some(PositionalMissing);
    }
  }

  lemma RepeatedPositionAnns()
    ensures Anns(RepeatedPosition) == [Ann("setFirst", 1, PositionAnn(1)), Ann("setSecond", 1, PositionAnn(1))]
  {
    var ss := RepeatedPosition;
    var x := Ann("setFirst", 1, PositionAnn(1));
    var y := Ann("setSecond", 1, PositionAnn(1));
    assert AnnotationsOf(ss[0]) == [x];
    assert AnnotationsOf(ss[1]) == [y];
    assert Anns(ss[1..]) == [y] by { assert ss[1..][1..] == []; }
  }

  /** Two annotations of position 1 scan to the positions [1, 1]. */
  lemma TwoFirstPositionsScan(x: Ann, y: Ann)
    requires x.arity == 1 && x.kind == PositionAnn(1) && y.arity == 1 && y.kind == PositionAnn(1)
    ensures ScanAnns([x, y], {}, []) == Ok([1, 1])
  {
    assert ScanAnns([], {}, [1, 1]) == Ok([1, 1]);
    assert ScanAnns([y], {}, [1]) == ScanAnns([], {}, [1, 1]) by {
      assert [y][1..] == [] && [1] + [1] == [1, 1];
    }
    assert ScanAnns([x, y], {}, []) == ScanAnns([y], {}, [1]) by {
      assert [x, y][1..] == [y] && [] + [1] == [1];
    }
  }

  /** The set of the positions [1, 1] passes checkPositions, the list does not. */
  lemma RepeatedOneCovers()
    ensures CoversSet(Elems([1, 1])) && !Covers([1, 1])
  {
    var ps := [1, 1];
    assert Elems(ps) == {1} by {
      forall v ensures v in Elems(ps) <==> v == 1 {
        if v == 1 { assert ps[0] == v; }
      }
    }
    assert CoversSet({1});
    assert !Covers(ps) by { assert 2 !in ps; }
  }

  lemma RepeatedPositionScan()
    ensures ScanAnns(Anns(RepeatedPosition), {}, []) == Ok([1, 1])
    ensures CorrectnessAsWritten(RepeatedPosition) == None
    ensures Correctness(RepeatedPosition) == Some(BadPositions)
  {
    RepeatedPositionAnns();
    TwoFirstPositionsScan(Ann("setFirst", 1, PositionAnn(1)), Ann("setSecond", 1, PositionAnn(1)));
    RepeatedOneCovers();
  }

  lemma RepeatedPositionTables()
    ensures Load(RepeatedPosition).positional == map[1 := RepeatedPosition[1]]
    ensures NumPositionals(Load(RepeatedPosition)) == 2
  {
    var s0, s1 := RepeatedPosition[0], RepeatedPosition[1];
    assert RepeatedPosition == [s0, s1];
    LoadTwoPositional(s0, s1);
    assert map[1 := s0][1 := s1] == map[1 := s1];
  }

  // -------------------------------------------------- the service's state

  /** One history entry: the line hist shows, and the tokens it replays. */
  datatype HistoryEntry = HistoryEntry(line: string, args: seq<string>)

  /** A command's execute(), given its class, the setter calls binding made, and the store. */
  type Executor = (CommandType, seq<Call>, map<string, Value>) -> Execution

  /** Each token with every "=%=" removed, as a console run records it. */
  function Decoded(args: seq<string>): (r: seq<string>)
    ensures |r| == |args|
    ensures forall i :: 0 <= i < |args| ==> r[i] == Replace(args[i], CommandSeparator, "")
  {
    seq(|args|, i requires 0 <= i < |args| => Replace(args[i], CommandSeparator, ""))
  }

  /** The class args[0], lower-cased, names in a command map. */
  function Lookup(commands: map<string, CommandType>, args: seq<string>): Option<CommandType> {
    if |args| == 0 || Lower(args[0]) !in commands then None else Some(commands[Lower(args[0])])
  }

  /**
   * What runCommand returns once a class is found: a fresh instance binds the
   * tokens; ERROR if binding or execute() fails, else the loaded object of a
   * LoaderCommand, else a plain new Object().
   */
  function RunResult(decl: CommandType, params: seq<string>, store: map<string, Value>, execute: Executor): Value {
    var t := Load(decl.setters);
    var o := Bind(t, params, store, BindState(t.named, []));
    if o.error.Some? then VError
    else match execute(decl, o.state.calls, store)
      case Completed(v) => if decl.isLoader then v else VPlain
      case _ => VError
  }

  /** runCommand(args, store, console) on the commands of the chosen map. */
  function RunValue(commands: map<string, CommandType>, args: seq<string>, store: map<string, Value>, execute: Executor): Value {
    match Lookup(commands, args)
    case None => VError
    case Some(decl) => RunResult(decl, args[1..], store, execute)
  }

  /** The history after a console line: it is recorded when it names a known command. */
  function AfterConsoleLine(commands: map<string, CommandType>, history: seq<HistoryEntry>, args: seq<string>): seq<HistoryEntry> {
    if Lookup(commands, args).Some? then history + [HistoryEntry(StringUtils.Joined(Decoded(args), " "), args)] else history
  }

  /** The name a class is registered under by the constructor. */
  function RegisteredName(c: CommandType): string {
    if c.consoleName.Some? then Lower(c.consoleName.value) else Lower(c.simpleName)
  }

  /** Whether the constructor puts the class in the console map (console) or the loaded map. */
  predicate Registrable(c: CommandType, console: bool) {
    !c.isAbstract && c.consoleName.Some? == console && CorrectnessAsWritten(c.setters) == None
  }

  /** The map the constructor builds from the classes found, in the order found. */
  function Registry(classes: seq<CommandType>, console: bool): map<string, CommandType> {
    if |classes| == 0 then map[]
    else
      var m := Registry(classes[..|classes| - 1], console);
      var c := classes[|classes| - 1];
      if Registrable(c, console) then m[RegisteredName(c) := c] else m
  }

  /** A name is registered iff some class found is registrable in that map and registers under it. */
  lemma {:induction false} RegistryKeys(classes: seq<CommandType>, console: bool, k: string)
    ensures k in Registry(classes, console) <==>
      exists i :: 0 <= i < |classes| && Registrable(classes[i], console) && RegisteredName(classes[i]) == k
  {
    if |classes| > 0 {
      var init := classes[..|classes| - 1];
      RegistryKeys(init, console, k);
      if k in Registry(init, console) {
        var i :| 0 <= i < |init| && Registrable(init[i], console) && RegisteredName(init[i]) == k;
        assert classes[i] == init[i];
      }
      if exists i :: 0 <= i < |classes| && Registrable(classes[i], console) && RegisteredName(classes[i]) == k {
        var i :| 0 <= i < |classes| && Registrable(classes[i], console) && RegisteredName(classes[i]) == k;
        if i < |init| {
          assert init[i] == classes[i];
        }
      }
    }
  }

  /**
   * Every registered class passed the check, is not abstract, sits in the map
   * its ConsoleCommand annotation chooses, and is registered under its own
   * name, which is lower-case.
   */
  lemma {:induction false} RegistryEntries(classes: seq<CommandType>, console: bool)
    ensures forall k :: k in Registry(classes, console) ==>
      Registrable(Registry(classes, console)[k], console) && RegisteredName(Registry(classes, console)[k]) == k && Lower(k) == k
  {
    if |classes| > 0 {
      RegistryEntries(classes[..|classes| - 1], console);
      var c := classes[|classes| - 1];
      if c.consoleName.Some? {
        LowerIdempotent(c.consoleName.value);
      } else {
        LowerIdempotent(c.simpleName);
      }
    }
  }

  /** Of several registrable classes with one name, the last found wins. */
  lemma {:induction false} RegistryLastWins(classes: seq<CommandType>, console: bool, i: nat)
    requires i < |classes| && Registrable(classes[i], console)
    requires forall j :: i < j < |classes| ==> !(Registrable(classes[j], console) && RegisteredName(classes[j]) == RegisteredName(classes[i]))
    ensures var m := Registry(classes, console); RegisteredName(classes[i]) in m && m[RegisteredName(classes[i])] == classes[i]
    decreases |classes|
  {
    if i < |classes| - 1 {
      var init := classes[..|classes| - 1];
      forall j | i < j < |init|
        ensures !(Registrable(init[j], console) && RegisteredName(init[j]) == RegisteredName(init[i]))
      {
        assert init[j] == classes[j];
      }
      RegistryLastWins(init, console, i);
    }
  }

  /** runCommand's lookup ignores the case of the command name. */
  lemma LookupIgnoresCase(commands: map<string, CommandType>, args: seq<string>, name: string)
    requires |args| > 0 && Lower(name) == Lower(args[0])
    ensures Lookup(commands, [name] + args[1..]) == Lookup(commands, args)
  {
    assert ([name] + args[1..])[0] == name;
  }

  /**
   * runCommand returns ERROR exactly when the name is unknown, binding fails,
   * execute() throws, or a loader's object is itself ERROR; a command that is
   * not a loader otherwise returns a plain new Object().
   */
  lemma RunValueError(commands: map<string, CommandType>, args: seq<string>, store: map<string, Value>, execute: Executor)
    ensures var v := RunValue(commands, args, store, execute);
      var d := Lookup(commands, args);
      v == VError <==>
        d.None? ||
        (var t := Load(d.value.setters);
         var o := Bind(t, args[1..], store, BindState(t.named, []));
         o.error.Some? || !execute(d.value, o.state.calls, store).Completed? ||
         (d.value.isLoader && execute(d.value, o.state.calls, store).loaded == VError))
    ensures var v := RunValue(commands, args, store, execute);
      var d := Lookup(commands, args);
      v != VError && d.Some? && !d.value.isLoader ==> v == VPlain
  {
  }

  class ExecutionService {
    var loadedCommands: map<string, CommandType>
    var consoleCommands: map<string, CommandType>
    var dynamicObjects: map<string, Value>
    var history: seq<HistoryEntry>
    /** What every command's execute() does. */
    const execute: Executor

    /**
     * The constructor: every non-abstract Command subclass found is checked and
     * registered, a ConsoleCommand under its console name, any other under its
     * lower-cased simple name; a class that fails the check is logged and
     * skipped.
     */
    constructor (classes: seq<CommandType>, execute: Executor)
      ensures this.execute == execute
      ensures consoleCommands == Registry(classes, true) && loadedCommands == Registry(classes, false)
      ensures dynamicObjects == map[] && history == []
    {
      this.execute := execute;
      loadedCommands, consoleCommands, dynamicObjects, history := map[], map[], map[], [];
      new;
      var i := 0;
      while i < |classes|
        invariant 0 <= i <= |classes|
        invariant consoleCommands == Registry(classes[..i], true) && loadedCommands == Registry(classes[..i], false)
        invariant dynamicObjects == map[] && history == [] && this.execute == execute
      {
        var cmd := classes[i];
        assert classes[..i + 1][..i] == classes[..i];
        if !cmd.isAbstract {
          if cmd.consoleName.Some? {
            var err := AddCommand(cmd.consoleName.value, cmd, true);
          } else {
            var err := AddExecutableCommand(Lower(cmd.simpleName), cmd);
            LowerIdempotent(cmd.simpleName);
          }
        }
        i := i + 1;
      }
      assert classes[..|classes|] == classes;
    }

    /** addExecutableCommand(name, c): addCommand on the loaded map. */
    method AddExecutableCommand(name: string, c: CommandType) returns (err: Option<DeclError>)
      modifies this
      ensures err == CorrectnessAsWritten(c.setters)
      ensures loadedCommands == if err.None? then old(loadedCommands)[Lower(Lower(name)) := c] else old(loadedCommands)
      ensures consoleCommands == old(consoleCommands)
      ensures dynamicObjects == old(dynamicObjects) && history == old(history)
    {
      err := AddCommand(Lower(name), c, false);
    }

    /** addCommand(name, c, commands): the check first, then the insertion under the lower-cased name. */
    method AddCommand(name: string, c: CommandType, console: bool) returns (err: Option<DeclError>)
      modifies this
      ensures err == CorrectnessAsWritten(c.setters)
      ensures consoleCommands == if console && err.None? then old(consoleCommands)[Lower(name) := c] else old(consoleCommands)
      ensures loadedCommands == if !console && err.None? then old(loadedCommands)[Lower(name) := c] else old(loadedCommands)
      ensures dynamicObjects == old(dynamicObjects) && history == old(history)
    {
      err := CheckCommandCorrectness(c);
      if err.Some? {
        return;
      }
      if console {
        consoleCommands := consoleCommands[Lower(name) := c];
      } else {
        loadedCommands := loadedCommands[Lower(name) := c];
      }
    }

    /** removeExecutableCommand(name): the name is removed as given, without lower-casing. */
    method RemoveExecutableCommand(name: string)
      modifies this
      ensures loadedCommands == old(loadedCommands) - {name}
      ensures consoleCommands == old(consoleCommands)
      ensures dynamicObjects == old(dynamicObjects) && history == old(history)
    {
      loadedCommands := loadedCommands - {name};
    }

    /** clearCommands(): only the loaded commands go. */
    method ClearCommands()
      modifies this
      ensures loadedCommands == map[]
      ensures consoleCommands == old(consoleCommands)
      ensures dynamicObjects == old(dynamicObjects) && history == old(history)
    {
      loadedCommands := map[];
    }

    method ClearHistory()
      modifies this
      ensures history == []
      ensures loadedCommands == old(loadedCommands) && consoleCommands == old(consoleCommands)
      ensures dynamicObjects == old(dynamicObjects)
    {
      history := [];
    }

    /** runCommand(args): a loaded (non-console) command on the service's store. */
    method RunCommand(args: seq<string>) returns (r: Value)
      modifies this
      ensures r == RunValue(old(loadedCommands), args, old(dynamicObjects), execute)
      ensures history == old(history)
      ensures loadedCommands == old(loadedCommands) && consoleCommands == old(consoleCommands)
      ensures dynamicObjects == old(dynamicObjects)
    {
      r := RunCommandWith(args, dynamicObjects, false);
    }

    /** runCommand(args, console) on the service's store. */
    method RunCommandAs(args: seq<string>, console: bool) returns (r: Value)
      modifies this
      ensures var commands := if console then old(consoleCommands) else old(loadedCommands);
        r == RunValue(commands, args, old(dynamicObjects), execute) &&
        history == if console && Lookup(commands, args).Some?
          then old(history) + [HistoryEntry(StringUtils.Joined(Decoded(args), " "), args)]
          else old(history)
      ensures loadedCommands == old(loadedCommands) && consoleCommands == old(consoleCommands)
      ensures dynamicObjects == old(dynamicObjects)
    {
      r := RunCommandWith(args, dynamicObjects, console);
    }

    /** The loop of runCommand that takes the command separator out of every token. */
    method DecodeArgs(args: seq<string>) returns (decoded: seq<string>)
      ensures decoded == Decoded(args)
    {
      decoded := [];
      for i := 0 to |args|
        invariant decoded == Decoded(args[..i])
      {
        assert Decoded(args[..i + 1]) == Decoded(args[..i]) + [Replace(args[i], CommandSeparator, "")];
        decoded := decoded + [Replace(args[i], CommandSeparator, "")];
      }
      assert args[..|args|] == args;
    }

    /**
     * runCommand(args, store, console): resolve args[0] (lower-cased) in the
     * chosen map; a console run records its line in the history once the name
     * resolves, before the command runs; the command gets args[1..].
     */
    method RunCommandWith(args: seq<string>, store: map<string, Value>, console: bool) returns (r: Value)
      modifies this
      ensures var commands := if console then old(consoleCommands) else old(loadedCommands);
        r == RunValue(commands, args, store, execute) &&
        history == if console && Lookup(commands, args).Some?
          then old(history) + [HistoryEntry(StringUtils.Joined(Decoded(args), " "), args)]
          else old(history)
      ensures loadedCommands == old(loadedCommands) && consoleCommands == old(consoleCommands)
      ensures dynamicObjects == old(dynamicObjects)
    {
      var decl: CommandType;
      if console {
        var decoded := DecodeArgs(args);
        if |args| == 0 || Lower(args[0]) !in consoleCommands {
          return VError;
        }
        decl := consoleCommands[Lower(args[0])];
        var line := StringUtils.Join(decoded, " ");
        history := history + [HistoryEntry(line.value, args)];
      } else {
        if |args| == 0 || Lower(args[0]) !in loadedCommands {
          return VError;
        }
        decl := loadedCommands[Lower(args[0])];
      }
      var c := new Command(decl);
      var res := c.Exec(args[1..], store, execute);
      r := match res
        case BindFailed(_) => VError
        case Ran(Completed(v)) => if decl.isLoader then v else VPlain
        case Ran(_) => VError;
    }
  }
}
