/**
 * global/Command.java: the base class of the console's commands. Its
 * constructor collects the annotated setters into tables (loadReadableFields);
 * exec(params, store) binds the tokens to the setters (readParams) and only then
 * runs the command's own execute().
 *
 * Binding has three phases, each a loop of readParams:
 *  1. the first k tokens, k the number of distinct positional names, go to the
 *     setters at positions 1..k;
 *  2. every later token must be a pending named flag (a boolean switch, or a
 *     flag followed by its value) or a dynamic flag followed by the name of a
 *     stored object; a named flag stops being pending once used;
 *  3. every named flag still pending is either mandatory (an error) or set
 *     from its default text.
 * Setters are abstract: invoking one is recorded as a Call.
 */
module GlobalCommand {
  import opened Wrappers
  import opened JavaLang
  import opened JavaTypes
  import opened Coercion
  import opened Declarations

  /** One Method.invoke(this, value) on a setter. */
  datatype Call = Call(setter: string, value: Value)

  /** Why readParams gave up; all but Unexpected are WrongParameterExceptions. */
  datatype BindError =
    | PositionalMissing                  // no setter for one of the positions 1..k
    | IndexOutOfRange                    // ArrayIndexOutOfBoundsException, reported as "Positional parameters are all mandatory."
    | CallFailed(setter: string)         // IllegalArgumentException (NumberFormatException included) while setting
    | NotRecognized(target: JType)       // checkInputClass cannot build that type
    | MissingVariableName(flag: string)  // a dynamic flag is the last token
    | NotValidVariable(token: string)    // the stored object is missing (the message names the token after it)
    | NotValidParameter(token: string)   // a token that is no pending named flag and no dynamic flag
    | Mandatory(flag: string)            // a mandatory named flag was never given
    | Unexpected                         // StringIndexOutOfBoundsException from a char parameter given ""

  predicate IsWrongParameter(e: BindError) { !e.Unexpected? }

  /** The named parameters still pending and the setter calls made so far. */
  datatype BindState = BindState(pending: Assoc<NamedEntry>, calls: seq<Call>)

  datatype Outcome = Outcome(state: BindState, error: Option<BindError>)

  /** Method.invoke with one argument: the setter must take exactly one parameter that accepts the value. */
  function Invoke(s: Setter, v: Value): (r: Option<Call>)
    ensures r.Some? <==> |s.paramTypes| == 1 && Assignable(v, s.paramTypes[0])
    ensures r.Some? ==> r.value == Call(s.name, v)
  {
    if |s.paramTypes| == 1 && Assignable(v, s.paramTypes[0]) then Some(Call(s.name, v)) else None
  }

  /** How a checkInputClass failure surfaces from readParams. */
  function FromCoerce(e: CoerceError, s: Setter): BindError {
    match e
    case NumberFormat(_) => CallFailed(s.name)
    case NoFirstChar => Unexpected
    case Unrecognized(t) => NotRecognized(t)
  }

  /**
   * method.invoke(this, checkInputClass(method.getParameterTypes()[0], text)):
   * the step shared by positional parameters, valued flags and defaults.
   */
  function SetFromText(s: Setter, text: string): (r: Result<Call, BindError>)
    ensures r.Ok? ==> |s.paramTypes| == 1 && Coerce(s.paramTypes[0], text).Ok? &&
                      r.value == Call(s.name, Coerce(s.paramTypes[0], text).value)
  {
    if |s.paramTypes| == 0 then Err(IndexOutOfRange)
    else match Coerce(s.paramTypes[0], text)
      case Err(e) => Err(FromCoerce(e, s))
      case Ok(v) => if Invoke(s, v).Some? then Ok(Invoke(s, v).value) else Err(CallFailed(s.name))
  }

  /** A named flag whose setter takes a primitive boolean: given alone, it sets true. */
  predicate IsSwitch(e: NamedEntry) { |e.setter.paramTypes| > 0 && e.setter.paramTypes[0] == Primitive(PBoolean) }

  function Fail(st: BindState, e: BindError): Outcome { Outcome(st, Some(e)) }

  function NumPositionals(t: Tables): nat { |t.positionalDescriptions| }

  // ---------------------------------------------------------------- phase 1

  /** Positions i+1..k, bound from params[i..k-1]. */
  function PositionalsFrom(t: Tables, params: seq<string>, i: nat, st: BindState): Outcome
    decreases NumPositionals(t) - i
  {
    if i >= NumPositionals(t) then Outcome(st, None)
    else if i + 1 !in t.positional then Fail(st, PositionalMissing)
    else if i >= |params| then Fail(st, IndexOutOfRange)
    else match SetFromText(t.positional[i + 1], params[i])
      case Err(e) => Fail(st, e)
      case Ok(c) => PositionalsFrom(t, params, i + 1, st.(calls := st.calls + [c]))
  }

  // ---------------------------------------------------------------- phase 2

  /** Where one step of the scan leaves it: stopped with an error, or at token `next`. */
  datatype Step = Stop(outcome: Outcome) | Next(next: nat, state: BindState)

  /** The calls of `b` begin with those of `a`. */
  predicate IsPrefix(a: seq<Call>, b: seq<Call>) { |a| <= |b| && b[..|a|] == a }

  /** One iteration of the scan, at token i. */
  function ScanStep(t: Tables, params: seq<string>, store: map<string, Value>, i: nat, st: BindState): (r: Step)
    requires i < |params|
    ensures r.Stop? ==> r.outcome.error.Some?
    ensures r.Next? ==> i < r.next <= |params| && |r.state.calls| == |st.calls| + 1 && IsPrefix(st.calls, r.state.calls)
    ensures r.Next? ==> r.state.pending == st.pending || r.state.pending == Remove(st.pending, params[i])
  {
    var token := params[i];
    if HasKey(st.pending, token) then
      var e := Get(st.pending, token);
      var st1 := st.(pending := Remove(st.pending, token));
      if |e.setter.paramTypes| == 0 then Stop(Fail(st1, IndexOutOfRange))
      else if IsSwitch(e) then
        match Invoke(e.setter, VBool(true))
        case None => Stop(Fail(st1, CallFailed(e.setter.name)))
        case Some(c) => Next(i + 1, st1.(calls := st1.calls + [c]))
      else if i + 1 >= |params| then Stop(Fail(st1, IndexOutOfRange))
      else match SetFromText(e.setter, params[i + 1])
        case Err(err) => Stop(Fail(st1, err))
        case Ok(c) => Next(i + 2, st1.(calls := st1.calls + [c]))
    else if token in t.dynamic then
      if i + 1 >= |params| then Stop(Fail(st, MissingVariableName(token)))
      else
        var s := t.dynamic[token];
        var key := params[i + 1];
        if key !in store || store[key] == VNull then
          Stop(Fail(st, if i + 2 < |params| then NotValidVariable(params[i + 2]) else IndexOutOfRange))
        else match Invoke(s, store[key])
          case None => Stop(Fail(st, CallFailed(s.name)))
          case Some(c) => Next(i + 2, st.(calls := st.calls + [c]))
    else Stop(Fail(st, NotValidParameter(token)))
  }

  /** The scan over params[i..]. */
  function ScanFrom(t: Tables, params: seq<string>, store: map<string, Value>, i: nat, st: BindState): Outcome
    decreases |params| - i
  {
    if i >= |params| then Outcome(st, None)
    else match ScanStep(t, params, store, i, st)
      case Stop(o) => o
      case Next(j, st1) => ScanFrom(t, params, store, j, st1)
  }

  // ---------------------------------------------------------------- phase 3

  /** The defaults pass over the named flags still pending (`rest` is what is left of that list). */
  function DefaultsOf(rest: Assoc<NamedEntry>, st: BindState): Outcome {
    if |rest| == 0 then Outcome(st, None)
    else
      var e := rest[0].1;
      if e.ann.mandatory then Fail(st, Mandatory(e.ann.consoleFormat))
      else match SetFromText(e.setter, e.ann.defaultValue)
        case Err(err) => Fail(st, err)
        case Ok(c) => DefaultsOf(rest[1..], st.(calls := st.calls + [c]))
  }

  /** readParams(params, store) from the state `st0` (its pending flags and previous calls). */
  function Bind(t: Tables, params: seq<string>, store: map<string, Value>, st0: BindState): Outcome {
    var p := PositionalsFrom(t, params, 0, st0);
    if p.error.Some? then p
    else
      var s := ScanFrom(t, params, store, NumPositionals(t), p.state);
      if s.error.Some? then s
      else DefaultsOf(s.state.pending, s.state)
  }

  // ------------------------------------------------------------ the command

  /** What a command's execute() does with its bound parameters. */
  datatype Execution =
    | Completed(loaded: Value)   // returned normally; `loaded` is getObject() for a LoaderCommand
    | ExecutionFailed            // threw ExecutionException
    | Crashed                    // threw some other exception

  /** What exec(params, store) ends in. */
  datatype ExecResult = BindFailed(error: BindError) | Ran(execution: Execution)

  class Command {
    const decl: CommandType
    var descriptions: Assoc<string>
    var dynamicDescriptions: Assoc<string>
    var positionalDescriptions: Assoc<string>
    var namedParameters: Assoc<NamedEntry>
    var dynamicParameters: map<string, Setter>
    var positionalParameters: map<int, Setter>
    /** The setter calls made on this instance, oldest first. */
    var calls: seq<Call>

    function Tables(): Tables
      reads this
    {
      Declarations.Tables(descriptions, dynamicDescriptions, positionalDescriptions,
                          namedParameters, dynamicParameters, positionalParameters)
    }

    /** `new` on a command class: the constructor runs loadReadableFields. */
    constructor (ct: CommandType)
      ensures decl == ct && Tables() == Load(ct.setters) && calls == []
    {
      decl := ct;
      calls := [];
      new;
      LoadReadableFields();
    }

    /** Fills the six tables from the annotated methods, in getMethods() order. */
    method LoadReadableFields()
      modifies this
      ensures Tables() == Load(decl.setters) && calls == old(calls)
    {
      var ms := decl.setters;
      descriptions, dynamicDescriptions, positionalDescriptions := [], [], [];
      namedParameters, dynamicParameters, positionalParameters := [], map[], map[];
      var i := 0;
      while i < |ms|
        invariant 0 <= i <= |ms|
        invariant Tables() == Load(ms[..i]) && calls == old(calls)
      {
        var s := ms[i];
        if s.named.Some? {
          var a := s.named.value;
          descriptions := Put(descriptions, a.consoleFormat, NamedDescription(a));
          namedParameters := Put(namedParameters, a.consoleFormat, NamedEntry(s, a));
        }
        if s.dynamic.Some? {
          var d := s.dynamic.value;
          dynamicDescriptions := Put(dynamicDescriptions, d.consoleFormat, d.description);
          dynamicParameters := dynamicParameters[d.consoleFormat := s];
        }
        if s.positional.Some? {
          var p := s.positional.value;
          positionalDescriptions := Put(positionalDescriptions, p.name, p.description);
          positionalParameters := positionalParameters[p.position := s];
        }
        LoadSnoc(ms, i);
        RecordFields(Load(ms[..i]), s);
        i := i + 1;
      }
      assert ms[..|ms|] == ms;
    }

    /**
     * readParams: binds the tokens, leaving the pending flags and the calls made
     * (also those made before a failure) as Bind describes.
     */
    method ReadParams(params: seq<string>, store: map<string, Value>) returns (err: Option<BindError>)
      modifies this
      ensures var o := Bind(old(Tables()), params, store, BindState(old(namedParameters), old(calls)));
        err == o.error && namedParameters == o.state.pending && calls == o.state.calls
      ensures descriptions == old(descriptions) && dynamicDescriptions == old(dynamicDescriptions)
      ensures positionalDescriptions == old(positionalDescriptions)
      ensures dynamicParameters == old(dynamicParameters) && positionalParameters == old(positionalParameters)
    {
      var t := Tables();
      var st0 := BindState(namedParameters, calls);
      var k := |positionalDescriptions|;
      var i := 0;
      while i < k
        invariant 0 <= i <= k && Tables().(named := t.named) == t && namedParameters == t.named
        invariant PositionalsFrom(t, params, i, BindState(namedParameters, calls)) == PositionalsFrom(t, params, 0, st0)
      {
        if i + 1 !in positionalParameters {
          return Some(PositionalMissing);
        }
        var s := positionalParameters[i + 1];
        if i >= |params| {
          return Some(IndexOutOfRange);
        }
        var c := SetParameter(s, params[i]);
        if c.Err? {
          return Some(c.error);
        }
        calls := calls + [c.value];
        i := i + 1;
      }
      var st1 := BindState(namedParameters, calls);
      assert PositionalsFrom(t, params, 0, st0) == Outcome(st1, None);
      err := Scan(t, params, store, k);
      if err.Some? {
        return;
      }
      var st2 := BindState(namedParameters, calls);
      err := ApplyDefaults();
      assert Bind(t, params, store, st0) == DefaultsOf(st2.pending, st2);
    }

    /** setter.invoke(this, checkInputClass(setter's parameter type, text)). */
    static method SetParameter(s: Setter, text: string) returns (r: Result<Call, BindError>)
      ensures r == SetFromText(s, text)
    {
      if |s.paramTypes| == 0 {
        return Err(IndexOutOfRange);
      }
      var v := CheckInputClass(s.paramTypes[0], text);
      if v.Err? {
        return Err(FromCoerce(v.error, s));
      }
      var c := Invoke(s, v.value);
      if c.None? {
        return Err(CallFailed(s.name));
      }
      r := Ok(c.value);
    }

    /** The second loop of readParams, over params[k..]. */
    method Scan(t: Tables, params: seq<string>, store: map<string, Value>, k: nat) returns (err: Option<BindError>)
      requires t.dynamic == dynamicParameters
      modifies this
      ensures var o := ScanFrom(t, params, store, k, BindState(old(namedParameters), old(calls)));
        err == o.error && namedParameters == o.state.pending && calls == o.state.calls
      ensures Tables().(named := old(namedParameters)) == old(Tables())
    {
      var st0 := BindState(namedParameters, calls);
      var i := k;
      while i < |params|
        invariant Tables().(named := old(namedParameters)) == old(Tables())
        invariant ScanFrom(t, params, store, i, BindState(namedParameters, calls)) == ScanFrom(t, params, store, k, st0)
        decreases |params| - i
      {
        var token := params[i];
        if HasKey(namedParameters, token) {
          var e := Get(namedParameters, token);
          namedParameters := Remove(namedParameters, token);
          if |e.setter.paramTypes| == 0 {
            return Some(IndexOutOfRange);
          }
          if IsSwitch(e) {
            var c := Invoke(e.setter, VBool(true));
            if c.None? {
              return Some(CallFailed(e.setter.name));
            }
            calls := calls + [c.value];
            i := i + 1;
          } else {
            if i + 1 >= |params| {
              return Some(IndexOutOfRange);
            }
            var c := SetParameter(e.setter, params[i + 1]);
            if c.Err? {
              return Some(c.error);
            }
            calls := calls + [c.value];
            i := i + 2;
          }
        } else if token in dynamicParameters {
          if i + 1 >= |params| {
            return Some(MissingVariableName(token));
          }
          var s := dynamicParameters[token];
          var key := params[i + 1];
          if key !in store || store[key] == VNull {
            return Some(if i + 2 < |params| then NotValidVariable(params[i + 2]) else IndexOutOfRange);
          }
          var c := Invoke(s, store[key]);
          if c.None? {
            return Some(CallFailed(s.name));
          }
          calls := calls + [c.value];
          i := i + 2;
        } else {
          return Some(NotValidParameter(token));
        }
      }
      err := None;
    }

    /** The third loop of readParams, over the named flags still pending. */
    method ApplyDefaults() returns (err: Option<BindError>)
      modifies this
      ensures var o := DefaultsOf(old(namedParameters), BindState(old(namedParameters), old(calls)));
        err == o.error && namedParameters == o.state.pending && calls == o.state.calls
      ensures Tables() == old(Tables())
    {
      var names := namedParameters;
      var j := 0;
      while j < |names|
        invariant 0 <= j <= |names| && Tables() == old(Tables())
        invariant DefaultsOf(names[j..], BindState(names, calls)) == DefaultsOf(names, BindState(names, old(calls)))
      {
        var e := names[j].1;
        if e.ann.mandatory {
          return Some(Mandatory(e.ann.consoleFormat));
        }
        var c := SetParameter(e.setter, e.ann.defaultValue);
        if c.Err? {
          return Some(c.error);
        }
        calls := calls + [c.value];
        assert names[j..][1..] == names[j + 1..];
        j := j + 1;
      }
      err := None;
    }

    /**
     * exec(params, store): readParams, then execute() only if binding succeeded.
     * The command's execute() is the `execute` argument.
     */
    method Exec(params: seq<string>, store: map<string, Value>,
                execute: (CommandType, seq<Call>, map<string, Value>) -> Execution)
      returns (r: ExecResult)
      modifies this
      ensures var o := Bind(old(Tables()), params, store, BindState(old(namedParameters), old(calls)));
        namedParameters == o.state.pending && calls == o.state.calls &&
        r == if o.error.Some? then BindFailed(o.error.value) else Ran(execute(decl, o.state.calls, store))
      ensures descriptions == old(descriptions) && dynamicDescriptions == old(dynamicDescriptions)
      ensures positionalDescriptions == old(positionalDescriptions)
      ensures dynamicParameters == old(dynamicParameters) && positionalParameters == old(positionalParameters)
    {
      var err := ReadParams(params, store);
      if err.Some? {
        return BindFailed(err.value);
      }
      r := Ran(execute(decl, calls, store));
    }

    /** help(): the command's description, then a section per non-empty table. */
    method Help() returns (h: string)
      ensures h == HelpText(decl.description, Tables())
    {
      var positional, named, dynamic := "", "", "";
      if |positionalDescriptions| > 0 {
        var lines := AppendLines(positionalDescriptions);
        positional := "\npositional arguments:\n" + lines;
      }
      if |descriptions| > 0 {
        var lines := AppendLines(descriptions);
        named := "\nnamed arguments:\n" + lines;
      }
      if |dynamicDescriptions| > 0 {
        var lines := AppendLines(dynamicDescriptions);
        dynamic := "\nwhere the following are dynamic parameters\n" + lines;
      }
      h := decl.description + "\n" + positional + named + dynamic;
    }
  }

  /** The StringBuilder loop appending "key\tvalue\n" for every entry. */
  method AppendLines(m: Assoc<string>) returns (s: string)
    ensures s == Lines(m)
  {
    s := "";
    var i := 0;
    while i < |m|
      invariant 0 <= i <= |m| && s == Lines(m[..i])
    {
      assert m[..i + 1][..i] == m[..i];
      s := s + Line(m[i]);
      i := i + 1;
    }
    assert m[..|m|] == m;
  }

  function Section(header: string, m: Assoc<string>): string {
    if |m| == 0 then "" else header + Lines(m)
  }

  function HelpText(description: string, t: Tables): string {
    description + "\n"
    + Section("\npositional arguments:\n", t.positionalDescriptions)
    + Section("\nnamed arguments:\n", t.descriptions)
    + Section("\nwhere the following are dynamic parameters\n", t.dynamicDescriptions)
  }
}
