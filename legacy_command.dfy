/**
 * command/Command.java: the older command base class. It has no positional
 * parameters; every flag carries an arity (1: a switch set to true, 2: a flag
 * followed by its value). Its readParams looks at every token in turn: tokens
 * that match no flag are skipped, and the value token of a flag is looked at
 * again as a possible flag. Every failure is a WrongParameterException.
 */
module LegacyCommand {
  import opened Wrappers
  import opened JavaTypes
  import opened Coercion
  import opened Declarations
  import GlobalCommand
  import GlobalBinding

  /** Why readParams gave up; each one surfaces as a WrongParameterException. */
  datatype LegacyError =
    | ArityOverflow(flag: string)        // fewer tokens left than the flag's arity
    | BadArity(flag: string)             // an arity other than 1 or 2
    | IndexOutOfRange                    // a valued flag whose setter takes no parameter
    | NotRecognized(target: JType)       // every checkInputClass failure, parse errors included
    | CallFailed(setter: string)         // Method.invoke refused the value
    | MissingVariableName(flag: string)  // a dynamic flag is the last token
    | NotValidVariable(token: string)    // no stored object under that name
    | Mandatory(flag: string)            // a mandatory flag was never given

  datatype LegacyOutcome = LegacyOutcome(state: GlobalCommand.BindState, error: Option<LegacyError>)

  function Fail(st: GlobalCommand.BindState, e: LegacyError): LegacyOutcome { LegacyOutcome(st, Some(e)) }

  /** setter.invoke(this, checkInputClass(parameter type, text)), every failure caught. */
  function LegacySet(s: Setter, text: string): (r: Result<GlobalCommand.Call, LegacyError>)
    ensures r.Ok? ==> |s.paramTypes| == 1 && Coerce(s.paramTypes[0], text).Ok? &&
                      r.value == GlobalCommand.Call(s.name, Coerce(s.paramTypes[0], text).value)
    ensures r.Err? ==> r.error.IndexOutOfRange? || r.error.NotRecognized? || r.error.CallFailed?
  {
    if |s.paramTypes| == 0 then Err(IndexOutOfRange)
    else match Coerce(s.paramTypes[0], text)
      case Err(_) => Err(NotRecognized(s.paramTypes[0]))
      case Ok(v) => if GlobalCommand.Invoke(s, v).Some? then Ok(GlobalCommand.Invoke(s, v).value) else Err(CallFailed(s.name))
  }

  /** The loop over params[i..]; it always moves on by one token. */
  function ScanFrom(dynamic: map<string, Setter>, params: seq<string>, store: map<string, Value>, i: nat, st: GlobalCommand.BindState): LegacyOutcome
    decreases |params| - i
  {
    if i >= |params| then LegacyOutcome(st, None)
    else
      var token := params[i];
      if HasKey(st.pending, token) then
        var e := Get(st.pending, token);
        var n := e.ann.arity;
        if i + n > |params| then Fail(st, ArityOverflow(token))
        else if n == 2 then
          match LegacySet(e.setter, params[i + 1])
          case Err(err) => Fail(st, err)
          case Ok(c) => ScanFrom(dynamic, params, store, i + 1, GlobalCommand.BindState(Remove(st.pending, token), st.calls + [c]))
        else if n == 1 then
          match GlobalCommand.Invoke(e.setter, VBool(true))
          case None => Fail(st, CallFailed(e.setter.name))
          case Some(c) => ScanFrom(dynamic, params, store, i + 1, GlobalCommand.BindState(Remove(st.pending, token), st.calls + [c]))
        else Fail(st, BadArity(token))
      else if token in dynamic then
        if i + 1 >= |params| then Fail(st, MissingVariableName(token))
        else
          var s := dynamic[token];
          var key := params[i + 1];
          if key !in store || store[key] == VNull then Fail(st, NotValidVariable(key))
          else match GlobalCommand.Invoke(s, store[key])
            case None => Fail(st, CallFailed(s.name))
            case Some(c) => ScanFrom(dynamic, params, store, i + 1, st.(calls := st.calls + [c]))
      else ScanFrom(dynamic, params, store, i + 1, st)
  }

  /** The pass over the flags never given. */
  function DefaultsOf(rest: Assoc<NamedEntry>, st: GlobalCommand.BindState): LegacyOutcome {
    if |rest| == 0 then LegacyOutcome(st, None)
    else
      var e := rest[0].1;
      if e.ann.mandatory then Fail(st, Mandatory(e.ann.consoleFormat))
      else match LegacySet(e.setter, e.ann.defaultValue)
        case Err(err) => Fail(st, err)
        case Ok(c) => DefaultsOf(rest[1..], st.(calls := st.calls + [c]))
  }

  /** readParams(params, store) from the state `st0`. */
  function Bind(dynamic: map<string, Setter>, params: seq<string>, store: map<string, Value>, st0: GlobalCommand.BindState): LegacyOutcome {
    var s := ScanFrom(dynamic, params, store, 0, st0);
    if s.error.Some? then s else DefaultsOf(s.state.pending, s.state)
  }

  function HelpText(description: string, descriptions: Assoc<string>, dynamicDescriptions: Assoc<string>): string {
    description + "\n" + Lines(descriptions)
    + GlobalCommand.Section("\nwhere the following are dynamic parameters\n", dynamicDescriptions)
  }

  class Command {
    const decl: CommandType
    var descriptions: Assoc<string>
    var dynamicDescriptions: Assoc<string>
    var commandInputs: Assoc<NamedEntry>
    var dynamicInputs: map<string, Setter>
    var calls: seq<GlobalCommand.Call>

    /** The constructor runs loadReadableFields. */
    constructor (ct: CommandType)
      ensures decl == ct && calls == []
      ensures var t := Load(ct.setters);
        descriptions == t.descriptions && dynamicDescriptions == t.dynamicDescriptions &&
        commandInputs == t.named && dynamicInputs == t.dynamic
    {
      decl := ct;
      calls := [];
      new;
      LoadReadableFields();
    }

    /** The named and dynamic tables of the newer class; positional annotations are ignored. */
    method LoadReadableFields()
      modifies this
      ensures var t := Load(decl.setters);
        descriptions == t.descriptions && dynamicDescriptions == t.dynamicDescriptions &&
        commandInputs == t.named && dynamicInputs == t.dynamic
      ensures calls == old(calls)
    {
      var ms := decl.setters;
      descriptions, dynamicDescriptions, commandInputs, dynamicInputs := [], [], [], map[];
      var i := 0;
      while i < |ms|
        invariant 0 <= i <= |ms| && calls == old(calls)
        invariant var t := Load(ms[..i]);
          descriptions == t.descriptions && dynamicDescriptions == t.dynamicDescriptions &&
          commandInputs == t.named && dynamicInputs == t.dynamic
      {
        var s := ms[i];
        if s.named.Some? {
          var a := s.named.value;
          descriptions := Put(descriptions, a.consoleFormat, NamedDescription(a));
          commandInputs := Put(commandInputs, a.consoleFormat, NamedEntry(s, a));
        }
        if s.dynamic.Some? {
          var d := s.dynamic.value;
          dynamicDescriptions := Put(dynamicDescriptions, d.consoleFormat, d.description);
          dynamicInputs := dynamicInputs[d.consoleFormat := s];
        }
        LoadSnoc(ms, i);
        RecordFields(Load(ms[..i]), s);
        i := i + 1;
      }
      assert ms[..|ms|] == ms;
    }

    /** readParams: the token loop, then the defaults loop. */
    method ReadParams(params: seq<string>, store: map<string, Value>) returns (err: Option<LegacyError>)
      modifies this
      ensures var o := Bind(old(dynamicInputs), params, store, GlobalCommand.BindState(old(commandInputs), old(calls)));
        err == o.error && commandInputs == o.state.pending && calls == o.state.calls
      ensures descriptions == old(descriptions) && dynamicDescriptions == old(dynamicDescriptions)
      ensures dynamicInputs == old(dynamicInputs)
    {
      var st0 := GlobalCommand.BindState(commandInputs, calls);
      var i := 0;
      while i < |params|
        invariant descriptions == old(descriptions) && dynamicDescriptions == old(dynamicDescriptions)
        invariant dynamicInputs == old(dynamicInputs)
        invariant ScanFrom(dynamicInputs, params, store, i, GlobalCommand.BindState(commandInputs, calls)) ==
                  ScanFrom(dynamicInputs, params, store, 0, st0)
      {
        var token := params[i];
        if HasKey(commandInputs, token) {
          var e := Get(commandInputs, token);
          var n := e.ann.arity;
          if i + n > |params| {
            return Some(ArityOverflow(token));
          }
          if n == 2 {
            var c := SetParameter(e.setter, params[i + 1]);
            if c.Err? {
              return Some(c.error);
            }
            calls := calls + [c.value];
          } else if n == 1 {
            var c := GlobalCommand.Invoke(e.setter, VBool(true));
            if c.None? {
              return Some(CallFailed(e.setter.name));
            }
            calls := calls + [c.value];
          } else {
            return Some(BadArity(token));
          }
          commandInputs := Remove(commandInputs, token);
        } else if token in dynamicInputs {
          if i + 1 >= |params| {
            return Some(MissingVariableName(token));
          }
          var s := dynamicInputs[token];
          var key := params[i + 1];
          if key !in store || store[key] == VNull {
            return Some(NotValidVariable(key));
          }
          var c := GlobalCommand.Invoke(s, store[key]);
          if c.None? {
            return Some(CallFailed(s.name));
          }
          calls := calls + [c.value];
        }
        i := i + 1;
      }
      var st1 := GlobalCommand.BindState(commandInputs, calls);
      err := ApplyDefaults();
      assert Bind(dynamicInputs, params, store, st0) == DefaultsOf(st1.pending, st1);
    }

    static method SetParameter(s: Setter, text: string) returns (r: Result<GlobalCommand.Call, LegacyError>)
      ensures r == LegacySet(s, text)
    {
      if |s.paramTypes| == 0 {
        return Err(IndexOutOfRange);
      }
      var v := CheckInputClass(s.paramTypes[0], text);
      if v.Err? {
        return Err(NotRecognized(s.paramTypes[0]));
      }
      var c := GlobalCommand.Invoke(s, v.value);
      if c.None? {
        return Err(CallFailed(s.name));
      }
      r := Ok(c.value);
    }

    method ApplyDefaults() returns (err: Option<LegacyError>)
      modifies this
      ensures var o := DefaultsOf(old(commandInputs), GlobalCommand.BindState(old(commandInputs), old(calls)));
        err == o.error && commandInputs == o.state.pending && calls == o.state.calls
      ensures descriptions == old(descriptions) && dynamicDescriptions == old(dynamicDescriptions)
      ensures dynamicInputs == old(dynamicInputs)
    {
      var names := commandInputs;
      var j := 0;
      while j < |names|
        invariant 0 <= j <= |names| && commandInputs == names
        invariant descriptions == old(descriptions) && dynamicDescriptions == old(dynamicDescriptions)
        invariant dynamicInputs == old(dynamicInputs)
        invariant DefaultsOf(names[j..], GlobalCommand.BindState(names, calls)) == DefaultsOf(names, GlobalCommand.BindState(names, old(calls)))
      {
        var e := names[j].1;
        if e.ann.mandatory {
          return Some(Mandatory(e.ann.consoleFormat));
        }
        var c := SetParameter(e.setter, e.ann.defaultValue);
        if c.Err? {
          return Some(c.error);
        }
        calls := calls + [c.value];
        assert names[j..][1..] == names[j + 1..];
        j := j + 1;
      }
      err := None;
    }

    /** help(): the description, the named flags' lines with no header, then the dynamic section if any. */
    method Help() returns (h: string)
      ensures h == HelpText(decl.description, descriptions, dynamicDescriptions)
    {
      var named := GlobalCommand.AppendLines(descriptions);
      var dynamic := "";
      if |dynamicDescriptions| > 0 {
        var lines := GlobalCommand.AppendLines(dynamicDescriptions);
        dynamic := "\nwhere the following are dynamic parameters\n" + lines;
      }
      h := decl.description + "\n" + named + dynamic;
    }
  }

  // ------------------------------------------------------------- properties

  /** No token is a flag. */
  predicate NoFlags(dynamic: map<string, Setter>, pending: Assoc<NamedEntry>, params: seq<string>, i: nat) {
    forall j :: i <= j < |params| ==> !HasKey(pending, params[j]) && params[j] !in dynamic
  }

  /** Tokens that name no flag are skipped: a command line of such tokens binds only the defaults. */
  lemma {:induction false} UnknownTokensSkipped(dynamic: map<string, Setter>, params: seq<string>, store: map<string, Value>, i: nat, st: GlobalCommand.BindState)
    requires NoFlags(dynamic, st.pending, params, i)
    ensures ScanFrom(dynamic, params, store, i, st) == LegacyOutcome(st, None)
    ensures i == 0 ==> Bind(dynamic, params, store, st) == DefaultsOf(st.pending, st)
    decreases |params| - i
  {
    if i < |params| {
      UnknownTokensSkipped(dynamic, params, store, i + 1, st);
    }
  }

  /**
   * The value of a valued flag is looked at again as a flag: [f, g] with g a
   * pending switch sets f from the text "g" and then sets g to true.
   */
  lemma ValueTokenReexamined(dynamic: map<string, Setter>, params: seq<string>, store: map<string, Value>, i: nat, st: GlobalCommand.BindState)
    requires i + 1 < |params| && params[i] != params[i + 1]
    requires HasKey(st.pending, params[i]) && Get(st.pending, params[i]).ann.arity == 2
    requires HasKey(st.pending, params[i + 1]) && Get(st.pending, params[i + 1]).ann.arity == 1
    requires LegacySet(Get(st.pending, params[i]).setter, params[i + 1]).Ok?
    requires GlobalCommand.Invoke(Get(st.pending, params[i + 1]).setter, VBool(true)).Some?
    ensures var f, g := Get(st.pending, params[i]), Get(st.pending, params[i + 1]);
      ScanFrom(dynamic, params, store, i, st) ==
      ScanFrom(dynamic, params, store, i + 2,
        GlobalCommand.BindState(Remove(Remove(st.pending, params[i]), params[i + 1]),
                  st.calls + [GlobalCommand.Call(f.setter.name, Coerce(f.setter.paramTypes[0], params[i + 1]).value),
                              GlobalCommand.Call(g.setter.name, VBool(true))]))
  {
    var st1 := GlobalCommand.BindState(Remove(st.pending, params[i]), st.calls + [LegacySet(Get(st.pending, params[i]).setter, params[i + 1]).value]);
    assert ScanFrom(dynamic, params, store, i, st) == ScanFrom(dynamic, params, store, i + 1, st1);
    assert HasKey(st1.pending, params[i + 1]) && Get(st1.pending, params[i + 1]) == Get(st.pending, params[i + 1]);
    var c2 := GlobalCommand.Invoke(Get(st.pending, params[i + 1]).setter, VBool(true)).value;
    assert st1.calls + [c2] == st.calls + [st1.calls[|st.calls|], c2];
  }

  /**
   * A named flag given twice is set once: the second occurrence no longer
   * names a pending flag and is skipped with its value.
   */
  lemma RepeatedFlagSkipped(dynamic: map<string, Setter>, params: seq<string>, store: map<string, Value>, i: nat, st: GlobalCommand.BindState)
    requires DistinctKeys(st.pending)
    requires i + 4 <= |params| && params[i] == params[i + 2] && params[i] !in dynamic
    requires HasKey(st.pending, params[i]) && Get(st.pending, params[i]).ann.arity == 2
    requires !HasKey(st.pending, params[i + 1]) && params[i + 1] !in dynamic
    requires !HasKey(st.pending, params[i + 3]) && params[i + 3] !in dynamic
    requires LegacySet(Get(st.pending, params[i]).setter, params[i + 1]).Ok?
    ensures ScanFrom(dynamic, params, store, i, st) ==
      ScanFrom(dynamic, params, store, i + 4,
        GlobalCommand.BindState(Remove(st.pending, params[i]), st.calls + [LegacySet(Get(st.pending, params[i]).setter, params[i + 1]).value]))
  {
    var f := params[i];
    var st1 := GlobalCommand.BindState(Remove(st.pending, f), st.calls + [LegacySet(Get(st.pending, f).setter, params[i + 1]).value]);
    assert !HasKey(st1.pending, f);
    assert !HasKey(st1.pending, params[i + 1]) && !HasKey(st1.pending, params[i + 3]);
    assert ScanFrom(dynamic, params, store, i, st) == ScanFrom(dynamic, params, store, i + 1, st1);
    assert ScanFrom(dynamic, params, store, i + 1, st1) == ScanFrom(dynamic, params, store, i + 2, st1);
    assert ScanFrom(dynamic, params, store, i + 2, st1) == ScanFrom(dynamic, params, store, i + 3, st1);
  }

  /**
   * A dynamic flag that is not a pending named flag needs a following token
   * naming a stored object, which its setter receives uncoerced; the scan then
   * moves on by one token only, so that name is looked at next.
   */
  lemma DynamicFlag(dynamic: map<string, Setter>, params: seq<string>, store: map<string, Value>, i: nat, st: GlobalCommand.BindState)
    requires i < |params| && !HasKey(st.pending, params[i]) && params[i] in dynamic
    ensures i + 1 == |params| ==> ScanFrom(dynamic, params, store, i, st) == Fail(st, MissingVariableName(params[i]))
    ensures i + 1 < |params| && (params[i + 1] !in store || store[params[i + 1]] == VNull) ==>
      ScanFrom(dynamic, params, store, i, st) == Fail(st, NotValidVariable(params[i + 1]))
    ensures var s := dynamic[params[i]];
      i + 1 < |params| && params[i + 1] in store && store[params[i + 1]] != VNull &&
      GlobalCommand.Invoke(s, store[params[i + 1]]).Some? ==>
        ScanFrom(dynamic, params, store, i, st) ==
        ScanFrom(dynamic, params, store, i + 1, st.(calls := st.calls + [GlobalCommand.Call(s.name, store[params[i + 1]])]))
  {
  }

  /** An arity other than 1 and 2, or too few tokens for the arity, is refused when the flag is reached. */
  lemma FlagArity(dynamic: map<string, Setter>, params: seq<string>, store: map<string, Value>, i: nat, st: GlobalCommand.BindState)
    requires i < |params| && HasKey(st.pending, params[i])
    requires var n := Get(st.pending, params[i]).ann.arity; (n != 1 && n != 2) || i + n > |params|
    ensures ScanFrom(dynamic, params, store, i, st).error.Some?
    ensures ScanFrom(dynamic, params, store, i, st).state == st
  {
  }

  /** A flag no token names stays pending, with its entry, through a successful scan. */
  lemma {:induction false} ScanKeeps(dynamic: map<string, Setter>, params: seq<string>, store: map<string, Value>, i: nat, st: GlobalCommand.BindState, f: string)
    requires HasKey(st.pending, f) && forall j :: i <= j < |params| ==> params[j] != f
    requires ScanFrom(dynamic, params, store, i, st).error.None?
    ensures var r := ScanFrom(dynamic, params, store, i, st).state;
      HasKey(r.pending, f) && Get(r.pending, f) == Get(st.pending, f)
    decreases |params| - i
  {
    if i < |params| {
      var token := params[i];
      if HasKey(st.pending, token) {
        var e := Get(st.pending, token);
        var c := if e.ann.arity == 2 then LegacySet(e.setter, params[i + 1]).value else GlobalCommand.Invoke(e.setter, VBool(true)).value;
        ScanKeeps(dynamic, params, store, i + 1, GlobalCommand.BindState(Remove(st.pending, token), st.calls + [c]), f);
      } else if token in dynamic {
        ScanKeeps(dynamic, params, store, i + 1, st.(calls := st.calls + [GlobalCommand.Invoke(dynamic[token], store[params[i + 1]]).value]), f);
      } else {
        ScanKeeps(dynamic, params, store, i + 1, st, f);
      }
    }
  }

  /** A mandatory flag that no token names makes binding fail. */
  lemma MandatoryMissing(dynamic: map<string, Setter>, params: seq<string>, store: map<string, Value>, st0: GlobalCommand.BindState, f: string)
    requires HasKey(st0.pending, f) && Get(st0.pending, f).ann.mandatory && f !in params
    ensures Bind(dynamic, params, store, st0).error.Some?
  {
    var s := ScanFrom(dynamic, params, store, 0, st0);
    if s.error.None? {
      ScanKeeps(dynamic, params, store, 0, st0, f);
      DefaultsFailOnMandatory(s.state.pending, s.state, f);
    }
  }

  lemma {:induction false} DefaultsFailOnMandatory(rest: Assoc<NamedEntry>, st: GlobalCommand.BindState, f: string)
    requires HasKey(rest, f) && Get(rest, f).ann.mandatory
    ensures DefaultsOf(rest, st).error.Some?
  {
    if rest[0].0 != f {
      TailKeys(rest);
      var e := rest[0].1;
      if !e.ann.mandatory && LegacySet(e.setter, e.ann.defaultValue).Ok? {
        DefaultsFailOnMandatory(rest[1..], st.(calls := st.calls + [LegacySet(e.setter, e.ann.defaultValue).value]), f);
      }
    }
  }

  /** The help starts with the description, lists every named flag right after it, then the dynamic ones. */
  lemma HelpListsEveryFlag(d: string, descriptions: Assoc<string>, dynamicDescriptions: Assoc<string>)
    ensures JavaLang.StartsWith(HelpText(d, descriptions, dynamicDescriptions), d + "\n" + Lines(descriptions))
    ensures forall i :: 0 <= i < |descriptions| ==> Contains(HelpText(d, descriptions, dynamicDescriptions), Line(descriptions[i]))
    ensures forall i :: 0 <= i < |dynamicDescriptions| ==> Contains(HelpText(d, descriptions, dynamicDescriptions), Line(dynamicDescriptions[i]))
    ensures |dynamicDescriptions| == 0 ==> HelpText(d, descriptions, dynamicDescriptions) == d + "\n" + Lines(descriptions)
  {
    var h := HelpText(d, descriptions, dynamicDescriptions);
    var pre := d + "\n";
    var sd := GlobalCommand.Section("\nwhere the following are dynamic parameters\n", dynamicDescriptions);
    assert h == pre + Lines(descriptions) + sd;
    assert h[..|pre + Lines(descriptions)|] == pre + Lines(descriptions);
    forall i | 0 <= i < |descriptions| ensures Contains(h, Line(descriptions[i])) {
      LinesListEveryEntry(descriptions, i);
      ContainsRight(pre, Lines(descriptions), Line(descriptions[i]));
      ContainsLeft(pre + Lines(descriptions), sd, Line(descriptions[i]));
    }
    forall i | 0 <= i < |dynamicDescriptions| ensures Contains(h, Line(dynamicDescriptions[i])) {
      GlobalBinding.SectionListsEveryEntry("\nwhere the following are dynamic parameters\n", dynamicDescriptions, i);
      ContainsRight(pre + Lines(descriptions), sd, Line(dynamicDescriptions[i]));
    }
  }
}
