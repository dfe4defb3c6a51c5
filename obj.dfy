/**
 * The console command "obj": it runs a loaded command, given as one string
 * whose tokens are separated by "=%=", and stores what the command returns
 * under a variable of the console's store, where dynamic flags of later
 * commands find it.
 */
module Obj {
  import opened Wrappers
  import opened JavaTypes
  import opened Declarations
  import opened GlobalCommand
  import opened GlobalBinding
  import opened Service
  import opened StringUtils

  // ----------------------------------------------------------- declaration

  const VariableSetter: Setter :=
    Setter("setVariable", [StringClass], None, None,
           Some(PositionalAnn(1, "variable", "the name of the variable to be stored and used (for convention better start with $[variablename]")))
  const CommandSetter: Setter :=
    Setter("setCommand", [StringClass], None, None, Some(PositionalAnn(2, "command", "the loader command to be used")))

  const Decl: CommandType :=
    CommandType("Obj", Some("obj"), false, false,
                "Load an object into the console using the appropriate loader", [VariableSetter, CommandSetter])

  /** Positions 1 and 2 pass the service's check, so the command is registered as "obj". */
  lemma WellDeclaredObj()
    ensures Correctness(Decl.setters) == None
    ensures Registrable(Decl, true) && RegisteredName(Decl) == "obj"
  {
    var x := Ann("setVariable", 1, PositionAnn(1));
    var y := Ann("setCommand", 1, PositionAnn(2));
    assert Decl.setters[1..] == [CommandSetter] && [CommandSetter][1..] == [];
    assert Anns([CommandSetter]) == [y];
    assert Anns(Decl.setters) == [x, y];
    assert [x, y][1..] == [y] && [y][1..] == [];
    assert [] + [1] == [1] && [1] + [2] == [1, 2];
    assert ScanAnns([y], {}, [1]) == Ok([1, 2]);
    assert ScanAnns([x, y], {}, []) == ScanAnns([y], {}, [1]);
    assert 1 in [1, 2] && 2 in [1, 2];
    CorrectedPasses(Decl.setters);
  }

  /** The tables of "obj": no flags, the variable at position 1 and the command at position 2. */
  lemma DeclTables()
    ensures var t := Load(Decl.setters);
      t.named == [] && NumPositionals(t) == 2 &&
      1 in t.positional && t.positional[1] == VariableSetter &&
      2 in t.positional && t.positional[2] == CommandSetter
  {
    assert Decl.setters[..1] == [VariableSetter] && Decl.setters[..2] == Decl.setters;
    assert Decl.setters[..0] == [];
    LoadSnoc(Decl.setters, 0);
    LoadSnoc(Decl.setters, 1);
  }

  /** "obj v c" sets the variable to v and the command to c, in that order. */
  lemma BindPair(variable: string, command: string, store: map<string, Value>)
    ensures var t := Load(Decl.setters);
      var o := Bind(t, [variable, command], store, BindState(t.named, []));
      o.error == None && o.state.calls == [Call("setVariable", VString(variable)), Call("setCommand", VString(command))]
  {
    DeclTables();
    BindPairFrom(Load(Decl.setters), variable, command, store);
  }

  lemma BindPairFrom(t: Tables, variable: string, command: string, store: map<string, Value>)
    requires t.named == [] && NumPositionals(t) == 2
    requires 1 in t.positional && t.positional[1] == VariableSetter
    requires 2 in t.positional && t.positional[2] == CommandSetter
    ensures var o := Bind(t, [variable, command], store, BindState(t.named, []));
      o.error == None && o.state.calls == [Call("setVariable", VString(variable)), Call("setCommand", VString(command))]
  {
    var params := [variable, command];
    var st := BindState(t.named, []);
    var c1 := Call("setVariable", VString(variable));
    var c2 := Call("setCommand", VString(command));
    assert SetFromText(VariableSetter, variable) == Ok(c1);
    assert SetFromText(CommandSetter, command) == Ok(c2);
    PositionalHead(t, params, 0, st, c1);
    var st1 := st.(calls := [c1]);
    PositionalHead(t, params, 1, st1, c2);
    var st2 := st1.(calls := [c1, c2]);
    assert PositionalsFrom(t, params, 0, st) == Outcome(st2, None);
    BindOnlyPositionals(t, params, store, st);
  }

  /** "obj v" without a command: both positions are mandatory. */
  lemma BindMissingCommand(variable: string, store: map<string, Value>)
    ensures var t := Load(Decl.setters);
      Bind(t, [variable], store, BindState(t.named, [])).error == Some(IndexOutOfRange)
  {
    DeclTables();
    BindMissingCommandFrom(Load(Decl.setters), variable, store);
  }

  lemma BindMissingCommandFrom(t: Tables, variable: string, store: map<string, Value>)
    requires NumPositionals(t) == 2
    requires 1 in t.positional && t.positional[1] == VariableSetter && 2 in t.positional
    ensures Bind(t, [variable], store, BindState(t.named, [])).error == Some(IndexOutOfRange)
  {
    var st := BindState(t.named, []);
    var c1 := Call("setVariable", VString(variable));
    assert SetFromText(VariableSetter, variable) == Ok(c1);
    PositionalHead(t, [variable], 0, st, c1);
  }

  // -------------------------------------------------------------- execute()

  /** The tokens of the nested command: the command string cut at every "=%=". */
  function Nested(command: string): seq<string> {
    Split(command, CommandSeparator)
  }

  /**
   * execute(): warn when the variable is already taken, run the nested command
   * in the loaded namespace, and store its result under the variable, ERROR
   * included.
   */
  method Execute(svc: ExecutionService, variable: string, command: string) returns (overriding: bool)
    modifies svc
    ensures overriding == (variable in old(svc.dynamicObjects))
    ensures svc.dynamicObjects ==
      Stored(old(svc.dynamicObjects), variable, RunValue(old(svc.loadedCommands), Nested(command), old(svc.dynamicObjects), svc.execute))
    ensures svc.history == old(svc.history)
    ensures svc.loadedCommands == old(svc.loadedCommands) && svc.consoleCommands == old(svc.consoleCommands)
  {
    overriding := variable in svc.dynamicObjects;
    var o := svc.RunCommand(Nested(command));
    svc.dynamicObjects := Stored(svc.dynamicObjects, variable, o);
  }

  /** What a store holds after obj puts o under the variable: o there, every other entry as it was. */
  function Stored(store: map<string, Value>, variable: string, o: Value): (r: map<string, Value>)
    ensures variable in r && r[variable] == o
    ensures r.Keys == store.Keys + {variable}
    ensures forall k :: k in store && k != variable ==> r[k] == store[k]
  {
    store[variable := o]
  }

  /** Storing twice under one variable keeps only the second object. */
  lemma StoredTwice(store: map<string, Value>, variable: string, o1: Value, o2: Value)
    ensures Stored(Stored(store, variable, o1), variable, o2) == Stored(store, variable, o2)
  {
    var a := Stored(Stored(store, variable, o1), variable, o2);
    var b := Stored(store, variable, o2);
    assert a.Keys == b.Keys;
    forall k | k in a.Keys
      ensures a[k] == b[k]
    {
    }
  }

  /** A command name the loaded map lacks makes obj store ERROR. */
  lemma UnknownCommandStoresError(commands: map<string, CommandType>, command: string, store: map<string, Value>, execute: Executor)
    requires Lookup(commands, Nested(command)).None?
    ensures RunValue(commands, Nested(command), store, execute) == VError
  {
  }

  /**
   * A stored object other than null reaches the setter of a dynamic flag that
   * names its variable, as it was stored.
   */
  lemma StoredReachesDynamicFlag(t: Tables, params: seq<string>, store: map<string, Value>, i: nat, st: BindState,
                                 variable: string, o: Value)
    requires i + 1 < |params| && !HasKey(st.pending, params[i]) && params[i] in t.dynamic
    requires params[i + 1] == variable && o != VNull
    requires Invoke(t.dynamic[params[i]], o).Some?
    ensures ScanStep(t, params, Stored(store, variable, o), i, st) ==
      Next(i + 2, st.(calls := st.calls + [Call(t.dynamic[params[i]].name, o)]))
  {
  }
}
