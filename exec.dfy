/**
 * The console command "exec": it runs a loaded command given as one string,
 * and turns an ERROR result into an ExecutionException that names the
 * command; any other result ends normally, an unknown command included in
 * ERROR. The tokenizer that splits the string is given.
 */
module Exec {
  import opened Wrappers
  import opened JavaTypes
  import opened Declarations
  import opened GlobalCommand
  import opened GlobalBinding
  import opened Service

  // ----------------------------------------------------------- declaration

  const CommandSetter: Setter :=
    Setter("setCommand", [StringClass], None, None, Some(PositionalAnn(1, "command", "the command to be executed")))

  const Decl: CommandType :=
    CommandType("Exec", Some("exec"), false, false, "Execute a user defined command (loaded from a jar)", [CommandSetter])

  /** The single position 1 passes the service's check, so the command is registered as "exec". */
  lemma WellDeclaredExec()
    ensures Correctness(Decl.setters) == None
    ensures Registrable(Decl, true) && RegisteredName(Decl) == "exec"
  {
    var x := Ann("setCommand", 1, PositionAnn(1));
    assert Decl.setters[1..] == [];
    assert Anns(Decl.setters) == [x];
    assert [x][1..] == [];
    assert [] + [1] == [1];
    assert ScanAnns([x], {}, []) == Ok([1]);
    assert 1 in [1];
    CorrectedPasses(Decl.setters);
  }

  /** The tables of "exec": no flags and the command at position 1. */
  lemma DeclTables()
    ensures ExecTables(Load(Decl.setters))
  {
    assert Decl.setters[..1] == Decl.setters && Decl.setters[..0] == [];
    LoadSnoc(Decl.setters, 0);
  }

  /** The facts of the "exec" tables the binding lemmas use. */
  predicate ExecTables(t: Tables) {
    t.named == [] && t.dynamic == map[] && NumPositionals(t) == 1 &&
    1 in t.positional && t.positional[1] == CommandSetter
  }

  /** "exec c" sets the command to c. */
  lemma BindCommand(command: string, store: map<string, Value>)
    ensures var t := Load(Decl.setters);
      var o := Bind(t, [command], store, BindState(t.named, []));
      o.error == None && o.state.calls == [Call("setCommand", VString(command))]
  {
    DeclTables();
    BindCommandFrom(Load(Decl.setters), command, store);
  }

  lemma BindCommandFrom(t: Tables, command: string, store: map<string, Value>)
    requires ExecTables(t)
    ensures var o := Bind(t, [command], store, BindState(t.named, []));
      o.error == None && o.state.calls == [Call("setCommand", VString(command))]
  {
    var st := BindState(t.named, []);
    var c := Call("setCommand", VString(command));
    assert SetFromText(CommandSetter, command) == Ok(c);
    PositionalHead(t, [command], 0, st, c);
    BindOnlyPositionals(t, [command], store, st);
  }

  /** The command must be one token: a second token is no flag of "exec" and is refused. */
  lemma BindSecondToken(command: string, extra: string, store: map<string, Value>)
    ensures var t := Load(Decl.setters);
      Bind(t, [command, extra], store, BindState(t.named, [])).error == Some(NotValidParameter(extra))
  {
    DeclTables();
    BindSecondTokenFrom(Load(Decl.setters), command, extra, store);
  }

  lemma BindSecondTokenFrom(t: Tables, command: string, extra: string, store: map<string, Value>)
    requires ExecTables(t)
    ensures Bind(t, [command, extra], store, BindState(t.named, [])).error == Some(NotValidParameter(extra))
  {
    var st := BindState(t.named, []);
    var c := Call("setCommand", VString(command));
    assert SetFromText(CommandSetter, command) == Ok(c);
    PositionalHead(t, [command, extra], 0, st, c);
    BindStrayToken(t, [command, extra], store, st);
  }

  // -------------------------------------------------------------- execute()

  /** The exception execute() throws. */
  datatype ExecFailure = ExecutionException(message: string)

  /** The message of the exception for a command that failed. */
  function FailureMessage(command: string): string {
    "Execution error on calling command: " + command
  }

  /** What execute() ends in, given the value runCommand returned. */
  function RunFailure(command: string, retval: Value): (r: Option<ExecFailure>)
    ensures r.Some? <==> retval == VError
    ensures r.Some? ==> r.value.message == FailureMessage(command)
  {
    if retval == VError then Some(ExecutionException(FailureMessage(command))) else None
  }

  /** execute(): the command, tokenized, runs in the loaded namespace; the service keeps its state. */
  method Execute(svc: ExecutionService, command: string, tokenize: string -> seq<string>) returns (err: Option<ExecFailure>)
    modifies svc
    ensures err == RunFailure(command, RunValue(old(svc.loadedCommands), tokenize(command), old(svc.dynamicObjects), svc.execute))
    ensures svc.history == old(svc.history) && svc.dynamicObjects == old(svc.dynamicObjects)
    ensures svc.loadedCommands == old(svc.loadedCommands) && svc.consoleCommands == old(svc.consoleCommands)
  {
    var retval := svc.RunCommand(tokenize(command));
    err := RunFailure(command, retval);
  }

  /**
   * exec fails exactly when the command is unknown, its binding fails, its
   * execute() throws, or it is a loader whose object is ERROR: a command that
   * is not found ends in the same exception as one that fails.
   */
  lemma ExecFails(commands: map<string, CommandType>, args: seq<string>, store: map<string, Value>, execute: Executor, command: string)
    ensures var d := Lookup(commands, args);
      RunFailure(command, RunValue(commands, args, store, execute)).Some? <==>
        d.None? ||
        (var t := Load(d.value.setters);
         var o := Bind(t, args[1..], store, BindState(t.named, []));
         o.error.Some? || !execute(d.value, o.state.calls, store).Completed? ||
         (d.value.isLoader && execute(d.value, o.state.calls, store).loaded == VError))
  {
    RunValueError(commands, args, store, execute);
  }

  /** An empty command line names no command, so exec fails. */
  lemma EmptyCommandFails(commands: map<string, CommandType>, store: map<string, Value>, execute: Executor, command: string)
    ensures RunFailure(command, RunValue(commands, [], store, execute)) == Some(ExecutionException(FailureMessage(command)))
  {
  }
}
