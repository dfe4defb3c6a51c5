/**
 * The console command "batch": it reads a file of console lines and runs each
 * one as if typed at the console. Lines are trimmed; blank lines and lines
 * starting with "#" are skipped; with -s the batch stops at the first line
 * that returns ERROR. The file's lines are given (None when it cannot be
 * read), and so is the tokenizer that splits a line into tokens.
 */
module Batch {
  import opened Wrappers
  import opened JavaLang
  import opened JavaTypes
  import opened Declarations
  import opened GlobalCommand
  import opened GlobalBinding
  import opened Service
  import StringUtils

  // ----------------------------------------------------------- declaration

  const BatchFileSetter: Setter :=
    Setter("setBatchFile", [StringClass], None, None, Some(PositionalAnn(1, "batchFile", "the input batch file")))
  const StopSetter: Setter :=
    Setter("setStopExecution", [Primitive(PBoolean)],
           Some(NamedAnn("-s", false, "false", "Stop batch execution if one of the commands fails", 1)), None, None)

  const Decl: CommandType :=
    CommandType("Batch", Some("batch"), false, false,
                "Load and execute a batch of commans from file", [BatchFileSetter, StopSetter])

  /** The declaration passes the service's check, so the command is registered as "batch". */
  lemma WellDeclaredBatch()
    ensures Correctness(Decl.setters) == None
    ensures Registrable(Decl, true) && RegisteredName(Decl) == "batch"
  {
    var x := Ann("setBatchFile", 1, PositionAnn(1));
    var y := Ann("setStopExecution", 1, FlagAnn("-s"));
    assert Decl.setters[1..] == [StopSetter] && [StopSetter][1..] == [];
    assert Anns([StopSetter]) == [y];
    assert Anns(Decl.setters) == [x, y];
    assert [x, y][1..] == [y] && [y][1..] == [];
    assert ScanAnns([y], {}, [1]) == Ok([1]);
    assert [] + [1] == [1];
    assert ScanAnns([x, y], {}, []) == ScanAnns([y], {}, [1]);
    assert 1 in [1];
    CorrectedPasses(Decl.setters);
  }

  /** The tables of "batch": the file at position 1 and the flag -s. */
  lemma DeclTables()
    ensures var t := Load(Decl.setters);
      t.named == [("-s", NamedEntry(StopSetter, StopSetter.named.value))] &&
      NumPositionals(t) == 1 && 1 in t.positional && t.positional[1] == BatchFileSetter
  {
    assert Decl.setters[..1] == [BatchFileSetter] && Decl.setters[..2] == Decl.setters;
    assert Decl.setters[..0] == [];
    LoadSnoc(Decl.setters, 0);
    LoadSnoc(Decl.setters, 1);
  }

  /** "batch f" runs f to the end: -s takes its default false. */
  lemma BindFileOnly(file: string, store: map<string, Value>)
    ensures var t := Load(Decl.setters);
      var o := Bind(t, [file], store, BindState(t.named, []));
      o.error == None && o.state.calls == [Call("setBatchFile", VString(file)), Call("setStopExecution", VBool(false))]
  {
    DeclTables();
    BindFileOnlyFrom(Load(Decl.setters), file, store);
  }

  lemma BindFileOnlyFrom(t: Tables, file: string, store: map<string, Value>)
    requires t.named == [("-s", NamedEntry(StopSetter, StopSetter.named.value))]
    requires NumPositionals(t) == 1 && 1 in t.positional && t.positional[1] == BatchFileSetter
    ensures var o := Bind(t, [file], store, BindState(t.named, []));
      o.error == None && o.state.calls == [Call("setBatchFile", VString(file)), Call("setStopExecution", VBool(false))]
  {
    var st := BindState(t.named, []);
    var c1 := Call("setBatchFile", VString(file));
    var c2 := Call("setStopExecution", VBool(false));
    assert SetFromText(BatchFileSetter, file) == Ok(c1);
    PositionalHead(t, [file], 0, st, c1);
    var st1 := st.(calls := [c1]);
    assert PositionalsFrom(t, [file], 0, st) == Outcome(st1, None);
    BindOnlyPositionals(t, [file], store, st);
    assert Lower("false") == "false";
    DefaultsHead(t.named, st1, c2);
    assert t.named[1..] == [];
  }

  /** "batch f -s" stops at the first failing line. */
  lemma BindStop(file: string, store: map<string, Value>)
    ensures var t := Load(Decl.setters);
      var o := Bind(t, [file, "-s"], store, BindState(t.named, []));
      o.error == None && o.state.calls == [Call("setBatchFile", VString(file)), Call("setStopExecution", VBool(true))]
  {
    DeclTables();
    BindStopFrom(Load(Decl.setters), file, store);
  }

  lemma BindStopFrom(t: Tables, file: string, store: map<string, Value>)
    requires t.named == [("-s", NamedEntry(StopSetter, StopSetter.named.value))]
    requires NumPositionals(t) == 1 && 1 in t.positional && t.positional[1] == BatchFileSetter
    ensures var o := Bind(t, [file, "-s"], store, BindState(t.named, []));
      o.error == None && o.state.calls == [Call("setBatchFile", VString(file)), Call("setStopExecution", VBool(true))]
  {
    var params := [file, "-s"];
    var st := BindState(t.named, []);
    var c1 := Call("setBatchFile", VString(file));
    var c2 := Call("setStopExecution", VBool(true));
    assert SetFromText(BatchFileSetter, file) == Ok(c1);
    PositionalHead(t, params, 0, st, c1);
    var st1 := st.(calls := [c1]);
    assert PositionalsFrom(t, params, 0, st) == Outcome(st1, None);
    assert HasKey(st1.pending, "-s") && Get(st1.pending, "-s") == t.named[0].1;
    assert Remove(st1.pending, "-s") == [];
    var st2 := BindState([], [c1, c2]);
    assert ScanStep(t, params, store, 1, st1) == Next(2, st2);
    assert ScanFrom(t, params, store, 1, st1) == Outcome(st2, None);
  }

  // -------------------------------------------------------------- the lines

  /** A trimmed line that is run: neither blank nor a comment. */
  predicate Runnable(line: string) { line != "" && !StartsWith(line, BatchComment) }

  /** The token lists of the lines that are run, in file order. */
  function Commands(lines: seq<string>, tokenize: string -> seq<string>): seq<seq<string>> {
    if |lines| == 0 then []
    else
      var line := Trim(lines[0]);
      (if Runnable(line) then [tokenize(line)] else []) + Commands(lines[1..], tokenize)
  }

  /** The commands of the lines from i on, by what line i is. */
  lemma CommandsAt(lines: seq<string>, i: nat, tokenize: string -> seq<string>)
    requires i < |lines|
    ensures Commands(lines[i..], tokenize) ==
      (if Runnable(Trim(lines[i])) then [tokenize(Trim(lines[i]))] else []) + Commands(lines[i + 1..], tokenize)
  {
    assert lines[i..][1..] == lines[i + 1..];
  }

  /** A file of blank lines and comments runs nothing. */
  lemma {:induction false} NothingToRun(lines: seq<string>, tokenize: string -> seq<string>)
    requires forall i :: 0 <= i < |lines| ==> Trim(lines[i]) == "" || StartsWith(Trim(lines[i]), BatchComment)
    ensures Commands(lines, tokenize) == []
  {
    if |lines| > 0 {
      NothingToRun(lines[1..], tokenize);
    }
  }

  /** The commands of two files one after the other are those of each, in order. */
  lemma {:induction false} CommandsAppend(a: seq<string>, b: seq<string>, tokenize: string -> seq<string>)
    ensures Commands(a + b, tokenize) == Commands(a, tokenize) + Commands(b, tokenize)
  {
    if |a| == 0 {
      assert a + b == b;
    } else {
      assert (a + b)[0] == a[0] && (a + b)[1..] == a[1..] + b;
      CommandsAppend(a[1..], b, tokenize);
      var line := Trim(a[0]);
      var head: seq<seq<string>> := if Runnable(line) then [tokenize(line)] else [];
      assert head + (Commands(a[1..], tokenize) + Commands(b, tokenize)) ==
        (head + Commands(a[1..], tokenize)) + Commands(b, tokenize);
    }
  }

  /** Adding a blank or comment line anywhere changes nothing that runs. */
  lemma SkippedLine(a: seq<string>, line: string, b: seq<string>, tokenize: string -> seq<string>)
    requires !Runnable(Trim(line))
    ensures Commands(a + [line] + b, tokenize) == Commands(a + b, tokenize)
  {
    CommandsAppend(a + [line], b, tokenize);
    CommandsAppend(a, [line], tokenize);
    CommandsAppend(a, b, tokenize);
    assert [line][1..] == [];
    assert Commands([line], tokenize) == [];
    assert Commands(a, tokenize) + [] == Commands(a, tokenize);
  }

  // ---------------------------------------------------------- tokenization

  /** The size of the array the tokens are collected in. */
  const MaxTokens: nat := 256

  /**
   * Copy the tokens into the fixed array of 256 and then into one of the
   * exact size; one token more than the array holds is an
   * ArrayIndexOutOfBoundsException (None).
   */
  method CollectTokens(tokens: seq<string>) returns (r: Option<seq<string>>)
    ensures r == if |tokens| <= MaxTokens then Some(tokens) else None
  {
    var tokenized := new string[MaxTokens](_ => "");
    var count := 0;
    while count < |tokens|
      invariant 0 <= count <= |tokens| && count <= MaxTokens
      invariant tokenized[..count] == tokens[..count]
    {
      if count == MaxTokens {
        return None;
      }
      tokenized[count] := tokens[count];
      count := count + 1;
    }
    assert tokens[..count] == tokens;
    return Some(tokenized[..count]);
  }

  // ------------------------------------------------------------- the runs

  /** How a batch ends. */
  datatype BatchEnd =
    | Unreadable      // IOException: "Cannot read batch file"
    | Done            // every line ran
    | Stopped         // -s and a line returned ERROR
    | TooManyTokens   // a line of more than 256 tokens: the exception leaves execute()

  /** What the lines do: the value each run returns, the history entries recorded, and how it ends. */
  datatype Trace = Trace(results: seq<Value>, recorded: seq<HistoryEntry>, end: BatchEnd)

  /** The history entry a console run records: one when the command name resolves. */
  function Recorded(commands: map<string, CommandType>, args: seq<string>): seq<HistoryEntry> {
    if Lookup(commands, args).Some? then [HistoryEntry(StringUtils.Joined(Decoded(args), " "), args)] else []
  }

  /** What one console run returns and records, given what runCommand(args, true) does. */
  datatype Console = Console(run: seq<string> -> Value, record: seq<string> -> seq<HistoryEntry>)

  /** The console of a service with these console commands, this store and this executor. */
  function ConsoleOf(commands: map<string, CommandType>, store: map<string, Value>, execute: Executor): Console {
    Console(args => RunValue(commands, args, store, execute), args => Recorded(commands, args))
  }

  /**
   * console answers every command line as a service with these console
   * commands, this store and this executor does.
   */
  ghost predicate IsConsoleOf(console: Console, commands: map<string, CommandType>, store: map<string, Value>, execute: Executor) {
    (forall args {:trigger RunValue(commands, args, store, execute)} :: console.run(args) == RunValue(commands, args, store, execute)) &&
    (forall args {:trigger Recorded(commands, args)} :: console.record(args) == Recorded(commands, args))
  }

  lemma ConsoleOfIs(commands: map<string, CommandType>, store: map<string, Value>, execute: Executor)
    ensures IsConsoleOf(ConsoleOf(commands, store, execute), commands, store, execute)
  {
  }

  function Runs(cmds: seq<seq<string>>, stop: bool, console: Console): Trace
  {
    if |cmds| == 0 then Trace([], [], Done)
    else if |cmds[0]| > MaxTokens then Trace([], [], TooManyTokens)
    else
      var r := console.run(cmds[0]);
      var h := console.record(cmds[0]);
      if stop && r == VError then Trace([r], h, Stopped)
      else
        var t := Runs(cmds[1..], stop, console);
        Trace([r] + t.results, h + t.recorded, t.end)
  }

  /** The runs are the first commands in order, each returning what the console returns for it. */
  lemma {:induction false} RunsResults(cmds: seq<seq<string>>, stop: bool, console: Console)
    ensures var t := Runs(cmds, stop, console);
      |t.results| <= |cmds| &&
      (forall j :: 0 <= j < |t.results| ==> t.results[j] == console.run(cmds[j])) &&
      (t.end == TooManyTokens ==> |t.results| < |cmds| && |cmds[|t.results|]| > MaxTokens) &&
      (t.end == Done ==> |t.results| == |cmds|) &&
      t.end != Unreadable
  {
    if |cmds| > 0 && |cmds[0]| <= MaxTokens {
      var r := console.run(cmds[0]);
      if !(stop && r == VError) {
        RunsResults(cmds[1..], stop, console);
        var t := Runs(cmds[1..], stop, console);
        assert Runs(cmds, stop, console).results == [r] + t.results;
      }
    }
  }

  /**
   * With -s only the last run can have failed, and the batch stops exactly
   * when it has; without -s it never stops early.
   */
  lemma {:induction false} RunsStop(cmds: seq<seq<string>>, stop: bool, console: Console)
    ensures var t := Runs(cmds, stop, console);
      (t.end == Stopped <==> stop && |t.results| > 0 && t.results[|t.results| - 1] == VError) &&
      (stop ==> forall j :: 0 <= j < |t.results| - 1 ==> t.results[j] != VError) &&
      (stop && t.end == Done ==> VError !in t.results)
  {
    if |cmds| > 0 && |cmds[0]| <= MaxTokens {
      var r := console.run(cmds[0]);
      if !(stop && r == VError) {
        RunsStop(cmds[1..], stop, console);
        var t := Runs(cmds[1..], stop, console);
        var u := Runs(cmds, stop, console);
        assert u.results == [r] + t.results;
        assert forall j :: 1 <= j < |u.results| ==> u.results[j] == t.results[j - 1];
      }
    }
  }

  /** Without -s and with no line too long, every command runs. */
  lemma {:induction false} RunsAll(cmds: seq<seq<string>>, console: Console)
    requires forall j :: 0 <= j < |cmds| ==> |cmds[j]| <= MaxTokens
    ensures var t := Runs(cmds, false, console);
      t.end == Done && |t.results| == |cmds|
  {
    if |cmds| > 0 {
      RunsAll(cmds[1..], console);
    }
  }

  /** One command run: it stops the batch, or the rest follows it. */
  lemma RunsHead(cmd: seq<string>, rest: seq<seq<string>>, stop: bool, console: Console)
    requires |cmd| <= MaxTokens
    ensures var r := console.run(cmd);
      var h := console.record(cmd);
      Runs([cmd] + rest, stop, console) ==
        if stop && r == VError then Trace([r], h, Stopped)
        else Prefixed([r], h, Runs(rest, stop, console))
  {
    assert ([cmd] + rest)[0] == cmd && ([cmd] + rest)[1..] == rest;
  }

  /** A command too long for the array ends the batch. */
  lemma RunsWide(cmd: seq<string>, rest: seq<seq<string>>, stop: bool, console: Console)
    requires |cmd| > MaxTokens
    ensures Runs([cmd] + rest, stop, console) == Trace([], [], TooManyTokens)
  {
    assert ([cmd] + rest)[0] == cmd;
  }

  /** What is left of the runs after some lines have run. */
  function Prefixed(results: seq<Value>, recorded: seq<HistoryEntry>, t: Trace): Trace {
    Trace(results + t.results, recorded + t.recorded, t.end)
  }

  lemma PrefixedTwice(rs: seq<Value>, hs: seq<HistoryEntry>, rs': seq<Value>, hs': seq<HistoryEntry>, t: Trace)
    ensures Prefixed(rs, hs, Prefixed(rs', hs', t)) == Prefixed(rs + rs', hs + hs', t)
  {
    assert rs + (rs' + t.results) == rs + rs' + t.results;
    assert hs + (hs' + t.recorded) == hs + hs' + t.recorded;
  }

  /**
   * One line of the file that is run: its tokens go through the array of
   * 256, then to runCommand(tokens, true).
   */
  method RunLine(svc: ExecutionService, tokens: seq<string>, ghost console: Console) returns (r: Option<Value>)
    requires IsConsoleOf(console, svc.consoleCommands, svc.dynamicObjects, svc.execute)
    modifies svc
    ensures
      if |tokens| > MaxTokens then r == None && svc.history == old(svc.history)
      else r == Some(console.run(tokens)) && svc.history == old(svc.history) + console.record(tokens)
    ensures svc.consoleCommands == old(svc.consoleCommands) && svc.loadedCommands == old(svc.loadedCommands)
    ensures svc.dynamicObjects == old(svc.dynamicObjects)
  {
    var split := CollectTokens(tokens);
    if split.None? {
      return None;
    }
    assert console.record(tokens) == Recorded(svc.consoleCommands, tokens);
    var v := svc.RunCommandAs(split.value, true);
    return Some(v);
  }

  /** What line i contributes: nothing, the end of the batch, or one run before the rest. */
  lemma LineStep(lines: seq<string>, i: nat, tokenize: string -> seq<string>, stop: bool, console: Console)
    requires i < |lines|
    ensures var line := Trim(lines[i]);
      var rest := Runs(Commands(lines[i + 1..], tokenize), stop, console);
      var tokens := tokenize(line);
      Runs(Commands(lines[i..], tokenize), stop, console) ==
        if !Runnable(line) then rest
        else if |tokens| > MaxTokens then Trace([], [], TooManyTokens)
        else if stop && console.run(tokens) == VError then Trace([console.run(tokens)], console.record(tokens), Stopped)
        else Prefixed([console.run(tokens)], console.record(tokens), rest)
  {
    CommandsAt(lines, i, tokenize);
    var line := Trim(lines[i]);
    var cs := Commands(lines[i + 1..], tokenize);
    if Runnable(line) {
      if |tokenize(line)| > MaxTokens {
        RunsWide(tokenize(line), cs, stop, console);
      } else {
        RunsHead(tokenize(line), cs, stop, console);
      }
    } else {
      assert [] + cs == cs;
    }
  }

  /** The runs of the lines from i on, line by line as the loop takes them. */
  function RunsFrom(lines: seq<string>, i: nat, tokenize: string -> seq<string>, stop: bool, console: Console): Trace
    requires i <= |lines|
    decreases |lines| - i
  {
    if i == |lines| then Trace([], [], Done)
    else
      var line := Trim(lines[i]);
      var tokens := tokenize(line);
      if !Runnable(line) then RunsFrom(lines, i + 1, tokenize, stop, console)
      else if |tokens| > MaxTokens then Trace([], [], TooManyTokens)
      else if stop && console.run(tokens) == VError then Trace([console.run(tokens)], console.record(tokens), Stopped)
      else Prefixed([console.run(tokens)], console.record(tokens), RunsFrom(lines, i + 1, tokenize, stop, console))
  }

  /** A line that runs and does not stop the batch moves its result and its entries to what is done. */
  lemma StepRun(lines: seq<string>, i: nat, tokenize: string -> seq<string>, stop: bool, console: Console,
                rs: seq<Value>, hs: seq<HistoryEntry>, want: Trace)
    requires i < |lines| && Runnable(Trim(lines[i])) && |tokenize(Trim(lines[i]))| <= MaxTokens
    requires !(stop && console.run(tokenize(Trim(lines[i]))) == VError)
    requires Prefixed(rs, hs, RunsFrom(lines, i, tokenize, stop, console)) == want
    ensures var tokens := tokenize(Trim(lines[i]));
      Prefixed(rs + [console.run(tokens)], hs + console.record(tokens), RunsFrom(lines, i + 1, tokenize, stop, console)) == want
  {
    var tokens := tokenize(Trim(lines[i]));
    PrefixedTwice(rs, hs, [console.run(tokens)], console.record(tokens), RunsFrom(lines, i + 1, tokenize, stop, console));
  }

  /** A line that is not run changes nothing. */
  lemma StepSkip(lines: seq<string>, i: nat, tokenize: string -> seq<string>, stop: bool, console: Console,
                 rs: seq<Value>, hs: seq<HistoryEntry>, want: Trace)
    requires i < |lines| && !Runnable(Trim(lines[i]))
    requires Prefixed(rs, hs, RunsFrom(lines, i, tokenize, stop, console)) == want
    ensures Prefixed(rs, hs, RunsFrom(lines, i + 1, tokenize, stop, console)) == want
  {
  }

  /** Past the last line, what is done is the whole trace. */
  lemma EndDone(lines: seq<string>, tokenize: string -> seq<string>, stop: bool, console: Console,
                rs: seq<Value>, hs: seq<HistoryEntry>, want: Trace)
    requires Prefixed(rs, hs, RunsFrom(lines, |lines|, tokenize, stop, console)) == want
    ensures want == Trace(rs, hs, Done)
  {
    assert rs + [] == rs;
    assert hs + [] == hs;
  }

  /** A line of more than MaxTokens tokens ends the batch with what is done. */
  lemma EndWide(lines: seq<string>, i: nat, tokenize: string -> seq<string>, stop: bool, console: Console,
                rs: seq<Value>, hs: seq<HistoryEntry>, want: Trace)
    requires i < |lines| && Runnable(Trim(lines[i])) && |tokenize(Trim(lines[i]))| > MaxTokens
    requires Prefixed(rs, hs, RunsFrom(lines, i, tokenize, stop, console)) == want
    ensures want == Trace(rs, hs, TooManyTokens)
  {
    assert rs + [] == rs;
    assert hs + [] == hs;
  }

  /** Under -s, a line whose run is ERROR ends the batch after that run. */
  lemma EndStop(lines: seq<string>, i: nat, tokenize: string -> seq<string>, stop: bool, console: Console,
                rs: seq<Value>, hs: seq<HistoryEntry>, want: Trace)
    requires i < |lines| && Runnable(Trim(lines[i])) && |tokenize(Trim(lines[i]))| <= MaxTokens
    requires stop && console.run(tokenize(Trim(lines[i]))) == VError
    requires Prefixed(rs, hs, RunsFrom(lines, i, tokenize, stop, console)) == want
    ensures var tokens := tokenize(Trim(lines[i]));
      want == Trace(rs + [console.run(tokens)], hs + console.record(tokens), Stopped)
  {
  }

  /** Taking the lines one by one runs the same commands as running the commands of the file. */
  lemma {:induction false} RunsFromCommands(lines: seq<string>, i: nat, tokenize: string -> seq<string>, stop: bool, console: Console)
    requires i <= |lines|
    ensures RunsFrom(lines, i, tokenize, stop, console) == Runs(Commands(lines[i..], tokenize), stop, console)
    decreases |lines| - i
  {
    if i == |lines| {
      assert lines[i..] == [];
    } else {
      LineStep(lines, i, tokenize, stop, console);
      RunsFromCommands(lines, i + 1, tokenize, stop, console);
    }
  }

  /**
   * One turn of execute()'s loop, on line i: either the batch ends there with
   * its results, or what is done grows by that line and the loop goes on.
   */
  method RunAt(svc: ExecutionService, ls: seq<string>, i: nat, stop: bool, tokenize: string -> seq<string>,
               ghost console: Console, done: seq<Value>, ghost want: Trace)
    returns (results: seq<Value>, end: Option<BatchEnd>)
    requires i < |ls|
    requires IsConsoleOf(console, svc.consoleCommands, svc.dynamicObjects, svc.execute)
    requires Prefixed(done, svc.history, RunsFrom(ls, i, tokenize, stop, console)) == want
    modifies svc
    ensures end.None? ==> Prefixed(results, svc.history, RunsFrom(ls, i + 1, tokenize, stop, console)) == want
    ensures end.Some? ==> want == Trace(results, svc.history, end.value)
    ensures svc.consoleCommands == old(svc.consoleCommands) && svc.loadedCommands == old(svc.loadedCommands)
    ensures svc.dynamicObjects == old(svc.dynamicObjects)
  {
    var line := Trim(ls[i]);
    if !Runnable(line) {
      StepSkip(ls, i, tokenize, stop, console, done, svc.history, want);
      return done, None;
    }
    var tokens := tokenize(line);
    ghost var hs := svc.history;
    var run := RunLine(svc, tokens, console);
    if run.None? {
      EndWide(ls, i, tokenize, stop, console, done, hs, want);
      return done, Some(TooManyTokens);
    }
    var r := run.value;
    if stop && r == VError {
      EndStop(ls, i, tokenize, stop, console, done, hs, want);
      return done + [r], Some(Stopped);
    }
    StepRun(ls, i, tokenize, stop, console, done, hs, want);
    results, end := done + [r], None;
  }

  /** The loop of execute(): the lines of the file taken one by one, from the first. */
  method RunLines(svc: ExecutionService, ls: seq<string>, stop: bool, tokenize: string -> seq<string>, ghost console: Console)
    returns (results: seq<Value>, end: BatchEnd)
    requires IsConsoleOf(console, svc.consoleCommands, svc.dynamicObjects, svc.execute)
    modifies svc
    ensures var t := RunsFrom(ls, 0, tokenize, stop, console);
      results == t.results && end == t.end && svc.history == old(svc.history) + t.recorded
    ensures svc.consoleCommands == old(svc.consoleCommands) && svc.loadedCommands == old(svc.loadedCommands)
    ensures svc.dynamicObjects == old(svc.dynamicObjects)
  {
    ghost var t := RunsFrom(ls, 0, tokenize, stop, console);
    ghost var want := Trace(t.results, svc.history + t.recorded, t.end);
    assert [] + t.results == t.results;
    results := [];
    var i := 0;
    while i < |ls|
      invariant 0 <= i <= |ls|
      invariant Prefixed(results, svc.history, RunsFrom(ls, i, tokenize, stop, console)) == want
      invariant svc.consoleCommands == old(svc.consoleCommands) && svc.loadedCommands == old(svc.loadedCommands)
      invariant svc.dynamicObjects == old(svc.dynamicObjects)
    {
      var stopped;
      results, stopped := RunAt(svc, ls, i, stop, tokenize, console, results, want);
      if stopped.Some? {
        return results, stopped.value;
      }
      i := i + 1;
    }
    EndDone(ls, tokenize, stop, console, results, svc.history, want);
    end := Done;
  }

  /**
   * execute(): run every line that is neither blank nor a comment through
   * runCommand(tokens, true), stopping after the first ERROR when -s is set.
   */
  method Execute(svc: ExecutionService, lines: Option<seq<string>>, stop: bool, tokenize: string -> seq<string>)
    returns (results: seq<Value>, end: BatchEnd)
    modifies svc
    ensures lines.None? ==> results == [] && end == Unreadable && svc.history == old(svc.history)
    ensures lines.Some? ==>
      var t := Runs(Commands(lines.value, tokenize), stop, ConsoleOf(old(svc.consoleCommands), old(svc.dynamicObjects), svc.execute));
      results == t.results && end == t.end && svc.history == old(svc.history) + t.recorded
    ensures svc.consoleCommands == old(svc.consoleCommands) && svc.loadedCommands == old(svc.loadedCommands)
    ensures svc.dynamicObjects == old(svc.dynamicObjects)
  {
    if lines.None? {
      return [], Unreadable;
    }
    ghost var console := ConsoleOf(svc.consoleCommands, svc.dynamicObjects, svc.execute);
    RunsFromCommands(lines.value, 0, tokenize, stop, console);
    assert lines.value[0..] == lines.value;
    ConsoleOfIs(svc.consoleCommands, svc.dynamicObjects, svc.execute);
    results, end := RunLines(svc, lines.value, stop, tokenize, console);
  }
}
