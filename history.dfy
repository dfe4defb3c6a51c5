/**
 * The console command "hist": it lists the most recent console lines, newest
 * first, numbered from 1, and runs again the one whose number the user types
 * ("q" leaves). Unless -r is given, a line that occurs several times among the
 * first -n entries of the history is listed once, at its first occurrence.
 * The user's answers are a sequence of lines (readLine); the printed listing
 * is returned as a sequence of lines.
 */
module History {
  import opened Wrappers
  import opened JavaLang
  import opened JavaTypes
  import opened Declarations
  import opened GlobalCommand
  import opened GlobalBinding
  import opened Coercion
  import opened Service
  import StringUtils

  // ----------------------------------------------------------- declaration

  const NumEntriesSetter: Setter :=
    Setter("setNumEntries", [Primitive(PInt)],
           Some(NamedAnn("-n", false, "10", "Number of entries to show", 2)), None, None)
  const RepetitionsSetter: Setter :=
    Setter("setRepetitions", [Primitive(PBoolean)],
           Some(NamedAnn("-r", false, "false", "Allow repetitions in the history", 1)), None, None)

  const Decl: CommandType :=
    CommandType("History", Some("hist"), false, false,
                "Show a history of the commands performed so far, allows relaunch of the same command",
                [NumEntriesSetter, RepetitionsSetter])

  /** The declaration passes the service's check, so the command is registered as "hist". */
  lemma WellDeclaredHist()
    ensures Correctness(Decl.setters) == None
    ensures Registrable(Decl, true) && RegisteredName(Decl) == "hist"
  {
    var x := Ann("setNumEntries", 1, FlagAnn("-n"));
    var y := Ann("setRepetitions", 1, FlagAnn("-r"));
    assert Decl.setters[1..] == [RepetitionsSetter] && [RepetitionsSetter][1..] == [];
    assert Anns([RepetitionsSetter]) == [y];
    assert Anns(Decl.setters) == [x, y];
    assert [x, y][1..] == [y] && [y][1..] == [];
    assert {} + {"-n"} == {"-n"} && "-r" !in {"-n"};
    assert ScanAnns([y], {"-n"}, []) == Ok([]);
    assert ScanAnns([x, y], {}, []) == Ok([]);
    CorrectedPasses(Decl.setters);
  }

  /** The tables of "hist": the flags -n then -r, and no positional parameter. */
  lemma DeclTables()
    ensures Load(Decl.setters).named ==
      [("-n", NamedEntry(NumEntriesSetter, NumEntriesSetter.named.value)),
       ("-r", NamedEntry(RepetitionsSetter, RepetitionsSetter.named.value))]
    ensures NumPositionals(Load(Decl.setters)) == 0
  {
    assert Decl.setters == [NumEntriesSetter, RepetitionsSetter];
    LoadTwoNamed(NumEntriesSetter, RepetitionsSetter);
  }

  /** The default texts "10" and "false" coerce to the values the setters take. */
  lemma DefaultValues()
    ensures SetFromText(NumEntriesSetter, "10") == Ok(Call("setNumEntries", VInt(10)))
    ensures SetFromText(RepetitionsSetter, "false") == Ok(Call("setRepetitions", VBool(false)))
  {
    assert "10"[..1] == "1" && "1"[..0] == "";
    assert DigitsValue("10") == 10;
    assert ParseIntegral("10", MinInt, MaxInt) == Some(10);
    assert Coerce(Primitive(PInt), "10") == Ok(VInt(10));
    assert Lower("false") == "false";
  }

  /** "hist" with no flags: -n takes its default 10 and -r its default false, in that order. */
  lemma Defaults(store: map<string, Value>)
    ensures var t := Load(Decl.setters);
      var o := Bind(t, [], store, BindState(t.named, []));
      o.error == None && o.state.calls == [Call("setNumEntries", VInt(10)), Call("setRepetitions", VBool(false))]
  {
    DeclTables();
    DefaultsFromTables(Load(Decl.setters), store);
  }

  lemma DefaultsFromTables(t: Tables, store: map<string, Value>)
    requires t.named ==
      [("-n", NamedEntry(NumEntriesSetter, NumEntriesSetter.named.value)),
       ("-r", NamedEntry(RepetitionsSetter, RepetitionsSetter.named.value))]
    requires NumPositionals(t) == 0
    ensures var o := Bind(t, [], store, BindState(t.named, []));
      o.error == None && o.state.calls == [Call("setNumEntries", VInt(10)), Call("setRepetitions", VBool(false))]
  {
    DefaultValues();
    var st := BindState(t.named, []);
    BindNoTokens(t, store, st);
    var c1 := Call("setNumEntries", VInt(10));
    var c2 := Call("setRepetitions", VBool(false));
    var n := t.named;
    DefaultsHead(n, st, c1);
    DefaultsHead(n[1..], st.(calls := [c1]), c2);
    assert n[1..][1..] == [];
  }

  // ------------------------------------------------------- the working list

  function LinesOf(xs: seq<HistoryEntry>): (r: seq<string>)
    ensures |r| == |xs| && forall i :: 0 <= i < |xs| ==> r[i] == xs[i].line
  {
    seq(|xs|, i requires 0 <= i < |xs| => xs[i].line)
  }

  /**
   * The entries in order, each line only at its first occurrence: a
   * LinkedHashSet of pairs that hash and compare by their line.
   */
  function Dedup(xs: seq<HistoryEntry>): seq<HistoryEntry>
  {
    if |xs| == 0 then []
    else
      var d := Dedup(xs[..|xs| - 1]);
      if xs[|xs| - 1].line in LinesOf(d) then d else d + [xs[|xs| - 1]]
  }

  /** How many entries the listing covers: numEntries, clipped to 0..size. */
  function Clip(n: int, size: nat): (r: nat)
    ensures r <= size && (n >= 0 ==> r <= n)
    ensures 0 <= n <= size ==> r == n
  {
    if n <= 0 then 0 else if n < size then n else size
  }

  /** The list "hist" offers: the history itself with -r, otherwise the deduplicated first n entries. */
  function Working(history: seq<HistoryEntry>, n: int, repetitions: bool): seq<HistoryEntry> {
    if repetitions then history else Dedup(history[..Clip(n, |history|)])
  }

  predicate DistinctLines(xs: seq<HistoryEntry>) {
    forall i, j :: 0 <= i < j < |xs| ==> xs[i].line != xs[j].line
  }

  /** No line is listed twice, every line is listed, and only entries of the history are. */
  lemma {:induction false} DedupProperties(xs: seq<HistoryEntry>)
    ensures DistinctLines(Dedup(xs))
    ensures forall i :: 0 <= i < |xs| ==> xs[i].line in LinesOf(Dedup(xs))
    ensures forall e :: e in Dedup(xs) ==> e in xs
    ensures |Dedup(xs)| <= |xs|
  {
    if |xs| > 0 {
      var init := xs[..|xs| - 1];
      DedupProperties(init);
      var d := Dedup(init);
      forall i | 0 <= i < |xs| ensures xs[i].line in LinesOf(Dedup(xs)) {
        if i < |xs| - 1 {
          assert init[i] == xs[i];
          var k :| 0 <= k < |d| && LinesOf(d)[k] == xs[i].line;
          assert Dedup(xs)[k] == d[k];
        } else if xs[i].line !in LinesOf(d) {
          assert Dedup(xs)[|d|] == xs[i];
        }
      }
      forall e | e in Dedup(xs) ensures e in xs {
        if e in d { assert e in init; } else { assert e == xs[|xs| - 1]; }
      }
    }
  }

  /** The entry kept for a line is its first occurrence. */
  lemma {:induction false} DedupKeepsFirst(xs: seq<HistoryEntry>, i: nat)
    requires i < |xs| && xs[i].line !in LinesOf(xs[..i])
    ensures xs[i] in Dedup(xs)
  {
    var init := xs[..|xs| - 1];
    if i == |xs| - 1 {
      var d := Dedup(init);
      DedupProperties(init);
      assert init == xs[..i];
      forall k | 0 <= k < |d| ensures d[k].line != xs[i].line {
        assert d[k] in d;
        var j :| 0 <= j < |init| && init[j] == d[k];
        assert LinesOf(init)[j] == d[k].line;
      }
    } else {
      assert init[..i] == xs[..i] && init[i] == xs[i];
      DedupKeepsFirst(init, i);
    }
  }

  /**
   * The loop that fills the LinkedHashSet: the first n entries, each added
   * unless an entry with the same line is already in.
   */
  method WorkingList(history: seq<HistoryEntry>, n: int, repetitions: bool) returns (list: seq<HistoryEntry>)
    ensures list == Working(history, n, repetitions)
  {
    if repetitions {
      return history;
    }
    var tmp: seq<HistoryEntry> := [];
    var i := 0;
    while i < n && i < |history|
      invariant 0 <= i <= Clip(n, |history|)
      invariant tmp == Dedup(history[..i])
    {
      assert history[..i + 1][..i] == history[..i];
      if history[i].line !in LinesOf(tmp) {
        tmp := tmp + [history[i]];
      }
      i := i + 1;
    }
    return tmp;
  }

  // ---------------------------------------------------------------- display

  /** Line k of the listing shows the k-th most recent entry of the list. */
  function DisplayLine(list: seq<HistoryEntry>, k: nat): string
    requires 1 <= k <= |list|
  {
    "[" + IntToString(k) + "] " + list[|list| - k].line + "\n"
  }

  /** showHistory: numbered lines for the n most recent entries of the list, newest first. */
  method ShowHistory(list: seq<HistoryEntry>, n: int) returns (shown: seq<string>)
    ensures |shown| == Clip(n, |list|)
    ensures forall k :: 1 <= k <= |shown| ==> shown[k - 1] == DisplayLine(list, k)
  {
    shown := [];
    var i := 0;
    while i < |list| && i < n
      invariant 0 <= i <= Clip(n, |list|) && |shown| == i
      invariant forall k :: 1 <= k <= i ==> shown[k - 1] == DisplayLine(list, k)
    {
      shown := shown + ["[" + IntToString(i + 1) + "] " + list[|list| - i - 1].line + "\n"];
      i := i + 1;
    }
  }

  // -------------------------------------------------------------- selection

  /**
   * The guard as written: an entry is refused only when it is above
   * numEntries or above the list's size, so 0 and negative numbers pass.
   */
  predicate AcceptsAsWritten(entry: int, n: int, size: nat) {
    !(entry > n || entry > size)
  }

  /** The guard as intended: the entries 1..min(numEntries, size) the listing shows. */
  predicate Accepts(entry: int, n: int, size: nat) {
    1 <= entry && AcceptsAsWritten(entry, n, size)
  }

  /** An entry the intended guard accepts is a listed one, and it indexes the list. */
  lemma AcceptedIsListed(entry: int, n: int, size: nat)
    requires Accepts(entry, n, size)
    ensures 1 <= entry <= Clip(n, size)
    ensures 0 <= size - entry < size
  {
  }

  /** What the user's answers come to. */
  datatype Pick = PickQuit | PickEntry(entry: int) | NoPick

  /**
   * The first answer that ends the prompt: "q", or a number the guard as
   * written lets through (0 and negative numbers included); empty lines,
   * non-numbers and numbers above the guard's bounds are skipped.
   */
  function FirstPick(input: seq<string>, n: int, size: nat): (r: Pick)
    ensures r.PickEntry? ==> AcceptsAsWritten(r.entry, n, size)
    ensures r.PickEntry? && r.entry >= 1 ==> Accepts(r.entry, n, size)
  {
    if |input| == 0 then NoPick
    else if input[0] == "q" then PickQuit
    else if input[0] != "" && ParseInt(input[0]).Some? && AcceptsAsWritten(ParseInt(input[0]).value, n, size)
    then PickEntry(ParseInt(input[0]).value)
    else FirstPick(input[1..], n, size)
  }

  /** Answers that are all skipped leave the prompt waiting; "q" after them leaves it. */
  lemma {:induction false} SkippedAnswers(skipped: seq<string>, rest: seq<string>, n: int, size: nat)
    requires forall i :: 0 <= i < |skipped| ==>
      skipped[i] != "q" &&
      (skipped[i] == "" || ParseInt(skipped[i]).None? || !AcceptsAsWritten(ParseInt(skipped[i]).value, n, size))
    ensures FirstPick(skipped + rest, n, size) == FirstPick(rest, n, size)
  {
    if |skipped| > 0 {
      assert (skipped + rest)[0] == skipped[0];
      assert (skipped + rest)[1..] == skipped[1..] + rest;
      SkippedAnswers(skipped[1..], rest, n, size);
    } else {
      assert skipped + rest == rest;
    }
  }

  /** The reading loop of execute(): answers are read until one ends the prompt. */
  method ReadPick(input: seq<string>, n: int, size: nat) returns (pick: Pick)
    ensures pick == FirstPick(input, n, size)
  {
    var i := 0;
    while i < |input|
      invariant 0 <= i <= |input|
      invariant FirstPick(input[i..], n, size) == FirstPick(input, n, size)
    {
      var line := input[i];
      if line == "q" {
        return PickQuit;
      }
      if line != "" {
        var parsed := ParseInt(line);
        if parsed.Some? {
          var entry := parsed.value;
          if entry > n || entry > size {
            // "Invalid entry, please type a valid one"
          } else {
            return PickEntry(entry);
          }
        }
      }
      assert input[i..][1..] == input[i + 1..];
      i := i + 1;
    }
    return NoPick;
  }

  /** How "hist" ends. */
  datatype HistEnd =
    | Quit                        // the user typed "q"
    | Replayed(result: Value)     // the chosen entry ran again
    | ReplayFailed(line: string)  // it returned ERROR: ExecutionException naming a line
    | IndexFailed(entry: int)     // 0 or a negative answer: history.get(size - entry) is out of bounds
    | InputClosed                 // readLine gave null: the source keeps reading for ever

  /**
   * execute(): build the list, show it, then read answers until one ends the
   * prompt; a chosen entry is run again as a console line, which records it
   * in the history once more.
   */
  method Execute(svc: ExecutionService, n: int, repetitions: bool, input: seq<string>)
    returns (shown: seq<string>, end: HistEnd)
    modifies svc
    ensures var list := Working(old(svc.history), n, repetitions);
      |shown| == Clip(n, |list|) &&
      (forall k :: 1 <= k <= |shown| ==> shown[k - 1] == DisplayLine(list, k)) &&
      EndsAs(FirstPick(input, n, |list|), list, repetitions, old(svc.consoleCommands), old(svc.history),
             old(svc.dynamicObjects), svc.execute, end, svc.history)
    ensures svc.consoleCommands == old(svc.consoleCommands) && svc.loadedCommands == old(svc.loadedCommands)
    ensures svc.dynamicObjects == old(svc.dynamicObjects)
  {
    var list := WorkingList(svc.history, n, repetitions);
    shown := ShowHistory(list, n);
    var pick := ReadPick(input, n, |list|);
    end := Finish(svc, list, repetitions, pick);
  }

  /**
   * The line the failure message names: entry `k` counted from the end of the
   * list as it is after the replay. With repetitions the list is the service's
   * own history, which the replay may have grown by one.
   */
  function FailedLine(list: seq<HistoryEntry>, repetitions: bool, history': seq<HistoryEntry>, k: int): string
    requires 1 <= k <= |list|
    requires repetitions ==> |list| <= |history'|
  {
    var h := if repetitions then history' else list;
    h[|h| - k].line
  }

  /**
   * How the prompt ends after `pick`, with the history going from `history`
   * to `history'`: "q" and closed input change nothing; 0 or a negative entry
   * fails on the index and changes nothing; a chosen entry k is the k-th newest
   * of `list`, which runs again as a console line and is recorded once more.
   */
  predicate EndsAs(pick: Pick, list: seq<HistoryEntry>, repetitions: bool, commands: map<string, CommandType>,
                   history: seq<HistoryEntry>, store: map<string, Value>, execute: Executor,
                   end: HistEnd, history': seq<HistoryEntry>)
  {
    match pick
    case PickQuit => end == Quit && history' == history
    case NoPick => end == InputClosed && history' == history
    case PickEntry(k) =>
      if k < 1 then end == IndexFailed(k) && history' == history
      else
        k <= |list| &&
        var args := list[|list| - k].args;
        history' == AfterConsoleLine(commands, history, args) &&
        (repetitions ==> |list| <= |history'|) &&
        end == ReplayEnd(RunValue(commands, args, store, execute), FailedLine(list, repetitions, history', k))
  }

  /** The end of execute(), once the answer is known. */
  method Finish(svc: ExecutionService, list: seq<HistoryEntry>, repetitions: bool, pick: Pick) returns (end: HistEnd)
    requires pick.PickEntry? ==> pick.entry <= |list|
    requires repetitions ==> list == svc.history
    modifies svc
    ensures EndsAs(pick, list, repetitions, old(svc.consoleCommands), old(svc.history), old(svc.dynamicObjects),
                   svc.execute, end, svc.history)
    ensures svc.consoleCommands == old(svc.consoleCommands) && svc.loadedCommands == old(svc.loadedCommands)
    ensures svc.dynamicObjects == old(svc.dynamicObjects)
  {
    match pick {
      case PickQuit => end := Quit;
      case NoPick => end := InputClosed;
      case PickEntry(entry) =>
        if entry < 1 {
          end := IndexFailed(entry);
        } else {
          end := Replay(svc, list, repetitions, entry);
        }
    }
  }

  /** How the prompt ends once the chosen entry ran again and returned r. */
  function ReplayEnd(r: Value, line: string): HistEnd {
    if r == VError then ReplayFailed(line) else Replayed(r)
  }

  /** Running entry `k` of the list again as a console line, and how the prompt then ends. */
  method Replay(svc: ExecutionService, list: seq<HistoryEntry>, repetitions: bool, k: int) returns (end: HistEnd)
    requires 1 <= k <= |list|
    requires repetitions ==> list == svc.history
    modifies svc
    ensures var args := list[|list| - k].args;
      svc.history == AfterConsoleLine(old(svc.consoleCommands), old(svc.history), args) &&
      (repetitions ==> |list| <= |svc.history|) &&
      end == ReplayEnd(RunValue(old(svc.consoleCommands), args, old(svc.dynamicObjects), svc.execute),
                       FailedLine(list, repetitions, svc.history, k))
    ensures svc.consoleCommands == old(svc.consoleCommands) && svc.loadedCommands == old(svc.loadedCommands)
    ensures svc.dynamicObjects == old(svc.dynamicObjects)
  {
    var retval := svc.RunCommandAs(list[|list| - k].args, true);
    var h := if repetitions then svc.history else list;
    end := ReplayEnd(retval, h[|h| - k].line);
  }

  /**
   * The answer "0" passes the guard as written and ends the prompt on the
   * index, with nothing replayed: the console then reports ERROR instead of
   * asking again, and a later "q" is never read.
   */
  lemma ZeroAnswerFails(rest: seq<string>, list: seq<HistoryEntry>, n: int, repetitions: bool,
                        commands: map<string, CommandType>, history: seq<HistoryEntry>, store: map<string, Value>,
                        execute: Executor, end: HistEnd, history': seq<HistoryEntry>)
    requires n >= 0
    requires EndsAs(FirstPick(["0"] + rest, n, |list|), list, repetitions, commands, history, store, execute, end, history')
    ensures end == IndexFailed(0) && history' == history
  {
    assert (["0"] + rest)[0] == "0";
    assert ParseInt("0") == Some(0) by {
      ParseIntegralOfToString(0, MinInt, MaxInt);
      assert IntToString(0) == "0";
    }
  }
}
