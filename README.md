# ExecutionUtilities command engine, in Dafny

This project models the command-dispatch engine of ExecutionUtilities, a
Java library for building console tools. It also models the library's
small utilities. The model covers:

- how a command class declares its parameters with annotations:
  positional inputs, named flags and dynamic flags;
- how those declarations are checked and registered in the
  `ExecutionService`;
- how a token list is bound to a command's setters (`readParams` and
  `checkInputClass`, in the current and in the older `Command` class);
- how `runCommand` resolves a name, records the console history, runs the
  command and folds every failure into the single `ERROR` value.

The console commands `hist`, `batch`, `obj` and `exec` are modelled over
that service. So are the utilities: `StringUtils.join`/`split`,
`Jar.checkClass`, the `Statistics` column table with its CSV export, the
`StopWatch` and `FileWriteOperation.Mode`.

Reflection is replaced by explicit declaration tables:

- A command class is a `CommandType`, holding its setters in `getMethods()`
  order.
- Each setter carries its parameter types and its `CommandInput`,
  `DynamicInput` and `PositionalInput` annotations.
- Invoking a setter is recorded as a `Call`, so the result of binding is the
  sequence of calls made.
- A command's own `execute()` is a parameter of the service (`Executor`).
  Given the class, the calls made and the store, it says whether `execute()`
  completed (with the object of a loader command) or threw.

Modules follow the Java files:

| module | file | Java source |
|---|---|---|
| `Wrappers` | `wrappers.dfy` | `Option`/`Result` |
| `JavaLang` | `java_lang.dfy` | the `java.lang` behaviour the core relies on: `parseInt`/`parseShort`/`parseLong`, `toLowerCase`, `trim`, `replace`, long wrap-around, truncating division |
| `JavaTypes` | `java_types.dfy` | parameter types and runtime values |
| `Declarations` | `declarations.dfy` | annotations and the tables `loadReadableFields` fills |
| `Coercion` | `coercion.dfy` | `checkInputClass` |
| `GlobalCommand`, `GlobalBinding` | `global_command.dfy`, `global_binding.dfy` | `global/Command.java` and the properties of its binder |
| `LegacyCommand` | `legacy_command.dfy` | `command/Command.java` |
| `StringUtils` | `string_utils.dfy` | `util/StringUtils.java` |
| `Service` | `execution_service.dfy` | `global/ExecutionService.java` |
| `History`, `Batch`, `Obj`, `Exec`, `Jar` | one file each | the console commands |
| `Stats` | `statistics.dfy` | `util/stats/Statistics.java` |
| `Csv` | `csv_exporter.dfy` | `util/stats/StatisticsCSVExporter.java` |
| `Watch` | `stop_watch.dfy` | `util/StopWatch.java` |
| `FileWrite` | `file_write_operation.dfy` | `util/FileWriteOperation.java` |

The model follows the code as written, also where the documentation or the
annotations' comments say otherwise. There are three such places:

- a repeated position passes `checkPositions`, so such a command is registered;
- `hist` accepts 0 and negative answers, which then fail on the list index;
- `getMedian` reorders a stored column.

Each is recorded under "## Findings", beside a corrected definition and the
property proved about it.

## Model

| member | source | states |
|---|---|---|
| StringUtils.Join | src/main/java/eu/unitn/disi/db/command/util/StringUtils.java:43-51 | join(a, sep) fails exactly on an empty array (array[0] is read unconditionally); otherwise it is a[0] + sep + … + sep + a[n-1], and a single element joins to itself |
| StringUtils.JoinChar | src/main/java/eu/unitn/disi/db/command/util/StringUtils.java:39-41 | join with a char separator fails exactly when join with the one-character string does, and otherwise gives the same text |
| StringUtils.JoinedLength | src/main/java/eu/unitn/disi/db/command/util/StringUtils.java:46-49 | joining n ≥ 1 pieces adds exactly n - 1 separators to the pieces' own text |
| StringUtils.JoinedCons | src/main/java/eu/unitn/disi/db/command/util/StringUtils.java:46-49 | the joined text is the first piece, the separator, then the join of the rest |
| StringUtils.Find | src/main/java/eu/unitn/disi/db/command/util/StringUtils.java:61-64 | split cuts at the leftmost occurrence of the separator, compared literally (Pattern.quote): no earlier index holds it |
| StringUtils.DropTrailingEmpty | src/main/java/eu/unitn/disi/db/command/util/StringUtils.java:61-64 | Java's split drops the trailing empty pieces and only those: the result is a prefix of the pieces, every piece after it is empty, and its last piece, if any, is not empty |
| StringUtils.JoinedPieces | src/main/java/eu/unitn/disi/db/command/util/StringUtils.java:61-64 | the pieces between the occurrences of a separator, empty ones included, join back to the string |
| StringUtils.PiecesLastNonEmpty | src/main/java/eu/unitn/disi/db/command/util/StringUtils.java:61-64 | a non-empty string that does not end with the separator has a non-empty last piece, so split keeps every piece |
| StringUtils.SplitJoinRoundTrip | src/main/java/eu/unitn/disi/db/command/util/StringUtils.java:43-64 | join(split(s, sep), sep) == s for every s that does not end with sep |
| StringUtils.PiecesAvoidSeparator | src/main/java/eu/unitn/disi/db/command/util/StringUtils.java:61-64 | no piece contains the separator |
| StringUtils.SplitAvoidsSeparator | src/main/java/eu/unitn/disi/db/command/util/StringUtils.java:61-64 | no piece that split returns contains the separator: the cut is literal and complete |
| StringUtils.PiecesOfJoined | src/main/java/eu/unitn/disi/db/command/util/StringUtils.java:43-64 | the pieces of a join on a one-character separator that no element contains are the elements |
| StringUtils.JoinSplitRoundTrip | src/main/java/eu/unitn/disi/db/command/util/StringUtils.java:43-64 | split(join(a, c), c) == a when no element contains c and the last element is not empty |
| JavaLang.NatToString | src/main/java/eu/unitn/disi/db/command/global/History.java:115 | the decimal text of a natural number, as %d prints it, is non-empty and all digits |
| JavaLang.IntToString | src/main/java/eu/unitn/disi/db/command/global/History.java:115 | the decimal text of an integer starts with a digit, or with '-' exactly for negative ones |
| JavaLang.NatToStringValue | src/main/java/eu/unitn/disi/db/command/global/Command.java:288-289 | the digits printed for n denote n |
| JavaLang.ParseIntegral | src/main/java/eu/unitn/disi/db/command/global/Command.java:296-299 | parseInt/parseShort/parseLong succeed only with a value inside the type's range, and never on the empty string |
| JavaLang.ParseIntegralOfToString | src/main/java/eu/unitn/disi/db/command/global/Command.java:289 | parsing the printed form of an in-range integer gives it back |
| JavaLang.Lower | src/main/java/eu/unitn/disi/db/command/global/ExecutionService.java:162 | toLowerCase keeps the length and lowers every ASCII capital letter in place |
| JavaLang.LowerIdempotent | src/main/java/eu/unitn/disi/db/command/global/ExecutionService.java:111 | lower-casing twice, as addExecutableCommand and addCommand do, is lower-casing once |
| JavaLang.Trim | src/main/java/eu/unitn/disi/db/command/global/Batch.java:60 | trim cuts only characters up to U+0020, only from the two ends: the result is a slice of the input with such characters alone before and after it, and it neither starts nor ends with one |
| JavaLang.TrimStart | src/main/java/eu/unitn/disi/db/command/global/Batch.java:60 | the leading part trim drops is all characters up to U+0020, what is left is the rest of the text, and it does not start with such a character |
| JavaLang.TrimEnd | src/main/java/eu/unitn/disi/db/command/global/Batch.java:60 | the trailing part trim drops is all characters up to U+0020, what is left is the start of the text, and it does not end with such a character |
| JavaLang.Wrap64 | src/main/java/eu/unitn/disi/db/command/util/StopWatch.java:149-151 | the long a difference of two longs wraps to is the difference itself whenever it fits |
| JavaLang.TruncDiv | src/main/java/eu/unitn/disi/db/command/util/StopWatch.java:153 | Java's long division rounds toward zero: the quotient of the magnitudes, negative exactly when the signs differ |
| Declarations.Get | src/main/java/eu/unitn/disi/db/command/global/Command.java:184 | Map.get on a present key returns the value of its entry |
| Declarations.Put | src/main/java/eu/unitn/disi/db/command/global/Command.java:156 | Map.put keeps a present key in place with the new value, puts a new key last, and leaves every other key as it was |
| Declarations.Remove | src/main/java/eu/unitn/disi/db/command/global/Command.java:196 | Map.remove takes out exactly that key, keeps every other entry, and keeps keys distinct |
| Declarations.NamedDescription | src/main/java/eu/unitn/disi/db/command/global/Command.java:152-154 | an optional flag's help text starts with "[optional] ", a non-empty default d adds " (default d)", and a mandatory flag without default shows only its description |
| Declarations.LoadNamedDistinct | src/main/java/eu/unitn/disi/db/command/global/Command.java:156 | the named-parameter table never holds a flag twice |
| Declarations.LoadNamedEntries | src/main/java/eu/unitn/disi/db/command/global/Command.java:156 | every named entry carries the setter and annotation of a method that declares that flag |
| Declarations.LoadNamedKeys | src/main/java/eu/unitn/disi/db/command/global/Command.java:146-157 | a flag is in the named table exactly when some method declares it |
| Declarations.LoadPositionKeys | src/main/java/eu/unitn/disi/db/command/global/Command.java:163-166 | a position has a setter exactly when some method declares it |
| Declarations.LoadPositionalNames | src/main/java/eu/unitn/disi/db/command/global/Command.java:165 | the positional names are those some method declares, each kept once |
| Declarations.LoadLastDeclarationWins | src/main/java/eu/unitn/disi/db/command/global/Command.java:156 | when two methods declare one flag, the later one in getMethods() order wins, as HashMap.put overwrites |
| Declarations.LoadTwoNamed | src/main/java/eu/unitn/disi/db/command/global/Command.java:155-156 | two methods with different flags give both flags, in order, and no positional parameter |
| Declarations.LoadTwoPositional | src/main/java/eu/unitn/disi/db/command/global/Command.java:165-166 | two positional methods give both positions and both names, in order |
| Declarations.LinesListEveryEntry | src/main/java/eu/unitn/disi/db/command/global/Command.java:112 | every entry of a help map has its "name\tdescription\n" line in the text |
| Coercion.IntegralValue | src/main/java/eu/unitn/disi/db/command/global/Command.java:288-299 | a successful int, short or long parse gives a value of that primitive type |
| Coercion.FloatingValue | src/main/java/eu/unitn/disi/db/command/global/Command.java:292-295 | a float or double parse gives a value of that primitive type exactly when the literal is accepted |
| Coercion.ParsedNumber | src/main/java/eu/unitn/disi/db/command/global/Command.java:256-277 | an array element is parsed into a value of the component's primitive type, or fails |
| Coercion.NumberValue | src/main/java/eu/unitn/disi/db/command/global/Command.java:256-277 | a successful parse of an element gives a value of the component's primitive type |
| Coercion.FirstBad | src/main/java/eu/unitn/disi/db/command/global/Command.java:257-259 | the Array.set loop stops at the first element that does not parse: every earlier one parses |
| Coercion.ArrayFromPieces | src/main/java/eu/unitn/disi/db/command/global/Command.java:253-281 | a successful array branch builds an array of the component type with one item per piece; a number-format failure names one of the pieces |
| Coercion.ParsedPieces | src/main/java/eu/unitn/disi/db/command/global/Command.java:257-277 | every piece parsed in order, or the NumberFormatException of a piece that does not parse |
| Coercion.Coerce | src/main/java/eu/unitn/disi/db/command/global/Command.java:249-313 | checkInputClass: every value built fits the parameter type; boolean is parseBoolean, which never fails; boxed types, Object and other classes are refused (newInstance fails or no branch matches) |
| Coercion.CheckInputClass | src/main/java/eu/unitn/disi/db/command/global/Command.java:249-313 | the array branch fills the new array in a loop and gives what Coerce describes |
| Coercion.FillArray | src/main/java/eu/unitn/disi/db/command/global/Command.java:255-281 | the array is filled piece by piece as ArrayFromPieces describes |
| Coercion.ParsePieces | src/main/java/eu/unitn/disi/db/command/global/Command.java:257-259 | the Array.set loop parses the pieces in order and throws on the first one that fails |
| Coercion.CoerceScalars | src/main/java/eu/unitn/disi/db/command/global/Command.java:288-306 | String passes as is; char is the first character (fails on ""); byte is refused; int, short and long are parsed, with NumberFormatException on bad text |
| Coercion.CoerceArrays | src/main/java/eu/unitn/disi/db/command/global/Command.java:253-281 | String[] is the comma-separated pieces unchanged; boolean[] and char[] are refused |
| Coercion.CoerceIntRoundTrip | src/main/java/eu/unitn/disi/db/command/global/Command.java:288-289 | coercing the printed form of an int gives the int back |
| Coercion.CoerceIntArrayRoundTrip | src/main/java/eu/unitn/disi/db/command/global/Command.java:254-259 | a comma-separated list of printed ints coerces to the int[] that holds them |
| Coercion.EmptyStringArray | src/main/java/eu/unitn/disi/db/command/global/Command.java:254-261 | the empty text coerces to the String[] holding one empty string |
| GlobalCommand.Invoke | src/main/java/eu/unitn/disi/db/command/global/Command.java:186 | Method.invoke succeeds exactly when the setter takes one parameter that accepts the value, and records that call |
| GlobalCommand.SetFromText | src/main/java/eu/unitn/disi/db/command/global/Command.java:185-186 | setting a parameter from text succeeds only when checkInputClass succeeds for the setter's type and the setter accepts the value |
| GlobalCommand.ScanStep | src/main/java/eu/unitn/disi/db/command/global/Command.java:191-221 | one step of the scan either stops with an error, or moves on by one or two tokens with exactly one more call; the pending map is kept or loses exactly that flag |
| GlobalCommand.Command.constructor | src/main/java/eu/unitn/disi/db/command/global/Command.java:131-169 | a new command's tables are those loadReadableFields builds from its methods, with no call made |
| GlobalCommand.Command.LoadReadableFields | src/main/java/eu/unitn/disi/db/command/global/Command.java:131-169 | fills the six tables from the annotated methods, in getMethods() order |
| GlobalCommand.Command.ReadParams | src/main/java/eu/unitn/disi/db/command/global/Command.java:172-247 | binding leaves the error, pending flags and calls Bind describes, including the calls made before a failure; the tables are unchanged |
| GlobalCommand.Command.SetParameter | src/main/java/eu/unitn/disi/db/command/global/Command.java:185-186 | setter.invoke(checkInputClass(type, text)) as SetFromText describes |
| GlobalCommand.Command.Scan | src/main/java/eu/unitn/disi/db/command/global/Command.java:191-221 | the second loop of readParams gives what ScanFrom describes and changes only the pending named map |
| GlobalCommand.Command.ApplyDefaults | src/main/java/eu/unitn/disi/db/command/global/Command.java:224-235 | the defaults loop gives what DefaultsOf describes |
| GlobalCommand.Command.Exec | src/main/java/eu/unitn/disi/db/command/global/Command.java:323-343 | exec binds first, leaving the pending flags and calls as Bind describes and every other table unchanged, and runs execute() only if binding succeeded |
| GlobalCommand.Command.Help | src/main/java/eu/unitn/disi/db/command/global/Command.java:106-128 | help is the description, then a section for each non-empty table |
| GlobalCommand.AppendLines | src/main/java/eu/unitn/disi/db/command/global/Command.java:111-113 | the StringBuilder loop appends "key\tvalue\n" for every entry, in order |
| GlobalBinding.PositionalsSucceed | src/main/java/eu/unitn/disi/db/command/global/Command.java:182-190 | a successful positional phase calls the setter of position j+1 with token j coerced, for every j < k, in order, and nothing else |
| GlobalBinding.PositionalsExtend | src/main/java/eu/unitn/disi/db/command/global/Command.java:182-190 | the positional phase reads no token past the k-th |
| GlobalBinding.ScanSwitch | src/main/java/eu/unitn/disi/db/command/global/Command.java:199-200 | a pending flag whose setter takes a primitive boolean stands alone: it sets true, moves on by one and stops being pending |
| GlobalBinding.ScanValued | src/main/java/eu/unitn/disi/db/command/global/Command.java:201-205 | any other pending flag takes the next token, coerced, and moves on by two; as the last token it is an ArrayIndexOutOfBounds error; either way it stops being pending |
| GlobalBinding.ScanBoxedBoolean | src/main/java/eu/unitn/disi/db/command/global/Command.java:199-202 | a Boolean (boxed) flag is no switch: its value goes through checkInputClass, which refuses the boxed type |
| GlobalBinding.ScanDynamic | src/main/java/eu/unitn/disi/db/command/global/Command.java:207-217 | a dynamic flag without a next token, or naming no stored object, is an error; otherwise the stored object reaches the setter uncoerced, and the flag is not removed |
| GlobalBinding.ScanAppends | src/main/java/eu/unitn/disi/db/command/global/Command.java:191-221 | the scan only appends calls |
| GlobalBinding.ScanKeeps | src/main/java/eu/unitn/disi/db/command/global/Command.java:192-196 | a flag that no remaining token names stays pending, with its entry |
| GlobalBinding.ScanExtend | src/main/java/eu/unitn/disi/db/command/global/Command.java:191-221 | a successful scan reads no token past its own list |
| GlobalBinding.DefaultsSucceed | src/main/java/eu/unitn/disi/db/command/global/Command.java:224-235 | the defaults pass succeeds exactly when every flag left is optional and its default text sets its setter |
| GlobalBinding.DefaultsPermute | src/main/java/eu/unitn/disi/db/command/global/Command.java:226-234 | the defaults pass does not depend on the order of the calls made before it |
| GlobalBinding.DefaultsMakeDefaultCalls | src/main/java/eu/unitn/disi/db/command/global/Command.java:224-235 | a successful defaults pass adds exactly one call per pending flag, the setter call for its default text, in the order the flags are visited |
| GlobalBinding.DefaultCallsPermute | src/main/java/eu/unitn/disi/db/command/global/Command.java:224-235 | visiting the same pending flags in another order makes the same default calls, counted with repetition |
| GlobalBinding.DefaultsOrderFree | src/main/java/eu/unitn/disi/db/command/global/Command.java:224-235 | whether the defaults pass succeeds does not depend on the order of the pending flags, and when it succeeds the calls made are the same up to order |
| GlobalBinding.DefaultsRemove | src/main/java/eu/unitn/disi/db/command/global/Command.java:226-234 | making a flag's default call beforehand and dropping it from the pass gives the same calls |
| GlobalBinding.BindPositionalPrefix | src/main/java/eu/unitn/disi/db/command/global/Command.java:182-191 | on success the first k tokens were bound to positions 1..k in order before any flag; with fewer than k tokens binding fails |
| GlobalBinding.BindExtendsPositionals | src/main/java/eu/unitn/disi/db/command/global/Command.java:191-235 | the named scan and the defaults only append to the calls of the positional phase |
| GlobalBinding.BindStrayToken | src/main/java/eu/unitn/disi/db/command/global/Command.java:218-220 | a token after the positionals that is neither a pending nor a dynamic flag aborts binding, naming that token |
| GlobalBinding.BindRepeatedFlag | src/main/java/eu/unitn/disi/db/command/global/Command.java:189-218 | in a successful binding, a token read as a flag a second time is a dynamic flag: a named flag is removed from the table at its first use, so a second use anywhere on the line is refused |
| GlobalBinding.BindRepeatedRightAway | src/main/java/eu/unitn/disi/db/command/global/Command.java:190-220 | for instance, a named flag repeated right after its first use (after its value, for a valued flag) is refused |
| GlobalBinding.FlagIndices | src/main/java/eu/unitn/disi/db/command/global/Command.java:189-218 | the tokens the loop reads as flags: indices in the scanned range, strictly increasing, value tokens skipped |
| GlobalBinding.UnpendedNotReread | src/main/java/eu/unitn/disi/db/command/global/Command.java:190-220 | in a successful scan a token that is neither a pending nor a dynamic flag is never read as a flag |
| GlobalBinding.ScanReadsNamedOnce | src/main/java/eu/unitn/disi/db/command/global/Command.java:189-218 | in a successful scan over distinct pending flags, only dynamic flags are read as flags more than once |
| GlobalBinding.NamedStepUnpends | src/main/java/eu/unitn/disi/db/command/global/Command.java:190-194 | a step past a token that is not dynamic removes it from the pending flags, which stay distinct |
| GlobalBinding.FlagStepRemoves | src/main/java/eu/unitn/disi/db/command/global/Command.java:190-201 | a pending flag moves the loop on by one token for a switch and two otherwise, and is no longer pending |
| GlobalBinding.StrayStops | src/main/java/eu/unitn/disi/db/command/global/Command.java:218-220 | a token that is neither pending nor dynamic stops the loop |
| GlobalBinding.OnlyDynamicRepeatCons | src/main/java/eu/unitn/disi/db/command/global/Command.java:189-218 | a flag token that is dynamic, or does not occur later, keeps the property that only dynamic flags repeat |
| GlobalBinding.ScanRepeatedDynamic | src/main/java/eu/unitn/disi/db/command/global/Command.java:207-217 | a dynamic flag may be given any number of times, each time handing the stored object itself to its setter |
| GlobalBinding.BindMandatoryMissing | src/main/java/eu/unitn/disi/db/command/global/Command.java:230-231 | a mandatory flag that no token names makes binding fail |
| GlobalBinding.BindDefaultExplicit | src/main/java/eu/unitn/disi/db/command/global/Command.java:233 | an absent optional flag gets exactly what giving it with its default text would give |
| GlobalBinding.SectionListsEveryEntry | src/main/java/eu/unitn/disi/db/command/global/Command.java:109-126 | each help section lists every entry of its table |
| GlobalBinding.HelpStartsWithDescription | src/main/java/eu/unitn/disi/db/command/global/Command.java:107-108 | the help starts with the description and a line end |
| GlobalBinding.HelpListsEveryParameter | src/main/java/eu/unitn/disi/db/command/global/Command.java:106-128 | the help has a line for every positional, named and dynamic parameter |
| GlobalBinding.PositionalHead | src/main/java/eu/unitn/disi/db/command/global/Command.java:183-186 | one positional step sets position i+1 from token i |
| GlobalBinding.DefaultsHead | src/main/java/eu/unitn/disi/db/command/global/Command.java:232-233 | one defaults step sets an optional flag from its default |
| GlobalBinding.BindNoTokens | src/main/java/eu/unitn/disi/db/command/global/Command.java:224-235 | with no tokens and no positional parameter, binding is the defaults pass alone |
| GlobalBinding.BindOnlyPositionals | src/main/java/eu/unitn/disi/db/command/global/Command.java:191 | when the tokens are exactly the positionals, the scan has nothing to do |
| LegacyCommand.LegacySet | src/main/java/eu/unitn/disi/db/command/Command.java:169-170 | setting from text succeeds only when checkInputClass and the setter both accept; every failure is one WrongParameterException |
| LegacyCommand.Command.constructor | src/main/java/eu/unitn/disi/db/command/Command.java:120-147 | a new command holds the named and dynamic tables of its methods and no call |
| LegacyCommand.Command.LoadReadableFields | src/main/java/eu/unitn/disi/db/command/Command.java:120-147 | the named and dynamic tables and descriptions only; positional annotations are ignored |
| LegacyCommand.Command.ReadParams | src/main/java/eu/unitn/disi/db/command/Command.java:149-210 | the token loop advancing by one, then the defaults loop, as Bind describes |
| LegacyCommand.Command.SetParameter | src/main/java/eu/unitn/disi/db/command/Command.java:169-170 | checkInputClass then invoke, as LegacySet describes |
| LegacyCommand.Command.ApplyDefaults | src/main/java/eu/unitn/disi/db/command/Command.java:195-206 | the defaults loop as DefaultsOf describes |
| LegacyCommand.Command.Help | src/main/java/eu/unitn/disi/db/command/Command.java:104-117 | the description, the named lines without a header, then the dynamic section only when there is one |
| LegacyCommand.UnknownTokensSkipped | src/main/java/eu/unitn/disi/db/command/Command.java:156-193 | tokens that name no flag are skipped, so a line of such tokens binds only the defaults |
| LegacyCommand.ValueTokenReexamined | src/main/java/eu/unitn/disi/db/command/Command.java:156 | the value token of an arity-2 flag is looked at again as a flag |
| LegacyCommand.RepeatedFlagSkipped | src/main/java/eu/unitn/disi/db/command/Command.java:177 | a named flag given twice is set once; its second occurrence is skipped like an unknown token |
| LegacyCommand.DynamicFlag | src/main/java/eu/unitn/disi/db/command/Command.java:178-192 | a dynamic flag needs a next token naming a stored object, which its setter receives uncoerced; the loop then moves on by one token |
| LegacyCommand.FlagArity | src/main/java/eu/unitn/disi/db/command/Command.java:162-175 | too few tokens for the arity, or an arity other than 1 and 2, is refused when the flag is reached |
| LegacyCommand.ScanKeeps | src/main/java/eu/unitn/disi/db/command/Command.java:157-177 | a flag no token names stays pending with its entry |
| LegacyCommand.MandatoryMissing | src/main/java/eu/unitn/disi/db/command/Command.java:201-202 | a mandatory flag no token names makes binding fail |
| LegacyCommand.DefaultsFailOnMandatory | src/main/java/eu/unitn/disi/db/command/Command.java:197-202 | a pending mandatory flag makes the defaults loop fail |
| LegacyCommand.HelpListsEveryFlag | src/main/java/eu/unitn/disi/db/command/Command.java:104-117 | the help starts with the description and the named lines, lists every flag, and has no dynamic section without dynamic flags |
| Service.AnnotationsOf | src/main/java/eu/unitn/disi/db/command/global/ExecutionService.java:234-251 | the annotations checkCommandCorrectness visits on a method: one per annotation, each with that method's parameter count |
| Service.CheckPositions | src/main/java/eu/unitn/disi/db/command/global/ExecutionService.java:259-266 | checkPositions holds exactly when 1..size all occur in the collection |
| Service.CheckCommandCorrectness | src/main/java/eu/unitn/disi/db/command/global/ExecutionService.java:227-257 | the nested loops give what CorrectnessAsWritten describes: the first setter with a wrong arity, the first repeated flag, or a set of positions other than 1..n, with a repeated position passing |
| Service.ScanAnnsOk | src/main/java/eu/unitn/disi/db/command/global/ExecutionService.java:234-253 | the scan passes exactly when every annotated method takes one parameter and no flag repeats, and it gathers the positions in order |
| Service.AnnsArity | src/main/java/eu/unitn/disi/db/command/global/ExecutionService.java:238 | every annotation is on a one-parameter method exactly when every annotated method takes one parameter |
| Service.CorrectnessIff | src/main/java/eu/unitn/disi/db/command/global/ExecutionService.java:227-266 | the corrected check, on the list of positions, passes exactly when the command is well declared: unary setters, unique flags, each of the positions 1..n once |
| Service.CorrectnessAsWrittenIff | src/main/java/eu/unitn/disi/db/command/global/ExecutionService.java:227-266 | the check as written passes exactly when every setter is unary, no flag name repeats and the set of positions is 1..n |
| Service.CorrectedPasses | src/main/java/eu/unitn/disi/db/command/global/ExecutionService.java:231 | every command the corrected check passes also passes the check as written |
| Service.Interval | src/main/java/eu/unitn/disi/db/command/global/ExecutionService.java:259-266 | the set {1..n} has n elements |
| Service.CoversSetIff | src/main/java/eu/unitn/disi/db/command/global/ExecutionService.java:259-266 | checkPositions on a set S holds exactly when S is {1..n} for n its size |
| Service.PositionsDeclared | src/main/java/eu/unitn/disi/db/command/global/ExecutionService.java:250 | a position is gathered exactly when some method declares it |
| Service.AnnotationPositions | src/main/java/eu/unitn/disi/db/command/global/ExecutionService.java:246-250 | a method contributes its declared position, if any |
| Service.LoadPositionalCount | src/main/java/eu/unitn/disi/db/command/global/Command.java:163-167 | loadReadableFields keeps at most one positional name per positional method |
| Service.PositionsCount | src/main/java/eu/unitn/disi/db/command/global/ExecutionService.java:250 | one position is gathered per positional method |
| Service.PositionalsNeverMissing | src/main/java/eu/unitn/disi/db/command/global/Command.java:182-189 | the positional loop never finds a position missing when 1..k all have setters |
| Service.CorrectedPositionsBind | src/main/java/eu/unitn/disi/db/command/global/Command.java:182-189 | with the positions checked as a list, a registered command never fails binding for want of a positional setter |
| Service.RepeatedPositionAccepted | src/main/java/eu/unitn/disi/db/command/global/ExecutionService.java:231 | as written, a command declaring position 1 twice passes the check, then fails every binding |
| Service.RepeatedPositionRegistered | src/main/java/eu/unitn/disi/db/command/global/ExecutionService.java:81-98 | a concrete class declaring position 1 twice is registered under its name |
| Service.Decoded | src/main/java/eu/unitn/disi/db/command/global/ExecutionService.java:158-161 | each token with every "=%=" removed |
| Service.RegistryKeys | src/main/java/eu/unitn/disi/db/command/global/ExecutionService.java:81-98 | a name is registered exactly when a class found is concrete, in that map's kind, passes the check as written and registers under that name |
| Service.RegistryEntries | src/main/java/eu/unitn/disi/db/command/global/ExecutionService.java:81-98 | every registered class passed the check as written, is concrete, is in the map its ConsoleCommand annotation chooses, and sits under its own lower-case name |
| Service.RegistryLastWins | src/main/java/eu/unitn/disi/db/command/global/ExecutionService.java:117 | of several classes with one name, the last one found wins |
| Service.LookupIgnoresCase | src/main/java/eu/unitn/disi/db/command/global/ExecutionService.java:162 | the lookup of a command name ignores its case |
| Service.RunValueError | src/main/java/eu/unitn/disi/db/command/global/ExecutionService.java:152-190 | runCommand returns ERROR exactly when the name is unknown, binding fails, execute() throws, or a loader's object is itself ERROR; otherwise a non-loader returns a plain new Object() |
| Service.ExecutionService.constructor | src/main/java/eu/unitn/disi/db/command/global/ExecutionService.java:72-99 | registers every concrete class that passes the check as written, console commands by their console name, others by their lower-cased simple name; failures are skipped |
| Service.ExecutionService.AddExecutableCommand | src/main/java/eu/unitn/disi/db/command/global/ExecutionService.java:109-112 | the check as written decides; on success the loaded map gains the lower-cased name; nothing else changes |
| Service.ExecutionService.AddCommand | src/main/java/eu/unitn/disi/db/command/global/ExecutionService.java:114-118 | the check as written first; on success the chosen map gains the class under the lower-cased name; on failure nothing changes |
| Service.ExecutionService.RemoveExecutableCommand | src/main/java/eu/unitn/disi/db/command/global/ExecutionService.java:120-122 | removes the name as given, without lower-casing, from the loaded map only |
| Service.ExecutionService.ClearCommands | src/main/java/eu/unitn/disi/db/command/global/ExecutionService.java:124-126 | empties the loaded map only |
| Service.ExecutionService.ClearHistory | src/main/java/eu/unitn/disi/db/command/global/ExecutionService.java:128-130 | empties the history only |
| Service.ExecutionService.RunCommand | src/main/java/eu/unitn/disi/db/command/global/ExecutionService.java:144-146 | runs a loaded command on the service's store, recording nothing |
| Service.ExecutionService.RunCommandAs | src/main/java/eu/unitn/disi/db/command/global/ExecutionService.java:148-150 | runs in the chosen map on the service's store; a console run records its line once the name resolves |
| Service.ExecutionService.DecodeArgs | src/main/java/eu/unitn/disi/db/command/global/ExecutionService.java:158-161 | the loop gives the tokens without the command separator |
| Service.ExecutionService.RunCommandWith | src/main/java/eu/unitn/disi/db/command/global/ExecutionService.java:152-190 | resolves args[0] lower-cased; a console run records (decoded line, args) in the history before execution, so failed runs are recorded and unknown names are not; the result is RunValue |
| History.WellDeclaredHist | src/main/java/eu/unitn/disi/db/command/global/History.java:35-110 | the hist declaration passes the check and is registered as "hist" |
| History.DeclTables | src/main/java/eu/unitn/disi/db/command/global/History.java:92-110 | the flags -n and -r, in that order, and no positional parameter |
| History.DefaultValues | src/main/java/eu/unitn/disi/db/command/global/History.java:92-110 | the defaults "10" and "false" coerce to 10 and false |
| History.Defaults | src/main/java/eu/unitn/disi/db/command/global/History.java:92-110 | "hist" with no flags sets -n to 10 and -r to false |
| History.LinesOf | src/main/java/eu/unitn/disi/db/command/global/History.java:52-58 | the command lines of the entries, in order |
| History.Clip | src/main/java/eu/unitn/disi/db/command/global/History.java:114 | the listing covers min(numEntries, size) entries, and none for a negative count |
| History.DedupProperties | src/main/java/eu/unitn/disi/db/command/global/History.java:52-58 | the deduplicated list has no line twice, keeps every line of the first n entries, and holds only history entries |
| History.DedupKeepsFirst | src/main/java/eu/unitn/disi/db/command/global/History.java:119-137 | the entry kept for a line is its first occurrence, because HashedPair compares lines only |
| History.WorkingList | src/main/java/eu/unitn/disi/db/command/global/History.java:49-59 | with -r the whole history; otherwise the first n entries, each line only at its first occurrence |
| History.ShowHistory | src/main/java/eu/unitn/disi/db/command/global/History.java:113-117 | min(n, size) numbered lines, line k showing list[size - k], newest first |
| History.ZeroAnswerFails | src/main/java/eu/unitn/disi/db/command/global/History.java:64-79 | the answer 0 passes the guard as written and ends hist with the failed index, nothing replayed and the history unchanged, so a later q is never read |
| History.AcceptedIsListed | src/main/java/eu/unitn/disi/db/command/global/History.java:68-71 | an answer the intended guard accepts is a listed entry and a valid index |
| History.FirstPick | src/main/java/eu/unitn/disi/db/command/global/History.java:64-81 | the answer ending the prompt is q or a number the guard as written lets through, 0 and negative numbers included; empty lines, non-numbers and numbers above numEntries or the size are skipped |
| History.SkippedAnswers | src/main/java/eu/unitn/disi/db/command/global/History.java:64-81 | answers the guard as written skips leave the prompt waiting for the next one |
| History.ReadPick | src/main/java/eu/unitn/disi/db/command/global/History.java:64-81 | the reading loop stops at the answer FirstPick describes |
| History.Execute | src/main/java/eu/unitn/disi/db/command/global/History.java:43-85 | shows the listing; q and closed input change nothing; 0 or a negative answer fails on the index; a chosen entry runs again as a console command and is recorded again; ERROR ends in a failure naming the line at that place of the list re-read after the run |
| History.Finish | src/main/java/eu/unitn/disi/db/command/global/History.java:64-81 | q and closed input change nothing; 0 or a negative entry fails on the index with the history unchanged; an entry k is the k-th newest of the list, run again and recorded once more, as EndsAs describes |
| History.Replay | src/main/java/eu/unitn/disi/db/command/global/History.java:71-74 | the chosen entry's tokens run as a console command; on ERROR the failure names entry size - k of the list re-read after the run, which with -r is the service's history grown by the new entry |
| Batch.WellDeclaredBatch | src/main/java/eu/unitn/disi/db/command/global/Batch.java:91-108 | the batch declaration passes the check and is registered as "batch" |
| Batch.DeclTables | src/main/java/eu/unitn/disi/db/command/global/Batch.java:91-108 | the file at position 1 and the flag -s |
| Batch.BindFileOnly | src/main/java/eu/unitn/disi/db/command/global/Batch.java:100-105 | "batch f" sets the file and -s to its default false |
| Batch.BindStop | src/main/java/eu/unitn/disi/db/command/global/Batch.java:100-107 | "batch f -s" sets the file, then -s to true |
| Batch.CommandsAt | src/main/java/eu/unitn/disi/db/command/global/Batch.java:58-62 | a line's trimmed text is run if it is neither blank nor a comment |
| Batch.NothingToRun | src/main/java/eu/unitn/disi/db/command/global/Batch.java:61 | a file of blank lines and comments runs nothing |
| Batch.CommandsAppend | src/main/java/eu/unitn/disi/db/command/global/Batch.java:58-80 | the lines of two files one after the other run in file order |
| Batch.SkippedLine | src/main/java/eu/unitn/disi/db/command/global/Batch.java:61 | a blank or comment line anywhere changes nothing that runs |
| Batch.CollectTokens | src/main/java/eu/unitn/disi/db/command/global/Batch.java:63-73 | the 256-slot token array holds a line of at most 256 tokens; one more is an ArrayIndexOutOfBoundsException |
| Batch.RunsResults | src/main/java/eu/unitn/disi/db/command/global/Batch.java:58-80 | the runs are the first commands of the file, in order, each returning what the console returns for it |
| Batch.RunsStop | src/main/java/eu/unitn/disi/db/command/global/Batch.java:75-77 | with -s the batch stops exactly when a run returns ERROR and only the last run can have failed; without -s it never stops early |
| Batch.RunsAll | src/main/java/eu/unitn/disi/db/command/global/Batch.java:75 | without -s every command runs |
| Batch.RunsHead | src/main/java/eu/unitn/disi/db/command/global/Batch.java:74-77 | one run stops the batch or is followed by the rest |
| Batch.RunsWide | src/main/java/eu/unitn/disi/db/command/global/Batch.java:68 | a line too long for the array ends the batch |
| Batch.RunsFromCommands | src/main/java/eu/unitn/disi/db/command/global/Batch.java:58-80 | taking the lines one by one runs the commands of the file |
| Batch.RunLine | src/main/java/eu/unitn/disi/db/command/global/Batch.java:62-74 | a run line goes through the token array, then runCommand(tokens, true) |
| Batch.RunAt | src/main/java/eu/unitn/disi/db/command/global/Batch.java:58-80 | one turn of the loop over lines either ends the batch or adds what that line did |
| Batch.RunLines | src/main/java/eu/unitn/disi/db/command/global/Batch.java:58-80 | the loop over lines gives the runs of the file |
| Batch.Execute | src/main/java/eu/unitn/disi/db/command/global/Batch.java:44-84 | an unreadable file runs nothing; otherwise the results and the history are those of the runs of the file's commands |
| Obj.WellDeclaredObj | src/main/java/eu/unitn/disi/db/command/global/Obj.java:50-66 | positions 1 and 2 pass the check, and the command is registered as "obj" |
| Obj.DeclTables | src/main/java/eu/unitn/disi/db/command/global/Obj.java:50-66 | no flags; the variable at position 1 and the command at position 2 |
| Obj.BindPair | src/main/java/eu/unitn/disi/db/command/global/Obj.java:50-66 | "obj v c" sets the variable, then the command |
| Obj.BindMissingCommand | src/main/java/eu/unitn/disi/db/command/global/Obj.java:59-63 | "obj v" without a command fails: both positions are mandatory |
| Obj.Execute | src/main/java/eu/unitn/disi/db/command/global/Obj.java:35-43 | warns when the variable is taken; stores RunValue of the command split on "=%=" in the loaded namespace, ERROR included; all other entries are kept |
| Obj.Stored | src/main/java/eu/unitn/disi/db/command/global/Obj.java:42 | the variable holds the new object and every other entry is kept |
| Obj.StoredTwice | src/main/java/eu/unitn/disi/db/command/global/Obj.java:42 | storing twice under one variable keeps only the second object |
| Obj.UnknownCommandStoresError | src/main/java/eu/unitn/disi/db/command/global/Obj.java:41-42 | an unknown nested command stores ERROR |
| Obj.StoredReachesDynamicFlag | src/main/java/eu/unitn/disi/db/command/global/Command.java:212-217 | a stored object reaches a dynamic flag's setter as it was stored |
| Exec.WellDeclaredExec | src/main/java/eu/unitn/disi/db/command/global/Exec.java:49-56 | the single position 1 passes the check, and the command is registered as "exec" |
| Exec.DeclTables | src/main/java/eu/unitn/disi/db/command/global/Exec.java:49-56 | no flags and the command at position 1 |
| Exec.BindCommand | src/main/java/eu/unitn/disi/db/command/global/Exec.java:49-56 | "exec c" sets the command to c |
| Exec.BindSecondToken | src/main/java/eu/unitn/disi/db/command/global/Exec.java:49-56 | a second token is refused, because "exec" has no flags |
| Exec.RunFailure | src/main/java/eu/unitn/disi/db/command/global/Exec.java:36-38 | execute() fails exactly when the result is ERROR, with the message naming the command |
| Exec.Execute | src/main/java/eu/unitn/disi/db/command/global/Exec.java:33-42 | the command runs in the loaded namespace; the result decides the outcome; the service is unchanged |
| Exec.ExecFails | src/main/java/eu/unitn/disi/db/command/global/Exec.java:35-41 | exec fails exactly when the command is unknown, binding fails, execute() throws, or a loader's object is ERROR; not-found is not told apart |
| Exec.EmptyCommandFails | src/main/java/eu/unitn/disi/db/command/global/Exec.java:35-38 | an empty command line fails |
| Jar.ReplaceChar | src/main/java/eu/unitn/disi/db/command/global/Jar.java:168 | replacing one character by another keeps the length and changes exactly those characters |
| Jar.CheckClass | src/main/java/eu/unitn/disi/db/command/global/Jar.java:165-172 | a path not ending in ".class" gives ""; otherwise the path with dots for slashes, minus 6 characters, with no '/' |
| Jar.CheckClassExample | src/main/java/eu/unitn/disi/db/command/global/Jar.java:165-172 | "a/b/C.class" gives "a.b.C"; "a/b/C.java" gives "" |
| Jar.EntryOf | src/main/java/eu/unitn/disi/db/command/global/Jar.java:165-172 | a class name's jar entry is 6 characters longer |
| Jar.ClassNameRoundTrip | src/main/java/eu/unitn/disi/db/command/global/Jar.java:165-172 | checkClass recovers any slash-free class name from its jar entry |
| Jar.WellDeclaredJar | src/main/java/eu/unitn/disi/db/command/global/Jar.java:108-125 | the jar declaration passes the check and is registered as "jar" |
| Jar.DeclTables | src/main/java/eu/unitn/disi/db/command/global/Jar.java:108-125 | the jar path at position 1 and the flag -lib |
| Jar.JarPathSet | src/main/java/eu/unitn/disi/db/command/global/Jar.java:123-125 | the jar path is set from its token unchanged |
| Jar.LibDefaultSet | src/main/java/eu/unitn/disi/db/command/global/Jar.java:108-116 | the -lib default "" sets the library paths to [""] |
| Jar.BindPathOnly | src/main/java/eu/unitn/disi/db/command/global/Jar.java:108-125 | "jar p" sets the path, then -lib to [""] |
| Jar.LibraryDirs | src/main/java/eu/unitn/disi/db/command/global/Jar.java:66-82 | every library directory read is a non-empty -lib entry |
| Jar.LibraryDirsKeep | src/main/java/eu/unitn/disi/db/command/global/Jar.java:68-69 | every non-empty entry is read |
| Jar.LibraryDirsAppend | src/main/java/eu/unitn/disi/db/command/global/Jar.java:66-69 | the entries are visited in order, once each: the directories read for two lists one after the other are those of the first list followed by those of the second |
| Jar.DefaultReadsNoLibrary | src/main/java/eu/unitn/disi/db/command/global/Jar.java:69 | the -lib default reads no library directory |
| Stats.Fields | src/main/java/eu/unitn/disi/db/command/util/stats/Statistics.java:265-270 | getFields is the string columns in insertion order, then the numeric ones |
| Stats.Cells | src/main/java/eu/unitn/disi/db/command/util/stats/Statistics.java:291-297 | the i-th values of the listed columns, in order |
| Stats.Plain | src/main/java/eu/unitn/disi/db/command/util/stats/Statistics.java:296 | each number written with toPlainString |
| Stats.RowMatchesFields | src/main/java/eu/unitn/disi/db/command/util/stats/Statistics.java:286-301 | a row has one cell per field: the j-th string column at j, the numeric ones after all string ones |
| Stats.RectangularRow | src/main/java/eu/unitn/disi/db/command/util/stats/Statistics.java:286-301 | when every column holds n values, each row below n can be read, with one cell per field |
| Stats.RectangularRows | src/main/java/eu/unitn/disi/db/command/util/stats/Statistics.java:309-328 | when every column holds n values, the iterator yields n readable rows |
| Stats.NoColumnsNoRows | src/main/java/eu/unitn/disi/db/command/util/stats/Statistics.java:321 | a table without columns has no rows |
| Stats.FirstStringFieldHidesRows | src/main/java/eu/unitn/disi/db/command/util/stats/Statistics.java:315-317 | adding the first string column hides every numeric row, because the iterator counts the first string column |
| Stats.Insert | src/main/java/eu/unitn/disi/db/command/util/stats/Statistics.java:248 | one insertion step keeps the list ascending and adds the value |
| Stats.Sort | src/main/java/eu/unitn/disi/db/command/util/stats/Statistics.java:248 | Collections.sort gives an ascending list of the same values |
| Stats.SortedUnique | src/main/java/eu/unitn/disi/db/command/util/stats/Statistics.java:248 | two ascending lists of the same values are equal |
| Stats.SortedMedianSplits | src/main/java/eu/unitn/disi/db/command/util/stats/Statistics.java:250-255 | in a sorted column the middle value splits it into a lower and an upper half |
| Stats.MedianSplits | src/main/java/eu/unitn/disi/db/command/util/stats/Statistics.java:245-258 | the median of a column splits its sorted values |
| Stats.EmptyHasNoMedian | src/main/java/eu/unitn/disi/db/command/util/stats/Statistics.java:251 | an empty column has no median (the call get(size/2), that is get(0), fails first) |
| Stats.MedianIgnoresOrder | src/main/java/eu/unitn/disi/db/command/util/stats/Statistics.java:245-258 | the median depends on the column's values, not their order |
| Stats.SortIdempotent | src/main/java/eu/unitn/disi/db/command/util/stats/Statistics.java:248 | sorting a sorted column changes nothing |
| Stats.MedianBounds | src/main/java/eu/unitn/disi/db/command/util/stats/Statistics.java:245-258 | the median of values in [lo, hi] is in [lo, hi] |
| Stats.Mean | src/main/java/eu/unitn/disi/db/command/util/stats/Statistics.java:212-221 | the average fails exactly on an empty column (division by zero) |
| Stats.MeanBounds | src/main/java/eu/unitn/disi/db/command/util/stats/Statistics.java:212-221 | the average of values in [lo, hi] is in [lo, hi] |
| Stats.MeanOfConstant | src/main/java/eu/unitn/disi/db/command/util/stats/Statistics.java:212-221 | a column of one value averages to it |
| Stats.RowOfPair | src/main/java/eu/unitn/disi/db/command/util/stats/Statistics.java:286-301 | a row of one string and one numeric column is their i-th values |
| Stats.MedianReordersRows | src/main/java/eu/unitn/disi/db/command/util/stats/Statistics.java:248 | as written, getMedian reorders one column, so a row reads a pair that was never added |
| Stats.Statistics.constructor | src/main/java/eu/unitn/disi/db/command/util/stats/Statistics.java:48-65 | both constructors start with no column; the MathContext they choose is not modelled |
| Stats.Statistics.AddStringField | src/main/java/eu/unitn/disi/db/command/util/stats/Statistics.java:76-86 | a new string name is appended with an empty column and true; a taken one gives false and no change; numeric columns are untouched |
| Stats.Statistics.AddNumericField | src/main/java/eu/unitn/disi/db/command/util/stats/Statistics.java:94-104 | the same for numeric columns, whose names are separate from the string ones |
| Stats.Statistics.AddStringValue | src/main/java/eu/unitn/disi/db/command/util/stats/Statistics.java:114-122 | an unknown string column is an error; otherwise the value goes at the end and the new length is returned |
| Stats.Statistics.AddNumericValue | src/main/java/eu/unitn/disi/db/command/util/stats/Statistics.java:133-190 | the same for numeric columns, for the Integer, Long and BigDecimal overloads and a finite Double |
| Stats.Statistics.AddDoubleValue | src/main/java/eu/unitn/disi/db/command/util/stats/Statistics.java:133-142 | a missing column is refused first; NaN and the infinities are then refused with the column unchanged; a finite double is appended |
| Stats.Statistics.NumericFieldName | src/main/java/eu/unitn/disi/db/command/util/stats/Statistics.java:277-279 | the i-th numeric column name, or an index error |
| Stats.Statistics.StringFieldName | src/main/java/eu/unitn/disi/db/command/util/stats/Statistics.java:273-275 | the i-th string column name, or an index error |
| Stats.Statistics.GetAverage | src/main/java/eu/unitn/disi/db/command/util/stats/Statistics.java:207-222 | an unknown column is an error; otherwise the column is summed in one pass and divided by its size |
| Stats.Statistics.GetAverageAt | src/main/java/eu/unitn/disi/db/command/util/stats/Statistics.java:198-200 | the average of the numeric column at that index |
| Stats.Statistics.GetMedian | src/main/java/eu/unitn/disi/db/command/util/stats/Statistics.java:240-259 | an unknown column is an error; otherwise the stored column is left sorted and its median returned |
| Stats.Statistics.GetMedianAt | src/main/java/eu/unitn/disi/db/command/util/stats/Statistics.java:231-233 | getMedian on the numeric column at that index, sorting it in place too |
| Stats.Statistics.Median | src/main/java/eu/unitn/disi/db/command/util/stats/Statistics.java:245-258 | the median on a sorted copy, leaving the table as it was |
| Stats.Statistics.GetFields | src/main/java/eu/unitn/disi/db/command/util/stats/Statistics.java:265-270 | getFields as Fields describes |
| Stats.Statistics.GetRow | src/main/java/eu/unitn/disi/db/command/util/stats/Statistics.java:286-301 | two loops give the row RowOf describes, failing when a column lacks index i |
| Stats.RowIterator.constructor | src/main/java/eu/unitn/disi/db/command/util/stats/Statistics.java:303-311 | the iterator starts at row 0 |
| Stats.RowIterator.HasNext | src/main/java/eu/unitn/disi/db/command/util/stats/Statistics.java:314-322 | hasNext holds exactly while the index is below the length of the first string column, else of the first numeric one, else never |
| Stats.RowIterator.Next | src/main/java/eu/unitn/disi/db/command/util/stats/Statistics.java:325-327 | next reads the row at the index and moves the index on, even when reading fails |
| Csv.Quoted | src/main/java/eu/unitn/disi/db/command/util/stats/StatisticsCSVExporter.java:63-67 | the header array: every field between double quotes |
| Csv.RowsText | src/main/java/eu/unitn/disi/db/command/util/stats/StatisticsCSVExporter.java:71-73 | the text of the rows fails only with an index error |
| Csv.FailureSticks | src/main/java/eu/unitn/disi/db/command/util/stats/StatisticsCSVExporter.java:71-73 | once a row fails, the export fails |
| Csv.FailedRowEnds | src/main/java/eu/unitn/disi/db/command/util/stats/StatisticsCSVExporter.java:71-73 | a row that cannot be read ends the export with its failure |
| Csv.RowsTextStep | src/main/java/eu/unitn/disi/db/command/util/stats/StatisticsCSVExporter.java:72 | each row adds its values joined by "," and then " \n" |
| Csv.RowNotEmpty | src/main/java/eu/unitn/disi/db/command/util/stats/StatisticsCSVExporter.java:72 | a row within the count has a cell, so joining it cannot fail |
| Csv.CsvOfParts | src/main/java/eu/unitn/disi/db/command/util/stats/StatisticsCSVExporter.java:57-79 | the export is the quoted fields joined by "," plus "\n", then the row lines |
| Csv.Header | src/main/java/eu/unitn/disi/db/command/util/stats/StatisticsCSVExporter.java:61-69 | filling the header array by index and joining it gives the header line |
| Csv.RowsTextNext | src/main/java/eu/unitn/disi/db/command/util/stats/StatisticsCSVExporter.java:71-73 | reading the next row either ends the export or adds that row's line |
| Csv.NextLine | src/main/java/eu/unitn/disi/db/command/util/stats/StatisticsCSVExporter.java:71-73 | one turn of the rows loop as RowsTextNext describes |
| Csv.RowLines | src/main/java/eu/unitn/disi/db/command/util/stats/StatisticsCSVExporter.java:71-73 | the rows loop gives the text of every row the iterator yields |
| Csv.Export | src/main/java/eu/unitn/disi/db/command/util/stats/StatisticsCSVExporter.java:57-79 | export() is the header line then the row lines; no field at all makes the header join fail |
| Csv.RowsTextNewlines | src/main/java/eu/unitn/disi/db/command/util/stats/StatisticsCSVExporter.java:71-73 | n rows read without line ends in their values are n lines |
| Csv.ExportLines | src/main/java/eu/unitn/disi/db/command/util/stats/StatisticsCSVExporter.java:57-79 | an export has 1 + (row count) lines when no field or value has a line end |
| Csv.ExportFirstLine | src/main/java/eu/unitn/disi/db/command/util/stats/StatisticsCSVExporter.java:69 | the first line is the quoted fields joined by "," |
| Csv.RectangularText | src/main/java/eu/unitn/disi/db/command/util/stats/StatisticsCSVExporter.java:71-73 | when every column holds n values, the first m ≤ n rows export without failure |
| Csv.RectangularExport | src/main/java/eu/unitn/disi/db/command/util/stats/StatisticsCSVExporter.java:57-79 | a table with a field whose columns all hold n values exports without failure, with n row lines |
| Csv.CommaInValueIsAmbiguous | src/main/java/eu/unitn/disi/db/command/util/stats/StatisticsCSVExporter.java:72 | values are neither quoted nor escaped: "a,b" reads as two values |
| Watch.StopWatch.constructor | src/main/java/eu/unitn/disi/db/command/util/StopWatch.java:70-72 | a new watch uses the application clock, is stopped and reads 0 |
| Watch.StopWatch.OfType | src/main/java/eu/unitn/disi/db/command/util/StopWatch.java:78-80 | a new watch on the given clock, stopped at 0 |
| Watch.StopWatch.OfThreads | src/main/java/eu/unitn/disi/db/command/util/StopWatch.java:86-89 | a new watch on the CPU time of the given threads, stopped at 0 |
| Watch.StopWatch.Start | src/main/java/eu/unitn/disi/db/command/util/StopWatch.java:112-115 | start sets startTime to now and runs |
| Watch.StopWatch.Stop | src/main/java/eu/unitn/disi/db/command/util/StopWatch.java:120-123 | stop sets stopTime to now and stops |
| Watch.StopWatch.Reset | src/main/java/eu/unitn/disi/db/command/util/StopWatch.java:128-136 | a running watch restarts from now; a stopped one goes back to 0 and 0 |
| Watch.StopWatch.GetElapsed | src/main/java/eu/unitn/disi/db/command/util/StopWatch.java:141-155 | a divisor of 0 is an error; otherwise the elapsed ticks divided toward zero |
| Watch.StopWatch.GetElapsedTime | src/main/java/eu/unitn/disi/db/command/util/StopWatch.java:161-163 | the elapsed ticks |
| Watch.StopWatch.GetElapsedTimeMillis | src/main/java/eu/unitn/disi/db/command/util/StopWatch.java:169-171 | the ticks divided by 10^6, toward zero |
| Watch.StopWatch.GetElapsedTimeSecs | src/main/java/eu/unitn/disi/db/command/util/StopWatch.java:177-179 | the ticks divided by 10^9, toward zero |
| Watch.FreshReadsZero | src/main/java/eu/unitn/disi/db/command/util/StopWatch.java:39-42 | a watch never started reads 0 at every clock reading |
| Watch.StoppedIgnoresClock | src/main/java/eu/unitn/disi/db/command/util/StopWatch.java:150-152 | a stopped watch reads the same whatever the clock says |
| Watch.ElapsedOfOrderedReadings | src/main/java/eu/unitn/disi/db/command/util/StopWatch.java:148-153 | readings that do not go backwards give the plain difference, with secs ≤ millis ≤ ticks |
| Watch.SecsFromMillis | src/main/java/eu/unitn/disi/db/command/util/StopWatch.java:169-179 | seconds are milliseconds divided by 1000, toward zero |
| FileWrite.WriteOptions | src/main/java/eu/unitn/disi/db/command/util/FileWriteOperation.java:62-86 | three options, the last WRITE: TRUNCATE_EXISTING exactly for OVERWRITE, APPEND otherwise, CREATE_NEW exactly for CREATE_NEW |
| FileWrite.NeverTruncateAndAppend | src/main/java/eu/unitn/disi/db/command/util/FileWriteOperation.java:65-81 | no mode truncates and appends |
| FileWrite.ModesDiffer | src/main/java/eu/unitn/disi/db/command/util/FileWriteOperation.java:65-81 | different modes give different options |
| FileWrite.GetWriteOptions | src/main/java/eu/unitn/disi/db/command/util/FileWriteOperation.java:62-86 | a fresh 3-slot array holding the mode's options |

## Left out

- Reflection (`getMethods()`, annotations read at run time, `newInstance`, `Method.invoke`): replaced by the explicit declaration tables described above; a setter invocation is a recorded `Call`. Setter bodies are taken never to throw: in the source a throwing setter surfaces as an `InvocationTargetException` that `readParams` turns into a `WrongParameterException` (global/Command.java:236-241), a binding error the model never produces.
- The body of each command's `execute()`: a parameter (`Executor`). Nested commands run by `obj`, `exec`, `batch` and `hist` are answered by that parameter, so the model does not capture a nested command changing the store or the history.
- Class-path scanning (the `Reflections` library): the service constructor takes the classes found, in a given order.
- `HashMap` and `HashSet` iteration order: the named flags still pending when the defaults pass starts are visited in the order they were declared, where the source walks `namedParameters.keySet()` (global/Command.java:224-235) or, in the legacy engine, `commandInputs.keySet()` (Command.java:195-206) in `HashMap` order. So in the source the flag a `Mandatory` error names, and which defaults were already set when the pass fails, depend on that order; `GlobalBinding.DefaultsOrderFree` shows that whether the pass succeeds, and the calls it then makes up to order, do not. The `help` text does not depend on it: its description tables are `LinkedHashMap`s (global/Command.java:140-142 and the legacy Command.java:126-127); the command list of `printHelp` (global/ExecutionService.java:203) does, and `printHelp` is not modelled. Likewise `getDeclaredAnnotations()` is taken to give a method's annotations as named, dynamic, then positional (`Service.AnnotationsOf`), where Java gives them in declaration order; this only changes which name a `RepeatedName` error reports when two annotations of one method both clash.
- The `getInstance` singleton: the service is an explicit object passed to every command.
- Coercion.Coerce: `float` and `double` values are kept as their literal text, accepted by a decimal recognizer; hexadecimal floating literals and the rounding to binary are not modelled.
- Invoke (GlobalCommand.Invoke): a value is accepted by a setter only when its class is exactly the parameter's class (a boxed value for a primitive parameter); `Method.invoke` also accepts instances of subclasses and implementing classes, and widens primitives, which the model refuses. GlobalBinding.ScanDynamic, Obj.StoredReachesDynamicFlag and LegacyCommand.DynamicFlag inherit this narrower acceptance.
- ParseIntegral (JavaLang.ParseIntegral): takes the ASCII digits `0`-`9` only; `Integer.parseInt` also accepts every other Unicode decimal digit (`Character.digit`).
- AddNumericValue (Stats.Statistics.AddNumericValue): the null value (a `NullPointerException`) is not modelled; NaN and the infinities, which `new BigDecimal(double, mc)` refuses, are modelled by `Stats.Statistics.AddDoubleValue`.
- JavaLang.Lower: lower-cases the ASCII letters only, not the whole of Unicode as `String.toLowerCase` does.
- `StringTokenizer`-style splitting of a console line (`tokenizeCommand` in `Exec`, the tokenizer in `Batch`): a parameter of the model, since `CommandRunner` and `ConsoleHandler` are not part of this model.
- Batch.Execute: reading the file is an input (`None` when the file cannot be read); the `IOException` message is not modelled.
- History.Execute: the answers typed at the prompt are an input; when input ends (`readLine` returns `null`) the source loops forever, which the model ends as `InputClosed`; an `IOException` from the reader is not modelled.
- Jar `execute()` and `loadCommands`: the JAR file, its entries and the class loaders (JCL) are I/O; only `checkClass`, the parameter table and the library list are modelled. `loadCommands` is not modelled either: its loop at `global/Jar.java:141` is `while (waiting.isEmpty())`, so with entries queued its body never runs and no class is loaded, and with none `poll()` gives `null` and `checkClass(null)` throws a `NullPointerException`.
- Service.ExecutionService.RunCommandWith: the JCL object factory used when a loaded command is not a console one, and the class loader it uses, are not modelled; the `Executor` stands for both.
- Stats: `BigDecimal` arithmetic under a `MathContext` is modelled as exact rational (`real`) arithmetic, so the scale and rounding of the two-argument constructor and of `divide` are not modelled; `doubleValue` conversion is not modelled; `toPlainString` is the parameter `plain`; `main` is a demonstration and is omitted.
- StatisticsCSVExporter `write` and `FileWriteOperation`'s file opening: file I/O; only the exported text and the option arrays are modelled. The `mutilities.StringUtils.join` the exporter imports is not part of this model; it is taken to behave as `util/StringUtils.join`.
- Watch.StopWatch.GetElapsed: clock readings are parameters (`System.nanoTime`, thread CPU time); the contract states the division for positive divisors only, and `util/Time.java` is not part of this model.
- The legacy `exec` of `command/Command.java:286-305`: only its `readParams` step is modelled (`LegacyCommand.Command.ReadParams`); the timing with `System.currentTimeMillis` and the logging around `execute()` are not. The thread pool that would run `StopThread` is commented out at lines 294-300, so `StopThread` never runs and `stop()` only sets a flag nothing reads.
- GlobalCommand.Command.Exec: the timing of `exec` in `global/Command.java:333-339` (`executionTime` from `currentTimeMillis`, returned by `getExecutionTime` at line 350) is not modelled: the clock is I/O.
- Logging, `printHelp`, `ConsoleHandler`, `CommandRunner`, `Help` and every printed message other than the lines whose text is returned: output only.

## Findings

| source | as written | input that shows it | evidently intended | confidence | as-written member | corrected member |
|---|---|---|---|---|---|---|
| src/main/java/eu/unitn/disi/db/command/global/ExecutionService.java:231 | positions are collected in a `HashSet`, so `checkPositions` sees each position once | a command with two setters both at position 1 | refuse a repeated position, since `readParams` then cannot bind it | not executed | Service.RepeatedPositionAccepted | Service.CorrectedPositionsBind |
| src/main/java/eu/unitn/disi/db/command/global/History.java:68 | the guard refuses only answers above `numEntries` or above the list's size, with no lower bound | the answers "0" then "q": `history.get(size - 0)` throws an `IndexOutOfBoundsException` and the console reports ERROR, where the prompt should have asked again and then left on "q" | accept 1..min(numEntries, size) only | not executed | History.ZeroAnswerFails | History.AcceptedIsListed |
| src/main/java/eu/unitn/disi/db/command/util/stats/Statistics.java:248 | `getMedian` sorts the stored column in place | string column "name" = ["a","b"], numeric column "x" = [2,1]; after `getMedian("x")`, row 0 reads ("a", 1) | compute the median on a sorted copy | not executed | Stats.MedianReordersRows | Stats.MedianIgnoresOrder |
