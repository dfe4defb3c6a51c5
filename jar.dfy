/**
 * The console command "jar": only what it decides without files is modelled,
 * namely the class name a jar entry stands for (LocalLoader.checkClass), its
 * declaration, and the library directories it goes on to read when -lib is
 * left at its default.
 */
module Jar {
  import opened Wrappers
  import opened JavaLang
  import opened JavaTypes
  import opened Declarations
  import opened GlobalCommand
  import opened GlobalBinding
  import opened Coercion
  import opened Service

  // ------------------------------------------------------------ checkClass

  /** String.replace with a one-character target and replacement: every such character, in place. */
  lemma {:induction false} ReplaceChar(s: string, a: char, b: char)
    ensures |Replace(s, [a], [b])| == |s|
    ensures forall i :: 0 <= i < |s| ==> Replace(s, [a], [b])[i] == if s[i] == a then b else s[i]
  {
    if |s| > 0 {
      ReplaceChar(s[1..], a, b);
      if s[..1] == [a] {
        assert s[0] == a;
      } else {
        assert s[0] != a;
      }
    }
  }

  /** checkClass(classPath): a ".class" entry gives its path with dots for slashes and without the suffix; any other gives "". */
  function CheckClass(classPath: string): (r: string)
    ensures !EndsWith(classPath, ".class") ==> r == ""
    ensures EndsWith(classPath, ".class") ==>
      |r| == |classPath| - 6 &&
      forall i :: 0 <= i < |r| ==> r[i] == if classPath[i] == '/' then '.' else classPath[i]
    ensures forall i :: 0 <= i < |r| ==> r[i] != '/'
  {
    if EndsWith(classPath, ".class") then
      var c := Replace(classPath, "/", ".");
      ReplaceChar(classPath, '/', '.');
      c[..|c| - 6]
    else ""
  }

  lemma CheckClassExample()
    ensures CheckClass("a/b/C.class") == "a.b.C"
    ensures CheckClass("a/b/C.java") == ""
  {
    assert EndsWith("a/b/C.class", ".class");
    var r := CheckClass("a/b/C.class");
    assert |r| == 5;
    assert r[0] == 'a' && r[1] == '.' && r[2] == 'b' && r[3] == '.' && r[4] == 'C';
    assert "a/b/C.java"[4..] == "C.java";
  }

  /** The jar entry of a class: dots become slashes, then ".class". */
  function EntryOf(className: string): (p: string)
    ensures |p| == |className| + 6
  {
    seq(|className|, i requires 0 <= i < |className| => if className[i] == '.' then '/' else className[i]) + ".class"
  }

  /** checkClass recovers the name of every class whose name has no slash from its jar entry. */
  lemma ClassNameRoundTrip(className: string)
    requires forall i :: 0 <= i < |className| ==> className[i] != '/'
    ensures CheckClass(EntryOf(className)) == className
  {
    var p := EntryOf(className);
    assert p[|p| - 6..] == ".class";
    var r := CheckClass(p);
    assert |r| == |className|;
    forall i | 0 <= i < |r|
      ensures r[i] == className[i]
    {
      assert p[i] == if className[i] == '.' then '/' else className[i];
    }
  }

  // ----------------------------------------------------------- declaration

  const LibSetter: Setter :=
    Setter("setLibraryPaths", [ArrayOf(StringClass)],
           Some(NamedAnn("-lib", false, "", "additional library directories to be loaded (comma separated)", 2)), None, None)
  const JarPathSetter: Setter :=
    Setter("setJarPath", [StringClass], None, None, Some(PositionalAnn(1, "jarPath", "the complete path of the jar to be loaded")))

  const Decl: CommandType :=
    CommandType("Jar", Some("jar"), false, false, "Load a jar with commands and a set of libraries", [LibSetter, JarPathSetter])

  /** The declaration passes the service's check, so the command is registered as "jar". */
  lemma WellDeclaredJar()
    ensures Correctness(Decl.setters) == None
    ensures Registrable(Decl, true) && RegisteredName(Decl) == "jar"
  {
    var x := Ann("setLibraryPaths", 1, FlagAnn("-lib"));
    var y := Ann("setJarPath", 1, PositionAnn(1));
    assert Decl.setters[1..] == [JarPathSetter] && [JarPathSetter][1..] == [];
    assert Anns([JarPathSetter]) == [y];
    assert Anns(Decl.setters) == [x, y];
    assert [x, y][1..] == [y] && [y][1..] == [];
    assert [] + [1] == [1];
    assert ScanAnns([y], {"-lib"}, []) == Ok([1]);
    assert {} + {"-lib"} == {"-lib"};
    assert ScanAnns([x, y], {}, []) == ScanAnns([y], {"-lib"}, []);
    assert 1 in [1];
    CorrectedPasses(Decl.setters);
  }

  /** The tables of "jar": the jar path at position 1 and the flag -lib. */
  lemma DeclTables()
    ensures var t := Load(Decl.setters);
      t.named == [("-lib", NamedEntry(LibSetter, LibSetter.named.value))] &&
      NumPositionals(t) == 1 && 1 in t.positional && t.positional[1] == JarPathSetter
  {
    assert Decl.setters[..1] == [LibSetter] && Decl.setters[..2] == Decl.setters;
    assert Decl.setters[..0] == [];
    LoadSnoc(Decl.setters, 0);
    LoadSnoc(Decl.setters, 1);
  }

  /** The jar path is set from its token as it is. */
  lemma JarPathSet(path: string)
    ensures SetFromText(JarPathSetter, path) == Ok(Call("setJarPath", VString(path)))
  {
  }

  /** The default of -lib, "", sets the library paths to the one-element array [""]. */
  lemma LibDefaultSet()
    ensures SetFromText(LibSetter, LibSetter.named.value.defaultValue) == Ok(Call("setLibraryPaths", VArray(StringClass, [VString("")])))
  {
    EmptyStringArray();
    assert Assignable(VArray(StringClass, [VString("")]), ArrayOf(StringClass));
  }

  /** Binding "p" against tables shaped as those of "jar". */
  lemma BindPathOnlyOf(t: Tables, path: string, store: map<string, Value>)
    requires t.named == [("-lib", NamedEntry(LibSetter, LibSetter.named.value))]
    requires NumPositionals(t) == 1 && 1 in t.positional && t.positional[1] == JarPathSetter
    ensures var o := Bind(t, [path], store, BindState(t.named, []));
      o.error == None &&
      o.state.calls == [Call("setJarPath", VString(path)), Call("setLibraryPaths", VArray(StringClass, [VString("")]))]
  {
    JarPathSet(path);
    LibDefaultSet();
    var st := BindState(t.named, []);
    var c1 := Call("setJarPath", VString(path));
    var c2 := Call("setLibraryPaths", VArray(StringClass, [VString("")]));
    PositionalHead(t, [path], 0, st, c1);
    var st1 := st.(calls := [c1]);
    assert PositionalsFrom(t, [path], 0, st) == Outcome(st1, None);
    BindOnlyPositionals(t, [path], store, st);
    DefaultsHead(t.named, st1, c2);
    assert t.named[1..] == [];
  }

  /** "jar p" without -lib: the path is set, then -lib gets its default, the one-element array [""]. */
  lemma BindPathOnly(path: string, store: map<string, Value>)
    ensures var t := Load(Decl.setters);
      var o := Bind(t, [path], store, BindState(t.named, []));
      o.error == None &&
      o.state.calls == [Call("setJarPath", VString(path)), Call("setLibraryPaths", VArray(StringClass, [VString("")]))]
  {
    DeclTables();
    BindPathOnlyOf(Load(Decl.setters), path, store);
  }

  // ------------------------------------------------------------- libraries

  /** The library directories execute() goes on to read: the -lib entries other than "", in order. */
  function LibraryDirs(libs: seq<string>): (r: seq<string>)
    ensures |r| <= |libs|
    ensures forall i :: 0 <= i < |r| ==> r[i] != "" && r[i] in libs
  {
    if |libs| == 0 then []
    else if libs[0] == "" then LibraryDirs(libs[1..])
    else [libs[0]] + LibraryDirs(libs[1..])
  }

  /** Every entry other than "" is read. */
  lemma {:induction false} LibraryDirsKeep(libs: seq<string>, i: nat)
    requires i < |libs| && libs[i] != ""
    ensures libs[i] in LibraryDirs(libs)
  {
    if i > 0 {
      LibraryDirsKeep(libs[1..], i - 1);
      assert libs[1..][i - 1] == libs[i];
    }
  }

  /** The entries are read in order, once each: the directories of two lists one after the other. */
  lemma {:induction false} LibraryDirsAppend(a: seq<string>, b: seq<string>)
    ensures LibraryDirs(a + b) == LibraryDirs(a) + LibraryDirs(b)
  {
    if |a| == 0 {
      assert a + b == b;
    } else {
      assert (a + b)[0] == a[0];
      assert (a + b)[1..] == a[1..] + b;
      LibraryDirsAppend(a[1..], b);
    }
  }

  /** With -lib at its default, no library directory is read. */
  lemma DefaultReadsNoLibrary()
    ensures LibraryDirs([""]) == []
  {
    assert [""][1..] == [];
  }
}
