/**
 * StringUtils.join and StringUtils.split. `split` quotes its separator, so it
 * behaves as Java's String.split on a literal: the string is cut at every
 * occurrence of the separator found left to right without overlap, and the
 * empty pieces at the end are dropped.
 */
module StringUtils {
  import opened Wrappers
  import opened JavaLang

  /** The text join(array, separator) builds: a[0] + sep + a[1] + ... + sep + a[n-1]. */
  function Joined(a: seq<string>, sep: string): string
    requires |a| > 0
  {
    if |a| == 1 then a[0] else Joined(a[..|a| - 1], sep) + sep + a[|a| - 1]
  }

  /**
   * join(String[] array, String separator): a StringBuilder loop appends every
   * element but the last followed by the separator, then reads array[i] with
   * i = length - 1 unconditionally, so an empty array fails (None).
   */
  method Join(a: seq<string>, sep: string) returns (r: Option<string>)
    ensures r.None? <==> |a| == 0
    ensures |a| > 0 ==> r == Some(Joined(a, sep))
    ensures |a| == 1 ==> r == Some(a[0])
  {
    if |a| == 0 {
      return None;
    }
    var sb := "";
    var i := 0;
    while i < |a| - 1
      invariant 0 <= i <= |a| - 1
      invariant i == 0 ==> sb == ""
      invariant i > 0 ==> sb == Joined(a[..i], sep) + sep
    {
      assert a[..i + 1][..i] == a[..i];
      sb := sb + a[i] + sep;
      i := i + 1;
    }
    if i == 0 {
      assert sb + a[i] == a[0];
    } else {
      assert sb + a[i] == Joined(a[..i], sep) + sep + a[i];
    }
    r := Some(sb + a[i]);
  }

  /** join(String[] array, char separator), which delegates with `separator + ""`. */
  method JoinChar(a: seq<string>, sep: char) returns (r: Option<string>)
    ensures r.None? <==> |a| == 0
    ensures |a| > 0 ==> r == Some(Joined(a, [sep]))
  {
    r := Join(a, [sep]);
  }

  function TotalLength(a: seq<string>): nat {
    if |a| == 0 then 0 else TotalLength(a[..|a| - 1]) + |a[|a| - 1]|
  }

  /** Joining n pieces adds exactly n - 1 separators to the pieces' own text. */
  lemma {:induction false} JoinedLength(a: seq<string>, sep: string)
    requires |a| > 0
    ensures |Joined(a, sep)| == TotalLength(a) + (|a| - 1) * |sep|
  {
    if |a| > 1 {
      var n := |a|;
      JoinedLength(a[..n - 1], sep);
      assert a[..n - 1][..n - 2] == a[..n - 2];
      assert TotalLength(a) == TotalLength(a[..n - 1]) + |a[n - 1]|;
      assert (n - 1) * |sep| == (n - 2) * |sep| + |sep|;
    }
  }

  /** The same text read from the front: a[0] + sep + join(a[1..]). */
  lemma {:induction false} JoinedCons(a: seq<string>, sep: string)
    requires |a| >= 2
    ensures Joined(a, sep) == a[0] + sep + Joined(a[1..], sep)
  {
    if |a| > 2 {
      JoinedCons(a[..|a| - 1], sep);
      assert a[..|a| - 1][1..] == a[1..][..|a[1..]| - 1];
    } else {
      assert a[..1] == [a[0]];
    }
  }

  // -------------------------------------------------------------------- split

  predicate OccursAt(s: string, sep: string, k: nat) {
    k + |sep| <= |s| && s[k..k + |sep|] == sep
  }

  /** Index of the leftmost occurrence of a non-empty `sep` in `s`, or |s| if none. */
  function Find(s: string, sep: string): (k: nat)
    requires |sep| > 0
    ensures k <= |s|
    ensures k < |s| ==> OccursAt(s, sep, k)
    ensures forall j :: 0 <= j < k ==> !OccursAt(s, sep, j)
    decreases |s|
  {
    if |s| < |sep| then |s|
    else if s[..|sep|] == sep then 0
    else
      var k := 1 + Find(s[1..], sep);
      assert !OccursAt(s, sep, 0) by { assert s[0..|sep|] == s[..|sep|]; }
      assert forall j :: 1 <= j ==> (OccursAt(s, sep, j) <==> OccursAt(s[1..], sep, j - 1));
      k
  }

  /** The pieces between successive occurrences of `sep`, empty ones included. */
  function Pieces(s: string, sep: string): (r: seq<string>)
    requires |sep| > 0
    ensures |r| > 0
    decreases |s|
  {
    var k := Find(s, sep);
    if k == |s| then [s] else [s[..k]] + Pieces(s[k + |sep|..], sep)
  }

  /** The trailing empty pieces removed, and only those. */
  function DropTrailingEmpty(p: seq<string>): (r: seq<string>)
    ensures |r| <= |p| && r == p[..|r|]
    ensures |r| > 0 ==> r[|r| - 1] != ""
    ensures forall k :: |r| <= k < |p| ==> p[k] == ""
  {
    if |p| > 0 && p[|p| - 1] == "" then DropTrailingEmpty(p[..|p| - 1]) else p
  }

  /**
   * split(string, separator) = string.split(Pattern.quote(separator)). With no
   * occurrence the result is the string itself (so "" gives [""]); otherwise the
   * pieces without their trailing empty ones. The empty separator matches between
   * every two characters and gives the single characters.
   */
  function Split(s: string, sep: string): seq<string> {
    if |sep| == 0 then
      (if |s| == 0 then [""] else seq(|s|, i requires 0 <= i < |s| => [s[i]]))
    else if Find(s, sep) == |s| then [s]
    else DropTrailingEmpty(Pieces(s, sep))
  }

  /** Joining one more piece in front puts it before a separator. */
  lemma JoinedPrepend(x: string, q: seq<string>, sep: string)
    requires |q| > 0
    ensures Joined([x] + q, sep) == x + sep + Joined(q, sep)
  {
    JoinedCons([x] + q, sep);
    assert ([x] + q)[1..] == q;
  }

  /** A string is what comes before an occurrence, the occurrence, and what comes after it. */
  lemma AroundOccurrence(s: string, sep: string, k: nat)
    requires OccursAt(s, sep, k)
    ensures s == s[..k] + sep + s[k + |sep|..]
  {
    assert s == s[..k] + s[k..k + |sep|] + s[k + |sep|..];
  }

  lemma {:induction false} JoinedPieces(s: string, sep: string)
    requires |sep| > 0
    ensures Joined(Pieces(s, sep), sep) == s
    decreases |s|
  {
    var k := Find(s, sep);
    if k < |s| {
      var rest := s[k + |sep|..];
      var q := Pieces(rest, sep);
      assert Pieces(s, sep) == [s[..k]] + q;
      JoinedPieces(rest, sep);
      JoinedPrepend(s[..k], q, sep);
      AroundOccurrence(s, sep, k);
    }
  }

  /** A string ends with whatever one of its suffixes ends with. */
  lemma SuffixEndsWith(s: string, n: nat, sep: string)
    requires n <= |s| && EndsWith(s[n..], sep)
    ensures EndsWith(s, sep)
  {
    assert s[|s| - |sep|..] == s[n..][|s[n..]| - |sep|..];
  }

  lemma {:induction false} PiecesLastNonEmpty(s: string, sep: string)
    requires |sep| > 0 && !EndsWith(s, sep) && |s| > 0
    ensures Pieces(s, sep)[|Pieces(s, sep)| - 1] != ""
    decreases |s|
  {
    var k := Find(s, sep);
    if k < |s| {
      var n := k + |sep|;
      if EndsWith(s[n..], sep) {
        SuffixEndsWith(s, n, sep);
      }
      PiecesLastNonEmpty(s[n..], sep);
    }
  }

  /**
   * Splitting and joining again with the same separator restores any string that
   * does not end with the separator (otherwise Java drops the trailing empty pieces).
   */
  lemma SplitJoinRoundTrip(s: string, sep: string)
    requires !EndsWith(s, sep)
    ensures |Split(s, sep)| > 0 && Joined(Split(s, sep), sep) == s
  {
    if Find(s, sep) < |s| {
      PiecesLastNonEmpty(s, sep);
      JoinedPieces(s, sep);
    }
  }

  /** What comes before the first occurrence of `sep` does not contain it. */
  lemma BeforeFirstAvoids(s: string, sep: string, k: nat)
    requires |sep| > 0 && k <= |s|
    requires forall j :: 0 <= j < k ==> !OccursAt(s, sep, j)
    ensures forall j :: 0 <= j ==> !OccursAt(s[..k], sep, j)
  {
    forall j | 0 <= j && j + |sep| <= k ensures !OccursAt(s[..k], sep, j) {
      assert s[..k][j..j + |sep|] == s[j..j + |sep|];
      assert !OccursAt(s, sep, j);
    }
  }

  lemma {:induction false} PiecesAvoidSeparator(s: string, sep: string)
    requires |sep| > 0
    ensures forall i, j :: 0 <= i < |Pieces(s, sep)| && 0 <= j ==> !OccursAt(Pieces(s, sep)[i], sep, j)
    decreases |s|
  {
    var k := Find(s, sep);
    var p := Pieces(s, sep);
    BeforeFirstAvoids(s, sep, k);
    if k < |s| {
      var rest := s[k + |sep|..];
      var q := Pieces(rest, sep);
      assert p == [s[..k]] + q;
      PiecesAvoidSeparator(rest, sep);
      forall i, j | 0 <= i < |p| && 0 <= j ensures !OccursAt(p[i], sep, j) {
        if i > 0 {
          assert p[i] == q[i - 1];
        }
      }
    } else {
      assert s[..k] == s;
    }
  }

  /** No piece that split returns contains the separator: the cut is literal and complete. */
  lemma SplitAvoidsSeparator(s: string, sep: string)
    requires |sep| > 0
    ensures forall i, j :: 0 <= i < |Split(s, sep)| && 0 <= j ==> !OccursAt(Split(s, sep)[i], sep, j)
  {
    if Find(s, sep) < |s| {
      PiecesAvoidSeparator(s, sep);
      var p := Pieces(s, sep);
      var d := DropTrailingEmpty(p);
      assert forall i :: 0 <= i < |d| ==> d[i] == p[i];
    }
  }
  /** The first occurrence of a one-character separator in x + [c] + y is right after x. */
  lemma FindAfterPrefix(x: string, c: char, y: string)
    requires c !in x
    ensures Find(x + [c] + y, [c]) == |x|
  {
    var s := x + [c] + y;
    assert OccursAt(s, [c], |x|) by { assert s[|x|..|x| + 1] == [c]; }
    forall j | 0 <= j < |x| ensures !OccursAt(s, [c], j) {
      assert s[j..j + 1] == [x[j]];
    }
  }

  lemma {:induction false} PiecesOfJoined(a: seq<string>, c: char)
    requires |a| > 0 && forall i :: 0 <= i < |a| ==> c !in a[i]
    ensures Pieces(Joined(a, [c]), [c]) == a
  {
    var s := Joined(a, [c]);
    if |a| == 1 {
      forall j: nat | j + 1 <= |a[0]| ensures !OccursAt(a[0], [c], j) {
        assert a[0][j..j + 1] == [a[0][j]];
      }
    } else {
      JoinedCons(a, [c]);
      FindAfterPrefix(a[0], c, Joined(a[1..], [c]));
      PiecesOfJoined(a[1..], c);
      assert s[..|a[0]|] == a[0];
      assert s[|a[0]| + 1..] == Joined(a[1..], [c]);
    }
  }

  /**
   * Split undoes Join for a one-character separator that no piece contains,
   * provided the last piece is not empty (Java drops trailing empty pieces).
   */
  lemma JoinSplitRoundTrip(a: seq<string>, c: char)
    requires |a| > 0 && forall i :: 0 <= i < |a| ==> c !in a[i]
    requires |a| == 1 || a[|a| - 1] != ""
    ensures Split(Joined(a, [c]), [c]) == a
  {
    PiecesOfJoined(a, c);
    var s := Joined(a, [c]);
    if |a| > 1 {
      JoinedCons(a, [c]);
      FindAfterPrefix(a[0], c, Joined(a[1..], [c]));
    }
  }
}
