/**
 * checkInputClass: turning one console token into a value of a setter's
 * parameter type. Both Command classes (global/Command.java and the older
 * command/Command.java) contain the same dispatch; they differ only in how the
 * failures surface, which each binder decides from a CoerceError.
 */
module Coercion {
  import opened Wrappers
  import opened JavaLang
  import opened JavaTypes
  import StringUtils

  datatype CoerceError =
    | NumberFormat(token: string)   // NumberFormatException from a parse call
    | NoFirstChar                   // charAt(0) on the empty string
    | Unrecognized(target: JType)   // "not recognized as a valid class"

  /** The element types whose arrays are parsed piece by piece. */
  predicate IsNumeric(p: Prim) { p.PInt? || p.PShort? || p.PLong? || p.PFloat? || p.PDouble? }

  /** The value of an integral parse, of the primitive asked for. */
  function IntegralValue(p: Prim, n: Option<int>): (r: Option<Value>)
    requires p.PInt? || p.PShort? || p.PLong?
    ensures r.Some? <==> n.Some?
    ensures r.Some? ==> PrimOf(r.value) == Some(p)
  {
    match n
    case None => None
    case Some(k) => Some(if p.PInt? then VInt(k) else if p.PShort? then VShort(k) else VLong(k))
  }

  /** The value of a floating-point parse: the literal itself, of the primitive asked for. */
  function FloatingValue(p: Prim, ok: bool, token: string): (r: Option<Value>)
    requires p.PFloat? || p.PDouble?
    ensures r.Some? <==> ok
    ensures r.Some? ==> PrimOf(r.value) == Some(p)
  {
    if !ok then None else if p.PFloat? then Some(VFloat(token)) else Some(VDouble(token))
  }

  /** What Integer/Short/Long.parseX or Float/Double.parseX makes of the token; None is a NumberFormatException. */
  function ParsedNumber(p: Prim, token: string): (r: Option<Value>)
    requires IsNumeric(p)
    ensures r.Some? ==> PrimOf(r.value) == Some(p)
  {
    match p
    case PInt => IntegralValue(p, ParseInt(token))
    case PShort => IntegralValue(p, ParseShort(token))
    case PLong => IntegralValue(p, ParseLong(token))
    case PFloat => FloatingValue(p, IsFloatLiteral(token), token)
    case PDouble => FloatingValue(p, IsFloatLiteral(token), token)
  }

  predicate NumberParses(p: Prim, token: string)
    requires IsNumeric(p)
  {
    ParsedNumber(p, token).Some?
  }

  /** The value a successful parse produces. */
  function NumberValue(p: Prim, token: string): (v: Value)
    requires IsNumeric(p) && NumberParses(p, token)
    ensures PrimOf(v) == Some(p)
  {
    ParsedNumber(p, token).value
  }

  /** The primitive behind a numeric array component (int[] and Integer[] alike). */
  function NumericComponent(c: JType): Option<Prim> {
    match c
    case Primitive(p) => if IsNumeric(p) then Some(p) else None
    case Boxed(p) => if IsNumeric(p) then Some(p) else None
    case _ => None
  }

  /** Index of the first piece that does not parse, or |pieces| if all do. */
  function FirstBad(p: Prim, pieces: seq<string>): (k: nat)
    requires IsNumeric(p)
    ensures k <= |pieces|
    ensures forall j :: 0 <= j < k ==> NumberParses(p, pieces[j])
    ensures k < |pieces| ==> !NumberParses(p, pieces[k])
  {
    if |pieces| == 0 then 0
    else if !NumberParses(p, pieces[0]) then 0
    else
      var k := FirstBad(p, pieces[1..]);
      ParsesShift(p, pieces, k);
      1 + k
  }

  /** The pieces that parse after the first one, seen from the whole list. */
  lemma ParsesShift(p: Prim, pieces: seq<string>, k: nat)
    requires IsNumeric(p) && 0 < |pieces| && k < |pieces| && NumberParses(p, pieces[0])
    requires forall j :: 0 <= j < k ==> NumberParses(p, pieces[1..][j])
    requires k < |pieces| - 1 ==> !NumberParses(p, pieces[1..][k])
    ensures forall j :: 0 <= j < k + 1 ==> NumberParses(p, pieces[j])
    ensures k + 1 < |pieces| ==> !NumberParses(p, pieces[k + 1])
  {
    ParsesShiftPrefix(p, pieces, k);
    if k + 1 < |pieces| {
      assert pieces[k + 1] == pieces[1..][k];
    }
  }

  lemma ParsesShiftPrefix(p: Prim, pieces: seq<string>, k: nat)
    requires IsNumeric(p) && 0 < |pieces| && k < |pieces| && NumberParses(p, pieces[0])
    requires forall j :: 0 <= j < k ==> NumberParses(p, pieces[1..][j])
    ensures forall j :: 0 <= j < k + 1 ==> NumberParses(p, pieces[j])
  {
    forall j | 0 < j < k + 1
      ensures NumberParses(p, pieces[j])
    {
      assert pieces[j] == pieces[1..][j - 1];
    }
  }

  /** The array branch after the input has been split on ",". */
  function ArrayFromPieces(c: JType, pieces: seq<string>): (r: Result<Value, CoerceError>)
    ensures r.Ok? ==> r.value.VArray? && r.value.elem == c && |r.value.items| == |pieces|
    ensures r.Err? && r.error.NumberFormat? ==> r.error.token in pieces
  {
    if c == StringClass then
      Ok(VArray(c, seq(|pieces|, i requires 0 <= i < |pieces| => VString(pieces[i]))))
    else if NumericComponent(c).Some? then
      match ParsedPieces(NumericComponent(c).value, pieces)
      case Ok(items) => Ok(VArray(c, items))
      case Err(e) => Err(e)
    else Err(Unrecognized(ArrayOf(c)))
  }

  /** Every piece parsed, or the NumberFormatException of the first piece that does not parse. */
  function ParsedPieces(p: Prim, pieces: seq<string>): (r: Result<seq<Value>, CoerceError>)
    requires IsNumeric(p)
    ensures r.Ok? ==> |r.value| == |pieces|
    ensures r.Ok? ==> forall j :: 0 <= j < |pieces| ==>
      NumberParses(p, pieces[j]) && r.value[j] == NumberValue(p, pieces[j])
    ensures r.Err? ==> exists j :: 0 <= j < |pieces| && !NumberParses(p, pieces[j]) && r.error == NumberFormat(pieces[j])
  {
    var k := FirstBad(p, pieces);
    if k < |pieces| then Err(NumberFormat(pieces[k]))
    else Ok(seq(|pieces|, i requires 0 <= i < |pieces| => NumberValue(p, pieces[i])))
  }

  /**
   * checkInputClass(clazz, input). Arrays: the input is split on "," and every
   * piece parsed; String[] keeps the pieces; other components are rejected.
   * Scalars: int, short, long, float and double are parsed, String is passed
   * through, boolean is parseBoolean, char is the first character. Boxed types
   * fail because clazz.newInstance() throws on them; Object and other classes
   * instantiate but match no branch; byte matches no branch either.
   */
  function Coerce(t: JType, input: string): (r: Result<Value, CoerceError>)
    ensures r.Ok? ==> Assignable(r.value, t)
    ensures r.Err? && r.error.NumberFormat? ==>
      (t.ArrayOf? && r.error.token in StringUtils.Split(input, ",")) || r.error.token == input
    ensures t.ArrayOf? && r.Ok? ==>
      r.value.VArray? && |r.value.items| == |StringUtils.Split(input, ",")|
    ensures t == Primitive(PBoolean) ==> r == Ok(VBool(Lower(input) == "true"))
    ensures t.Boxed? || t == ObjectClass || t.OtherClass? ==> r == Err(Unrecognized(t))
  {
    match t
    case ArrayOf(c) => ArrayFromPieces(c, StringUtils.Split(input, ","))
    case Primitive(p) =>
      if IsNumeric(p) then
        (if NumberParses(p, input) then Ok(NumberValue(p, input)) else Err(NumberFormat(input)))
      else if p == PBoolean then Ok(VBool(ParseBoolean(input)))
      else if p == PChar then (if |input| == 0 then Err(NoFirstChar) else Ok(VChar(input[0])))
      else Err(Unrecognized(t))
    case StringClass => Ok(VString(input))
    case _ => Err(Unrecognized(t))
  }

  /**
   * The same dispatch, with the array branch filling the new array in a loop
   * as the source does with Array.set.
   */
  method CheckInputClass(t: JType, input: string) returns (r: Result<Value, CoerceError>)
    ensures r == Coerce(t, input)
  {
    if !t.ArrayOf? {
      return Coerce(t, input);
    }
    var pieces := StringUtils.Split(input, ",");
    r := FillArray(t.component, pieces);
  }

  method FillArray(c: JType, pieces: seq<string>) returns (r: Result<Value, CoerceError>)
    ensures r == ArrayFromPieces(c, pieces)
  {
    if c == StringClass || NumericComponent(c).None? {
      return ArrayFromPieces(c, pieces);
    }
    var parsed := ParsePieces(NumericComponent(c).value, pieces);
    r := match parsed case Ok(items) => Ok(VArray(c, items)) case Err(e) => Err(e);
  }

  /** The Array.set loop: the pieces are parsed in order and the first failure is thrown. */
  method ParsePieces(p: Prim, pieces: seq<string>) returns (r: Result<seq<Value>, CoerceError>)
    requires IsNumeric(p)
    ensures r == ParsedPieces(p, pieces)
  {
    var items: seq<Value> := [];
    var i := 0;
    while i < |pieces|
      invariant 0 <= i <= |pieces|
      invariant |items| == i
      invariant forall j :: 0 <= j < i ==> ParsedNumber(p, pieces[j]) == Some(items[j])
    {
      var parsed := ParsedNumber(p, pieces[i]);
      if parsed.None? {
        FirstBadIsFirst(p, pieces, i);
        return Err(NumberFormat(pieces[i]));
      }
      ParsedSnoc(p, pieces, items, i, parsed.value);
      items := items + [parsed.value];
      i := i + 1;
    }
    FirstBadIsFirst(p, pieces, |pieces|);
    assert items == seq(|pieces|, j requires 0 <= j < |pieces| => NumberValue(p, pieces[j]));
    r := Ok(items);
  }

  /** The scalar branch, type by type: the three integral types are parsed, String passes, char is the first character. */
  lemma CoerceScalars(input: string)
    ensures Coerce(StringClass, input) == Ok(VString(input))
    ensures Coerce(Primitive(PChar), input) == if |input| == 0 then Err(NoFirstChar) else Ok(VChar(input[0]))
    ensures Coerce(Primitive(PByte), input) == Err(Unrecognized(Primitive(PByte)))
    ensures Coerce(Primitive(PInt), input) ==
      if ParseInt(input).Some? then Ok(VInt(ParseInt(input).value)) else Err(NumberFormat(input))
    ensures Coerce(Primitive(PShort), input) ==
      if ParseShort(input).Some? then Ok(VShort(ParseShort(input).value)) else Err(NumberFormat(input))
    ensures Coerce(Primitive(PLong), input) ==
      if ParseLong(input).Some? then Ok(VLong(ParseLong(input).value)) else Err(NumberFormat(input))
  {
  }

  /** String[] keeps the comma-separated pieces; arrays of booleans or chars are refused. */
  lemma CoerceArrays(input: string)
    ensures var p := StringUtils.Split(input, ",");
      Coerce(ArrayOf(StringClass), input) == Ok(VArray(StringClass, seq(|p|, i requires 0 <= i < |p| => VString(p[i]))))
    ensures Coerce(ArrayOf(Primitive(PBoolean)), input) == Err(Unrecognized(ArrayOf(Primitive(PBoolean))))
    ensures Coerce(ArrayOf(Primitive(PChar)), input) == Err(Unrecognized(ArrayOf(Primitive(PChar))))
  {
    CoerceArraySplits(StringClass, input);
    CoerceArraySplits(Primitive(PBoolean), input);
    CoerceArraySplits(Primitive(PChar), input);
    assert NumericComponent(Primitive(PBoolean)).None? && NumericComponent(Primitive(PChar)).None?;
  }

  /** One more piece parsed extends the items parsed so far. */
  lemma ParsedSnoc(p: Prim, pieces: seq<string>, items: seq<Value>, i: nat, v: Value)
    requires IsNumeric(p) && i < |pieces| && |items| == i
    requires forall j :: 0 <= j < i ==> ParsedNumber(p, pieces[j]) == Some(items[j])
    requires ParsedNumber(p, pieces[i]) == Some(v)
    ensures forall j :: 0 <= j < i + 1 ==> ParsedNumber(p, pieces[j]) == Some((items + [v])[j])
  {
    forall j | 0 <= j < i + 1
      ensures ParsedNumber(p, pieces[j]) == Some((items + [v])[j])
    {
      if j < i {
        assert (items + [v])[j] == items[j];
      } else {
        assert (items + [v])[j] == v;
      }
    }
  }

  /** FirstBad is determined by where the first unparsable piece is. */
  lemma {:induction false} FirstBadIsFirst(p: Prim, pieces: seq<string>, i: nat)
    requires IsNumeric(p) && i <= |pieces|
    requires forall j :: 0 <= j < i ==> NumberParses(p, pieces[j])
    requires i < |pieces| ==> !NumberParses(p, pieces[i])
    ensures FirstBad(p, pieces) == i
  {
    if i > 0 {
      var tail := pieces[1..];
      assert NumberParses(p, pieces[0]);
      forall j | 0 <= j < i - 1 ensures NumberParses(p, tail[j]) {
        assert tail[j] == pieces[j + 1];
      }
      assert i - 1 < |tail| ==> tail[i - 1] == pieces[i];
      FirstBadIsFirst(p, tail, i - 1);
      assert FirstBad(p, pieces) == 1 + FirstBad(p, tail);
    }
  }

  /** Coercing the printed form of an int gives the int back. */
  lemma CoerceIntRoundTrip(i: int)
    requires MinInt <= i <= MaxInt
    ensures Coerce(Primitive(PInt), IntToString(i)) == Ok(VInt(i))
  {
    ParseIntegralOfToString(i, MinInt, MaxInt);
  }

  /** A comma-separated list of printed ints coerces to the int[] holding them. */
  lemma CoerceIntArrayRoundTrip(xs: seq<int>)
    requires |xs| > 0 && forall j :: 0 <= j < |xs| ==> MinInt <= xs[j] <= MaxInt
    ensures
      var text := StringUtils.Joined(seq(|xs|, j requires 0 <= j < |xs| => IntToString(xs[j])), ",");
      Coerce(ArrayOf(Primitive(PInt)), text) ==
        Ok(VArray(Primitive(PInt), seq(|xs|, j requires 0 <= j < |xs| => VInt(xs[j]))))
  {
    var texts := seq(|xs|, j requires 0 <= j < |xs| => IntToString(xs[j]));
    forall j | 0 <= j < |xs| ensures ',' !in texts[j] {
      IntToStringHasNoComma(xs[j]);
    }
    var text := StringUtils.Joined(texts, ",");
    StringUtils.JoinSplitRoundTrip(texts, ',');
    CoerceArraySplits(Primitive(PInt), text);
    ParsedPrintedInts(xs, texts);
    IntArrayFromPieces(texts);
  }

  lemma CoerceArraySplits(c: JType, text: string)
    ensures Coerce(ArrayOf(c), text) == ArrayFromPieces(c, StringUtils.Split(text, ","))
  {
  }

  lemma IntArrayFromPieces(texts: seq<string>)
    ensures ParsedPieces(PInt, texts).Ok? ==>
      ArrayFromPieces(Primitive(PInt), texts) == Ok(VArray(Primitive(PInt), ParsedPieces(PInt, texts).value))
  {
    assert NumericComponent(Primitive(PInt)) == Some(PInt);
  }

  lemma ParsedPrintedInts(xs: seq<int>, texts: seq<string>)
    requires |texts| == |xs| && forall j :: 0 <= j < |xs| ==> MinInt <= xs[j] <= MaxInt
    requires forall j :: 0 <= j < |xs| ==> texts[j] == IntToString(xs[j])
    ensures ParsedPieces(PInt, texts) == Ok(seq(|xs|, j requires 0 <= j < |xs| => VInt(xs[j])))
  {
    forall j | 0 <= j < |xs| ensures ParseInt(texts[j]) == Some(xs[j]) {
      ParseIntegralOfToString(xs[j], MinInt, MaxInt);
    }
    FirstBadIsFirst(PInt, texts, |texts|);
    var items := seq(|texts|, i requires 0 <= i < |texts| => NumberValue(PInt, texts[i]));
    assert ParsedPieces(PInt, texts) == Ok(items);
    assert items == seq(|xs|, j requires 0 <= j < |xs| => VInt(xs[j]));
  }

  lemma IntToStringHasNoComma(i: int)
    ensures ',' !in IntToString(i)
  {
    var s := IntToString(i);
    var n := if i < 0 then -i else i;
    var d := NatToString(n);
    assert forall j :: 0 <= j < |d| ==> d[j] != ',';
    if i < 0 {
      assert s == "-" + d;
    }
  }

  /** The "-lib" default of the jar command: the empty text coerces to the one-element array [""]. */
  lemma EmptyStringArray()
    ensures Coerce(ArrayOf(StringClass), "") == Ok(VArray(StringClass, [VString("")]))
  {
    assert StringUtils.Split("", ",") == [""];
    assert seq(1, i requires 0 <= i < 1 => VString([""][i])) == [VString("")];
  }
}
