/**
 * The Java types a setter can declare and the values the binder hands to it.
 * Reflection is replaced by these explicit descriptions: a setter's parameter
 * type is a JType, and every object that can flow into a setter is a Value.
 */
module JavaTypes {
  import opened Wrappers

  /** The primitive types; each has a boxed counterpart in java.lang. */
  datatype Prim = PInt | PShort | PLong | PFloat | PDouble | PBoolean | PChar | PByte

  datatype JType =
    | Primitive(prim: Prim)        // int, short, ...
    | Boxed(boxed: Prim)           // Integer, Short, ...
    | StringClass                  // java.lang.String
    | ObjectClass                  // java.lang.Object
    | OtherClass(className: string)
    | ArrayOf(component: JType)

  /**
   * Run-time values. Floating-point values keep the text they were parsed
   * from; VError is ExecutionService.CommandError.ERROR, VPlain a bare
   * `new Object()`, VObject any other object, identified by its class name.
   */
  datatype Value =
    | VInt(i: int)
    | VShort(s: int)
    | VLong(l: int)
    | VFloat(ftext: string)
    | VDouble(dtext: string)
    | VBool(b: bool)
    | VChar(c: char)
    | VString(str: string)
    | VArray(elem: JType, items: seq<Value>)
    | VObject(cls: string)
    | VError
    | VPlain
    | VNull

  /** The primitive type whose boxed form a scalar value is, if any. */
  function PrimOf(v: Value): (r: Option<Prim>)
    ensures r.Some? <==> (v.VInt? || v.VShort? || v.VLong? || v.VFloat? || v.VDouble? || v.VBool? || v.VChar?)
  {
    match v
    case VInt(_) => Some(PInt)
    case VShort(_) => Some(PShort)
    case VLong(_) => Some(PLong)
    case VFloat(_) => Some(PFloat)
    case VDouble(_) => Some(PDouble)
    case VBool(_) => Some(PBoolean)
    case VChar(_) => Some(PChar)
    case _ => None
  }

  /**
   * Whether Method.invoke accepts `v` for a parameter of type `t`: a primitive
   * parameter takes its boxed value (never null); a reference parameter takes
   * null or an instance of exactly that class; Object takes anything.
   */
  predicate Assignable(v: Value, t: JType) {
    match t
    case Primitive(p) => PrimOf(v) == Some(p)
    case Boxed(p) => v.VNull? || PrimOf(v) == Some(p)
    case StringClass => v.VNull? || v.VString?
    case ObjectClass => true
    case OtherClass(n) => v.VNull? || v == VObject(n)
    case ArrayOf(c) => v.VNull? || (v.VArray? && v.elem == c)
  }
}
