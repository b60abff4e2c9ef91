/** The descriptor language ("Pon") that scenes are written in, the errors its
    translators report, and the typed accessors every translator is built from.
    A descriptor is an immutable tree compared structurally; it is also the key
    of every resource cache. */
module Descriptor {

  /** A raw 32-bit word: an unsigned 32-bit integer, or the bit pattern of an
      `f32` (floating-point values are never interpreted by this model). */
  type Word = w: int | 0 <= w < 0x1_0000_0000

  /** The descriptor language's integers are signed 64-bit. */
  type I64 = i: int | -0x8000_0000_0000_0000 <= i < 0x8000_0000_0000_0000

  /** An unsigned 8-bit value. */
  type Byte = b: int | 0 <= b < 256

  datatype Option<+T> = None | Some(value: T)

  datatype Pon =
    | String(s: string)
    | Integer(i: I64)
    | Float(bits: Word)
    | Boolean(b: bool)
    | Array(elems: seq<Pon>)
    | Object(fields: map<string, Pon>)
    | Typed(typeName: string, data: Pon)

  /** The name of a descriptor's kind, as reported in type-mismatch errors. */
  function KindName(p: Pon): string
  {
    match p
    case String(_) => "string"
    case Integer(_) => "integer"
    case Float(_) => "float"
    case Boolean(_) => "boolean"
    case Array(_) => "array"
    case Object(_) => "object"
    case Typed(_, _) => "typed"
  }

  /** The errors a translation can end in. The crate's free-text `Generic`
      messages are given one variant each, carrying the values they print. */
  datatype TranslateErr =
    | MismatchType(expected: string, found: string)
    | NoSuchField(field: string)
    | UnrecognizedType(typeName: string)
    | UnrecognizedPropTransform(transformName: string)
    | PixelCountMismatch(expectedCount: int, foundCount: int)
    | ImageCreateFailed
    | ImageLoadFailed(filename: string, cause: string)

  datatype Result<+T> = Ok(value: T) | Err(error: TranslateErr) {
    predicate IsFailure() { Err? }

    function PropagateFailure<U>(): Result<U>
      requires Err?
    {
      Err(error)
    }

    function Extract(): T
      requires Ok?
    {
      value
    }
  }

  // Numeric narrowing, as Rust's `as` casts do it: keep the low bits.

  /** `x as u32` */
  function U32(x: int): Word { x % 0x1_0000_0000 }

  /** `x as u8` */
  function U8(x: int): Byte { x % 256 }

  /** `x as usize` on a 64-bit target */
  function Usize(x: int): nat { x % 0x1_0000_0000_0000_0000 }

  // Accessors: `translate::<T>()` on a node.

  function AsString(p: Pon): Result<string>
  {
    if p.String? then Ok(p.s) else Err(MismatchType("string", KindName(p)))
  }

  function AsInteger(p: Pon): Result<I64>
  {
    if p.Integer? then Ok(p.i) else Err(MismatchType("integer", KindName(p)))
  }

  function AsBool(p: Pon): Result<bool>
  {
    if p.Boolean? then Ok(p.b) else Err(MismatchType("boolean", KindName(p)))
  }

  function AsArray(p: Pon): Result<seq<Pon>>
  {
    if p.Array? then Ok(p.elems) else Err(MismatchType("array", KindName(p)))
  }

  function AsObject(p: Pon): Result<map<string, Pon>>
  {
    if p.Object? then Ok(p.fields) else Err(MismatchType("object", KindName(p)))
  }

  /** A `Typed` node itself, or a type mismatch. */
  function AsTyped(p: Pon): Result<Pon>
  {
    if p.Typed? then Ok(p) else Err(MismatchType("typed", KindName(p)))
  }

  predicate AllFloats(elems: seq<Pon>)
  {
    forall k :: 0 <= k < |elems| ==> elems[k].Float?
  }

  predicate AllIntegers(elems: seq<Pon>)
  {
    forall k :: 0 <= k < |elems| ==> elems[k].Integer?
  }

  function AsFloatArray(p: Pon): Result<seq<Word>>
  {
    if p.Array? && AllFloats(p.elems) then
      Ok(seq(|p.elems|, k requires 0 <= k < |p.elems| => p.elems[k].bits))
    else
      Err(MismatchType("float array", KindName(p)))
  }

  function AsIntegerArray(p: Pon): Result<seq<I64>>
  {
    if p.Array? && AllIntegers(p.elems) then
      Ok(seq(|p.elems|, k requires 0 <= k < |p.elems| => p.elems[k].i))
    else
      Err(MismatchType("integer array", KindName(p)))
  }

  // Field access: `field_as::<T>(name)` on an object node.

  function Field(data: Pon, name: string): Result<Pon>
  {
    if !data.Object? then Err(MismatchType("object", KindName(data)))
    else if name !in data.fields then Err(NoSuchField(name))
    else Ok(data.fields[name])
  }

  function FieldAsArray(data: Pon, name: string): Result<seq<Pon>>
  {
    var f :- Field(data, name);
    AsArray(f)
  }

  function FieldAsInteger(data: Pon, name: string): Result<I64>
  {
    var f :- Field(data, name);
    AsInteger(f)
  }

  function FieldAsFloatArray(data: Pon, name: string): Result<seq<Word>>
  {
    var f :- Field(data, name);
    AsFloatArray(f)
  }

  function FieldAsIntegerArray(data: Pon, name: string): Result<seq<I64>>
  {
    var f :- Field(data, name);
    AsIntegerArray(f)
  }

  function FieldAsTyped(data: Pon, name: string): Result<Pon>
  {
    var f :- Field(data, name);
    AsTyped(f)
  }

  /** `data` is an object with a field called `name`. */
  predicate HasField(data: Pon, name: string)
  {
    data.Object? && name in data.fields
  }
}
