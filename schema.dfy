/**
 * What Process learns through reflection, made explicit: the kind of each
 * field, its tags, whether it can be set, and the values fields hold.
 */
module Schema {
  import opened Options
  import Strconv

  /**
   * The reflect.Kind of a field.  Other stands for every kind Process has
   * no case for (Uintptr, Complex64, Complex128, Array, Chan, Func,
   * Interface, Map, Slice, UnsafePointer).
   */
  datatype Kind =
    | String
    | Int | Int8 | Int16 | Int32 | Int64
    | Uint | Uint8 | Uint16 | Uint32 | Uint64
    | Bool
    | Float32 | Float64
    | Struct(fields: seq<Field>)
    | Ptr(elemIsStruct: bool, elemPkgPath: string, elemName: string)
    | Other

  /**
   * One struct field: its Go name, the name of its type (f.Type().String()),
   * whether reflection may set it (an exported field of an addressable
   * struct), its kind and its three tags (Tag.Get gives "" for a missing tag).
   */
  datatype Field = Field(
    name: string,
    typeName: string,
    settable: bool,
    kind: Kind,
    envconfig: string,
    default: string,
    required: string)

  predicate IsSignedKind(k: Kind) {
    k.Int? || k.Int8? || k.Int16? || k.Int32? || k.Int64?
  }

  /** The unsigned kinds, Uint32 among them; Process handles all but Uint32. */
  predicate IsUnsignedKind(k: Kind) {
    k.Uint? || k.Uint8? || k.Uint16? || k.Uint32? || k.Uint64?
  }

  predicate IsFloatKind(k: Kind) {
    k.Float32? || k.Float64?
  }

  /** A pointer to net/url.URL. */
  predicate IsUrlPtr(k: Kind) {
    k.Ptr? && k.elemIsStruct && k.elemPkgPath == "net/url" && k.elemName == "URL"
  }

  /** f.Type().Bits() for the sized kinds; int and uint are 64 bits wide. */
  function Bits(k: Kind): (b: nat)
    requires IsSignedKind(k) || IsUnsignedKind(k) || IsFloatKind(k)
    ensures 8 <= b <= 64
  {
    if k.Int8? || k.Uint8? then 8
    else if k.Int16? || k.Uint16? then 16
    else if k.Int32? || k.Uint32? || k.Float32? then 32
    else Strconv.IntSize
  }

  /** The IEEE 754 bit pattern of a float value. */
  datatype Float = Float(ieee: bv64)

  /** A parsed *url.URL; its components are not modelled, only the text it came from. */
  datatype Url = Url(source: string)

  /** The value a field holds.  Opaque stands for a value of a kind the model does not interpret. */
  datatype Value =
    | StringVal(s: string)
    | IntVal(i: int)
    | UintVal(n: nat)
    | BoolVal(b: bool)
    | FloatVal(f: Float)
    | StructVal(fields: seq<Value>)
    | UrlPtrVal(url: Option<Url>)
    | Opaque(token: nat)

  /** A value fits a kind: the right constructor, integers within the width, struct fields one by one. */
  predicate Conforms(v: Value, k: Kind)
    decreases k
  {
    if k.String? then v.StringVal?
    else if IsSignedKind(k) then
      v.IntVal? && -(Strconv.Pow2(Bits(k) - 1) as int) <= v.i < Strconv.Pow2(Bits(k) - 1)
    else if IsUnsignedKind(k) then v.UintVal? && v.n < Strconv.Pow2(Bits(k))
    else if k.Bool? then v.BoolVal?
    else if IsFloatKind(k) then v.FloatVal?
    else if k.Struct? then
      v.StructVal? && |v.fields| == |k.fields|
      && forall i :: 0 <= i < |k.fields| ==> Conforms(v.fields[i], k.fields[i].kind)
    else if IsUrlPtr(k) then v.UrlPtrVal?
    else v.Opaque?
  }

  /** The zero value of a kind, which reflect.New allocates. */
  function Zero(k: Kind): (v: Value)
    ensures Conforms(v, k)
    ensures k.Struct? ==> v.StructVal? && |v.fields| == |k.fields|
    decreases k
  {
    if k.String? then StringVal("")
    else if IsSignedKind(k) then IntVal(0)
    else if IsUnsignedKind(k) then UintVal(0)
    else if k.Bool? then BoolVal(false)
    else if IsFloatKind(k) then FloatVal(Float(0))
    else if k.Struct? then StructVal(seq(|k.fields|, i requires 0 <= i < |k.fields| => Zero(k.fields[i].kind)))
    else if IsUrlPtr(k) then UrlPtrVal(None)
    else Opaque(0)
  }

  /** The process environment, read-only for the duration of a call. */
  type Env = map<string, string>

  /** os.Getenv: the value of a variable, "" when it is not set. */
  function Getenv(env: Env, key: string): (r: string)
    ensures key !in env ==> r == ""
    ensures key in env ==> r == env[key]
  {
    if key in env then env[key] else ""
  }

  /**
   * The library calls the model does not look into: strconv.ParseFloat
   * (floating point) and whether url.Parse accepts a text.
   */
  datatype Library = Library(
    parseFloat: (string, nat) -> Option<Float>,
    urlParses: string -> bool)
}
