/**
 The part of Go's run-time type information that the document builder reads:
 a type's kind, its name, the fields of a struct (name, type, tag) and the
 element type of a slice.
 */
module Reflect {
  import opened Wrappers

  /** reflect.Kind, in Go's declaration order. */
  datatype Kind =
    | Invalid | Bool | Int | Int8 | Int16 | Int32 | Int64
    | Uint | Uint8 | Uint16 | Uint32 | Uint64 | Uintptr
    | Float32 | Float64 | Complex64 | Complex128
    | Array | Chan | Func | Interface | Map | Ptr | Slice | String | Struct
    | UnsafePointer

  /** reflect.Kind.String(): the lower-case kind names Go prints. */
  function KindString(k: Kind): string
  {
    match k
    case Invalid => "invalid"
    case Bool => "bool"
    case Int => "int"
    case Int8 => "int8"
    case Int16 => "int16"
    case Int32 => "int32"
    case Int64 => "int64"
    case Uint => "uint"
    case Uint8 => "uint8"
    case Uint16 => "uint16"
    case Uint32 => "uint32"
    case Uint64 => "uint64"
    case Uintptr => "uintptr"
    case Float32 => "float32"
    case Float64 => "float64"
    case Complex64 => "complex64"
    case Complex128 => "complex128"
    case Array => "array"
    case Chan => "chan"
    case Func => "func"
    case Interface => "interface"
    case Map => "map"
    case Ptr => "ptr"
    case Slice => "slice"
    case String => "string"
    case Struct => "struct"
    case UnsafePointer => "unsafe.Pointer"
  }

  /**
   A type as reflection shows it: `name` is reflect.Type.Name() ("" for an
   unnamed type such as `[]Item`), `fields` the struct fields in declaration
   order, `elem` the element type of a slice. Recursive types cannot be
   described, which the builder does not support either.
   */
  datatype TypeDesc = TypeDesc(kind: Kind, name: string, fields: seq<Field>, elem: Option<TypeDesc>)

  /** reflect.StructField: name, type and the parsed struct tag. */
  datatype Field = Field(name: string, typ: TypeDesc, tag: map<string, string>)

  /** reflect.StructTag.Get: the value for `key`, or "" when the tag has none. */
  function TagGet(tag: map<string, string>, key: string): string
  {
    if key in tag then tag[key] else ""
  }

  /** Indexing a Go `map[string]reflect.Kind`: a missing key reads as Invalid. */
  function LookupKind(mapTypes: map<string, Kind>, key: string): Kind
  {
    if key in mapTypes then mapTypes[key] else Invalid
  }
}
