/**
 The type walker of parse.go as pure functions: the primitive table
 (primitiveSchema), the schema of one struct field (schemaOfField), the
 definition built for a struct (toDefinition) and the effect of toDefinition
 on the name-keyed definitions map. The imperative versions in module
 Builder are proved equal to these.

 `mapTypes` stands for the package-level `swaggerMapTypes` table.
 */
module Walker {
  import opened Wrappers
  import opened GoStrings
  import opened Reflect
  import opened SwaggerTypes

  /* ---------------------------------------------------------------------- */
  /* primitiveSchema                                                        */
  /* ---------------------------------------------------------------------- */

  /** The (type, format, ok) triple primitiveSchema returns. */
  datatype Primitive = Primitive(ftype: string, format: string, ok: bool)

  /**
   The fixed kinds of the "Data Types" table as the source writes it,
   including its quirks: Int is "int32", Uint16 is spelt "uin16", and
   Int32 and Uint32 are absent.
   */
  const PrimitiveTable: map<Kind, (string, string)> := map[
    Int := ("integer", "int32"),
    Uint := ("integer", "uint32"),
    Int8 := ("integer", "int8"),
    Uint8 := ("integer", "uint8"),
    Int16 := ("integer", "int16"),
    Uint16 := ("integer", "uin16"),
    Int64 := ("integer", "int64"),
    Uint64 := ("integer", "uint64"),
    Bool := ("boolean", "boolean"),
    String := ("string", ""),
    Float32 := ("number", "float"),
    Float64 := ("number", "double")
  ]

  /** primitiveSchema(kind, t); its table is stated by PrimitiveSchemaTable. */
  function PrimitiveSchema(kind: Kind, t: string): Primitive
  {
    match kind
    case Int => Primitive("integer", "int32", true)
    case Uint => Primitive("integer", "uint32", true)
    case Int8 => Primitive("integer", "int8", true)
    case Uint8 => Primitive("integer", "uint8", true)
    case Int16 => Primitive("integer", "int16", true)
    case Uint16 => Primitive("integer", "uin16", true)
    case Int64 => Primitive("integer", "int64", true)
    case Uint64 => Primitive("integer", "uint64", true)
    case Bool => Primitive("boolean", "boolean", true)
    case String => Primitive("string", "", true)
    case Float32 => Primitive("number", "float", true)
    case Float64 => Primitive("number", "double", true)
    case Slice => Primitive(RemoveAll(t, "[]"), "", true)
    case _ => Primitive("", "", false)
  }

  /**
   primitiveSchema answers exactly the pairs of the table, the slice rule,
   and (ok = false, "", "") for every other kind.
   */
  lemma PrimitiveSchemaTable(kind: Kind, t: string)
    ensures var r := PrimitiveSchema(kind, t);
      && (r.ok <==> kind in PrimitiveTable || kind == Slice)
      && (kind in PrimitiveTable ==> (r.ftype, r.format) == PrimitiveTable[kind])
      && (kind == Slice ==> r.ftype == RemoveAll(t, "[]") && r.format == "")
      && (!r.ok ==> r.ftype == "" && r.format == "")
  {
  }

  /**
   The core the walker falls back to: the primitive pair of `kind` when the
   table has one, else `{type: <fallback's kind name>, format: "UNKNOWN"}`.
   */
  function PrimitiveOrUnknown(kind: Kind, fallback: Kind, t: string): SchemaCore
  {
    var p := PrimitiveSchema(kind, t);
    if p.ok then SchemaCore(p.ftype, p.format, "", None)
    else SchemaCore(KindString(fallback), "UNKNOWN", "", None)
  }

  /* ---------------------------------------------------------------------- */
  /* schemaOfField                                                          */
  /* ---------------------------------------------------------------------- */

  /** The kind swaggerMapTypes gives a slice type's name with every "[]" removed. */
  function SliceElemKind(mapTypes: map<string, Kind>, t: TypeDesc): Kind
  {
    LookupKind(mapTypes, RemoveAll(t.name, "[]"))
  }

  /**
   A slice whose name swaggerMapTypes does not know: schemaOfField refers to
   its element by name and calls toDefinition on the element.
   */
  predicate NeedsElemDefinition(mapTypes: map<string, Kind>, t: TypeDesc)
  {
    t.kind == Slice && SliceElemKind(mapTypes, t) == Invalid
  }

  /** The name surgery of the Invalid branch: the first '[', ']', '*', '{', '}' go. */
  function InvalidRefName(name: string): string
  {
    RemoveFirst(RemoveFirst(RemoveFirst(RemoveFirst(RemoveFirst(name, '['), ']'), '*'), '{'), '}')
  }

  /** The core of the Invalid branch of schemaOfField's first switch. */
  function InvalidCore(mapTypes: map<string, Kind>, name: string): SchemaCore
  {
    var refName := InvalidRefName(name);
    if refName == "interface" then SchemaCore("object", "", "", None)
    else if refName == "mapstringstring" then SchemaCore("object", "", "", None)
    else if HasPrefix(refName, "[]") then
      var tempKind := LookupKind(mapTypes, RemoveAll(refName, "[]"));
      SchemaCore("array", "", "", Some(PrimitiveOrUnknown(tempKind, Invalid, refName)))
    else SchemaCore("", "", DefRef(refName), None)
  }

  /** The core of the Slice branch of schemaOfField's first switch. */
  function SliceCore(mapTypes: map<string, Kind>, t: TypeDesc): SchemaCore
    requires t.kind == Slice
    requires NeedsElemDefinition(mapTypes, t) ==> t.elem.Some?
  {
    var tempKind := SliceElemKind(mapTypes, t);
    if tempKind == Invalid then SchemaCore("", t.elem.value.name, DefRef(t.elem.value.name), None)
    else PrimitiveOrUnknown(tempKind, Slice, t.name)
  }

  /** schemaOfField's first switch: the core for the field's type. */
  function FieldCore(mapTypes: map<string, Kind>, t: TypeDesc): SchemaCore
    requires NeedsElemDefinition(mapTypes, t) ==> t.elem.Some?
  {
    match t.kind
    case Invalid => InvalidCore(mapTypes, t.name)
    case Slice => SliceCore(mapTypes, t)
    case _ => PrimitiveOrUnknown(t.kind, t.kind, t.name)
  }

  /** schemaOfField's second switch: which cores get an array wrapper. */
  function WrapCore(t: TypeDesc, core: SchemaCore): SchemaCore
  {
    if t.kind == Slice || (t.kind == Invalid && HasPrefix(t.name, "[]")) then
      SchemaCore("array", "", "", Some(core))
    else core
  }

  /**
   The schema schemaOfField returns for `f`. Its effect on the definitions
   map is ElemDefinition.
   */
  function FieldSchema(mapTypes: map<string, Kind>, f: Field): Schema
    requires NeedsElemDefinition(mapTypes, f.typ) ==> f.typ.elem.Some?
  {
    Schema(WrapCore(f.typ, FieldCore(mapTypes, f.typ)), "", TagGet(f.tag, "comment"), None, [])
  }

  /**
   What schemaOfField promises: the description is the `comment` tag; other
   kinds than slice and Invalid give the primitive pair or the kind name with
   format "UNKNOWN" (a struct field is not a `$ref`); a slice is wrapped as an
   array whose items refer to the element by name exactly when
   swaggerMapTypes does not know the slice.
   */
  lemma FieldSchemaShape(mapTypes: map<string, Kind>, f: Field)
    requires NeedsElemDefinition(mapTypes, f.typ) ==> f.typ.elem.Some?
    ensures var r := FieldSchema(mapTypes, f);
      && r.description == TagGet(f.tag, "comment")
      && r.title == "" && r.properties == None && r.required == []
      && (f.typ.kind != Slice && f.typ.kind != Invalid ==>
           var p := PrimitiveSchema(f.typ.kind, f.typ.name);
           r.core == if p.ok then SchemaCore(p.ftype, p.format, "", None)
                     else SchemaCore(KindString(f.typ.kind), "UNKNOWN", "", None))
      && (f.typ.kind == Struct ==> r.core == SchemaCore("struct", "UNKNOWN", "", None))
      && (f.typ.kind == Slice ==> r.core.items.Some? && r.core == SchemaCore("array", "", "", r.core.items))
      && (NeedsElemDefinition(mapTypes, f.typ) ==>
           r.core.items == Some(SchemaCore("", f.typ.elem.value.name, DefRef(f.typ.elem.value.name), None)))
      && (f.typ.kind == Slice && !NeedsElemDefinition(mapTypes, f.typ) ==>
           var p := PrimitiveSchema(SliceElemKind(mapTypes, f.typ), f.typ.name);
           r.core.items == Some(if p.ok then SchemaCore(p.ftype, p.format, "", None)
                                else SchemaCore("slice", "UNKNOWN", "", None)))
  {
  }

  /**
   The Invalid branch of schemaOfField, which the source uses for named
   types it cannot reflect on: after the name surgery "interface" and
   "mapstringstring" give `{type: object}`; a name still starting with "[]"
   gives an array of the primitive pair of the remaining name, or of
   `{type: invalid, format: UNKNOWN}`; any other name becomes a `$ref` to
   it. The result is wrapped in an array exactly when the name as written
   starts with "[]".
   */
  lemma InvalidFieldSchema(mapTypes: map<string, Kind>, f: Field)
    requires f.typ.kind == Invalid
    ensures var r := FieldSchema(mapTypes, f);
      var inner := InvalidCore(mapTypes, f.typ.name);
      var refName := InvalidRefName(f.typ.name);
      && r.description == TagGet(f.tag, "comment")
      && (refName == "interface" || refName == "mapstringstring" ==>
           inner == SchemaCore("object", "", "", None))
      && (refName != "interface" && refName != "mapstringstring" && HasPrefix(refName, "[]") ==>
           var p := PrimitiveSchema(LookupKind(mapTypes, RemoveAll(refName, "[]")), refName);
           inner == SchemaCore("array", "", "", Some(if p.ok then SchemaCore(p.ftype, p.format, "", None)
                                                     else SchemaCore("invalid", "UNKNOWN", "", None))))
      && (refName != "interface" && refName != "mapstringstring" && !HasPrefix(refName, "[]") ==>
           inner == SchemaCore("", "", DefRef(refName), None))
      && (HasPrefix(f.typ.name, "[]") ==> r.core == SchemaCore("array", "", "", Some(inner)))
      && (!HasPrefix(f.typ.name, "[]") ==> r.core == inner)
  {
  }

  /* ---------------------------------------------------------------------- */
  /* toDefinition: which descriptors it accepts                             */
  /* ---------------------------------------------------------------------- */

  /**
   toDefinition(d, t) returns without a panic: `t` is a struct (NumField
   panics on anything else), and so is every type the walk will hand to
   toDefinition: struct-kind fields and the elements of slices that
   NeedsElemDefinition.
   */
  predicate Definable(mapTypes: map<string, Kind>, t: TypeDesc)
    decreases t, 1
  {
    t.kind == Struct &&
    forall i :: 0 <= i < |t.fields| ==> FieldDefinable(mapTypes, t.fields[i])
  }

  /** What Definable asks of one field. */
  predicate FieldDefinable(mapTypes: map<string, Kind>, f: Field)
    decreases f.typ, 2
  {
    (f.typ.kind == Struct ==> Definable(mapTypes, f.typ)) &&
    (NeedsElemDefinition(mapTypes, f.typ) ==> f.typ.elem.Some? && Definable(mapTypes, f.typ.elem.value))
  }

  /**
   A slice field that swaggerMapTypes does not know sends its element to
   toDefinition, so it is only definable when the element is a struct.
   */
  lemma UnknownSliceNeedsStruct(mapTypes: map<string, Kind>, f: Field)
    requires f.typ.kind == Slice && RemoveAll(f.typ.name, "[]") !in mapTypes
    ensures FieldDefinable(mapTypes, f) ==> f.typ.elem.Some? && f.typ.elem.value.kind == Struct
  {
    assert NeedsElemDefinition(mapTypes, f.typ);
    if FieldDefinable(mapTypes, f) {
      assert Definable(mapTypes, f.typ.elem.value);
    }
  }

  /**
   An unnamed `[]string` field has the empty name, so unless
   swaggerMapTypes has the key "" the walk hands `string` to toDefinition,
   and a struct holding such a field is not definable.
   */
  lemma StringSliceFieldNotDefinable(mapTypes: map<string, Kind>, t: TypeDesc, i: nat)
    requires "" !in mapTypes
    requires i < |t.fields|
    requires t.fields[i].typ == TypeDesc(Slice, "", [], Some(TypeDesc(String, "", [], None)))
    ensures !FieldDefinable(mapTypes, t.fields[i])
    ensures !Definable(mapTypes, t)
  {
    assert RemoveAll("", "[]") == "";
    UnknownSliceNeedsStruct(mapTypes, t.fields[i]);
  }

  /* ---------------------------------------------------------------------- */
  /* toDefinition: the schema stored under the type's name                  */
  /* ---------------------------------------------------------------------- */

  /** The `required:"true"` tag test. */
  predicate IsRequired(f: Field)
  {
    TagGet(f.tag, "required") == "true"
  }

  /** No name occurs twice. */
  predicate NoDuplicates(s: seq<string>)
  {
    forall i, j :: 0 <= i < j < |s| ==> s[i] != s[j]
  }

  /** The (name, schema) entry the loop of toDefinition appends for field `f`. */
  function FieldEntry(mapTypes: map<string, Kind>, f: Field): KeyVal
    requires NeedsElemDefinition(mapTypes, f.typ) ==> f.typ.elem.Some?
  {
    KeyVal(f.name, FieldSchema(mapTypes, f))
  }

  /** Every field's element is known where the walk reads it. */
  predicate ElemsKnown(mapTypes: map<string, Kind>, t: TypeDesc)
  {
    forall i :: 0 <= i < |t.fields| ==>
      NeedsElemDefinition(mapTypes, t.fields[i].typ) ==> t.fields[i].typ.elem.Some?
  }

  /** The first required field among the first `n` fields named `x`, if any. */
  predicate RequiredNameIn(t: TypeDesc, n: nat, x: string)
    requires n <= |t.fields|
  {
    exists i :: 0 <= i < n && IsRequired(t.fields[i]) && t.fields[i].name == x
  }

  /** The property entries toDefinition has appended after seeing the first `n` fields. */
  function Entries(mapTypes: map<string, Kind>, t: TypeDesc, n: nat): (r: seq<KeyVal>)
    requires n <= |t.fields| && ElemsKnown(mapTypes, t)
    ensures |r| == n
  {
    if n == 0 then [] else Entries(mapTypes, t, n - 1) + [FieldEntry(mapTypes, t.fields[n - 1])]
  }

  /** Entry `i` is the one appended for field `i`, whatever later fields add. */
  lemma {:induction false} EntryAt(mapTypes: map<string, Kind>, t: TypeDesc, n: nat, i: nat)
    requires i < n <= |t.fields| && ElemsKnown(mapTypes, t)
    ensures Entries(mapTypes, t, n)[i] == FieldEntry(mapTypes, t.fields[i])
    decreases n
  {
    if i < n - 1 {
      EntryAt(mapTypes, t, n - 1, i);
    }
  }

  /** The required list toDefinition has built after seeing the first `n` fields. */
  function RequiredNames(t: TypeDesc, n: nat): seq<string>
    requires n <= |t.fields|
  {
    if n == 0 then []
    else
      var before := RequiredNames(t, n - 1);
      var f := t.fields[n - 1];
      if IsRequired(f) && f.name !in before then before + [f.name] else before
  }

  /**
   The schema toDefinition has built after its loop has seen the first `n`
   fields of `t`: an object titled with the type's name, its properties
   (Properties stays nil while there are none) and its required list.
   */
  function PartialDefinition(mapTypes: map<string, Kind>, t: TypeDesc, n: nat): Schema
    requires n <= |t.fields| && ElemsKnown(mapTypes, t)
  {
    Schema(SchemaCore("object", "", "", None), t.name, "",
           if n == 0 then None else Some(Entries(mapTypes, t, n)),
           RequiredNames(t, n))
  }

  /** The required list keeps the order of the fields: earlier lists are prefixes of later ones. */
  lemma {:induction false} RequiredInFieldOrder(t: TypeDesc, m: nat, n: nat)
    requires m <= n <= |t.fields|
    ensures RequiredNames(t, m) <= RequiredNames(t, n)
    decreases n - m
  {
    if m < n {
      RequiredInFieldOrder(t, m, n - 1);
    }
  }

  /** A name enters the required list at most once. */
  lemma {:induction false} RequiredNoDuplicates(t: TypeDesc, n: nat)
    requires n <= |t.fields|
    ensures NoDuplicates(RequiredNames(t, n))
  {
    if n > 0 {
      RequiredNoDuplicates(t, n - 1);
    }
  }

  /** Exactly the names of the fields tagged `required:"true"` are required. */
  lemma {:induction false} RequiredExactly(t: TypeDesc, n: nat)
    requires n <= |t.fields|
    ensures forall x :: x in RequiredNames(t, n) <==> RequiredNameIn(t, n, x)
  {
    if n > 0 {
      RequiredExactly(t, n - 1);
      var f := t.fields[n - 1];
      forall x
        ensures RequiredNameIn(t, n, x) <==> RequiredNameIn(t, n - 1, x) || (IsRequired(f) && f.name == x)
      {
        if RequiredNameIn(t, n, x) {
          var i :| 0 <= i < n && IsRequired(t.fields[i]) && t.fields[i].name == x;
          if i < n - 1 { assert RequiredNameIn(t, n - 1, x); }
        }
      }
    }
  }

  /** The schema toDefinition stores under `t.name`. */
  function DefinitionOf(mapTypes: map<string, Kind>, t: TypeDesc): Schema
    requires ElemsKnown(mapTypes, t)
  {
    PartialDefinition(mapTypes, t, |t.fields|)
  }

  /* ---------------------------------------------------------------------- */
  /* toDefinition: its effect on the definitions map                        */
  /* ---------------------------------------------------------------------- */

  lemma DefinableElemsKnown(mapTypes: map<string, Kind>, t: TypeDesc)
    requires Definable(mapTypes, t)
    ensures ElemsKnown(mapTypes, t)
  {
    forall i | 0 <= i < |t.fields|
      ensures NeedsElemDefinition(mapTypes, t.fields[i].typ) ==> t.fields[i].typ.elem.Some?
    {
      assert FieldDefinable(mapTypes, t.fields[i]);
    }
  }

  /**
   The definitions map after toDefinition(d, t): the fields are walked in
   order (each may define nested types), then `t.name` is overwritten.
   */
  function Define(mapTypes: map<string, Kind>, d: map<string, Schema>, t: TypeDesc): (r: map<string, Schema>)
    requires Definable(mapTypes, t)
    ensures d.Keys <= r.Keys && t.name in r
    decreases t, 2, 0
  {
    DefinableElemsKnown(mapTypes, t);
    DefineFields(mapTypes, d, t, 0)[t.name := DefinitionOf(mapTypes, t)]
  }

  /** What toDefinition stores under the type's own name. */
  lemma DefineStores(mapTypes: map<string, Kind>, d: map<string, Schema>, t: TypeDesc)
    requires Definable(mapTypes, t)
    ensures ElemsKnown(mapTypes, t) && Define(mapTypes, d, t)[t.name] == DefinitionOf(mapTypes, t)
  {
    DefinableElemsKnown(mapTypes, t);
  }

  /** The definitions map after the loop of toDefinition has seen fields i.. of t. */
  function DefineFields(mapTypes: map<string, Kind>, d: map<string, Schema>, t: TypeDesc, i: nat): (r: map<string, Schema>)
    requires Definable(mapTypes, t) && i <= |t.fields|
    ensures d.Keys <= r.Keys
    decreases t, 1, |t.fields| - i
  {
    if i == |t.fields| then d
    else DefineFields(mapTypes, DefineField(mapTypes, d, t.fields[i]), t, i + 1)
  }

  /** One field's effect: a struct-kind field's type first, then schemaOfField's. */
  function DefineField(mapTypes: map<string, Kind>, d: map<string, Schema>, f: Field): (r: map<string, Schema>)
    requires FieldDefinable(mapTypes, f)
    ensures d.Keys <= r.Keys
    decreases f.typ, 4, 0
  {
    var d1 := if f.typ.kind == Struct then Define(mapTypes, d, f.typ) else d;
    ElemDefinition(mapTypes, d1, f)
  }

  /** schemaOfField's effect on the map: the element of an unknown slice is defined. */
  function ElemDefinition(mapTypes: map<string, Kind>, d: map<string, Schema>, f: Field): (r: map<string, Schema>)
    requires FieldDefinable(mapTypes, f)
    ensures d.Keys <= r.Keys
    decreases f.typ, 3, 0
  {
    if NeedsElemDefinition(mapTypes, f.typ) then Define(mapTypes, d, f.typ.elem.value) else d
  }

  /* ---------------------------------------------------------------------- */
  /* The names toDefinition writes                                          */
  /* ---------------------------------------------------------------------- */

  /** Every name toDefinition(_, t) writes into the definitions map. */
  function Reached(mapTypes: map<string, Kind>, t: TypeDesc): set<string>
    requires Definable(mapTypes, t)
    decreases t, 2, 0
  {
    {t.name} + ReachedFields(mapTypes, t, 0)
  }

  function ReachedFields(mapTypes: map<string, Kind>, t: TypeDesc, i: nat): set<string>
    requires Definable(mapTypes, t) && i <= |t.fields|
    decreases t, 1, |t.fields| - i
  {
    if i == |t.fields| then {} else ReachedField(mapTypes, t.fields[i]) + ReachedFields(mapTypes, t, i + 1)
  }

  function ReachedField(mapTypes: map<string, Kind>, f: Field): set<string>
    requires FieldDefinable(mapTypes, f)
    decreases f.typ, 4, 0
  {
    (if f.typ.kind == Struct then Reached(mapTypes, f.typ) else {}) +
    (if NeedsElemDefinition(mapTypes, f.typ) then Reached(mapTypes, f.typ.elem.value) else {})
  }
}
