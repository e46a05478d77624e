/**
 What toDefinition does to the name-keyed definitions map, stated about the
 specification functions of module Walker: the definition stored under the
 type's name, the frame of the update (which keys change, and that the new
 values do not depend on the old map), idempotence, and that every nested
 struct is defined.
 */
module Registry {
  import opened Wrappers
  import opened Reflect
  import opened SwaggerTypes
  import opened Walker

  /**
   The definition stored under `t.name`: titled with the name, of type
   "object", one property per field in field order keyed by the field name,
   and the required list holding each `required:"true"` field once, in field
   order.
   */
  lemma DefinitionOfShape(mapTypes: map<string, Kind>, t: TypeDesc)
    requires ElemsKnown(mapTypes, t)
    ensures var r := DefinitionOf(mapTypes, t);
      && r.title == t.name && r.description == ""
      && r.core == SchemaCore("object", "", "", None)
      && (r.properties.None? <==> |t.fields| == 0)
      && (r.properties.Some? ==>
            |r.properties.value| == |t.fields| &&
            forall i :: 0 <= i < |t.fields| ==>
              r.properties.value[i] == KeyVal(t.fields[i].name, FieldSchema(mapTypes, t.fields[i])))
      && NoDuplicates(r.required)
      && (forall x :: x in r.required <==> RequiredNameIn(t, |t.fields|, x))
      && (forall n :: 0 <= n <= |t.fields| ==> RequiredNames(t, n) <= r.required)
      && r.required == RequiredNames(t, |t.fields|)
  {
    forall i | 0 <= i < |t.fields|
      ensures Entries(mapTypes, t, |t.fields|)[i] == KeyVal(t.fields[i].name, FieldSchema(mapTypes, t.fields[i]))
    {
      EntryAt(mapTypes, t, |t.fields|, i);
    }
    RequiredNoDuplicates(t, |t.fields|);
    RequiredExactly(t, |t.fields|);
    forall n | 0 <= n <= |t.fields| ensures RequiredNames(t, n) <= RequiredNames(t, |t.fields|) {
      RequiredInFieldOrder(t, n, |t.fields|);
    }
  }

  /* ---------------------------------------------------------------------- */
  /* The update is an override by a map that does not depend on the old one */
  /* ---------------------------------------------------------------------- */

  lemma OverrideUpdate<K, V>(d: map<K, V>, x: map<K, V>, k: K, v: V)
    ensures (d + x)[k := v] == d + x[k := v]
  {
  }

  /** toDefinition(d + e, t) leaves d's entries to be overridden just as toDefinition(e, t) does. */
  lemma {:induction false} DefineOverride(mapTypes: map<string, Kind>, d: map<string, Schema>, e: map<string, Schema>, t: TypeDesc)
    requires Definable(mapTypes, t)
    ensures Define(mapTypes, d + e, t) == d + Define(mapTypes, e, t)
    decreases t, 2, 0
  {
    DefineFieldsOverride(mapTypes, d, e, t, 0);
    OverrideUpdate(d, DefineFields(mapTypes, e, t, 0), t.name, DefinitionOf(mapTypes, t));
  }

  lemma {:induction false} DefineFieldsOverride(mapTypes: map<string, Kind>, d: map<string, Schema>, e: map<string, Schema>, t: TypeDesc, i: nat)
    requires Definable(mapTypes, t) && i <= |t.fields|
    ensures DefineFields(mapTypes, d + e, t, i) == d + DefineFields(mapTypes, e, t, i)
    decreases t, 1, |t.fields| - i
  {
    if i < |t.fields| {
      var f := t.fields[i];
      assert FieldDefinable(mapTypes, f);
      DefineFieldOverride(mapTypes, d, e, f);
      DefineFieldsOverride(mapTypes, d, DefineField(mapTypes, e, f), t, i + 1);
    }
  }

  lemma {:induction false} DefineFieldOverride(mapTypes: map<string, Kind>, d: map<string, Schema>, e: map<string, Schema>, f: Field)
    requires FieldDefinable(mapTypes, f)
    ensures DefineField(mapTypes, d + e, f) == d + DefineField(mapTypes, e, f)
    decreases f.typ, 4, 0
  {
    if f.typ.kind == Struct {
      DefineOverride(mapTypes, d, e, f.typ);
      ElemDefinitionOverride(mapTypes, d, Define(mapTypes, e, f.typ), f);
    } else {
      ElemDefinitionOverride(mapTypes, d, e, f);
    }
  }

  lemma {:induction false} ElemDefinitionOverride(mapTypes: map<string, Kind>, d: map<string, Schema>, e: map<string, Schema>, f: Field)
    requires FieldDefinable(mapTypes, f)
    ensures ElemDefinition(mapTypes, d + e, f) == d + ElemDefinition(mapTypes, e, f)
    decreases f.typ, 3, 0
  {
    if NeedsElemDefinition(mapTypes, f.typ) {
      DefineOverride(mapTypes, d, e, f.typ.elem.value);
    }
  }

  /* ---------------------------------------------------------------------- */
  /* The keys it writes                                                     */
  /* ---------------------------------------------------------------------- */

  /** toDefinition adds exactly the names the walk reaches. */
  lemma {:induction false} DefineKeys(mapTypes: map<string, Kind>, d: map<string, Schema>, t: TypeDesc)
    requires Definable(mapTypes, t)
    ensures Define(mapTypes, d, t).Keys == d.Keys + Reached(mapTypes, t)
    decreases t, 2, 0
  {
    DefineFieldsKeys(mapTypes, d, t, 0);
  }

  lemma {:induction false} DefineFieldsKeys(mapTypes: map<string, Kind>, d: map<string, Schema>, t: TypeDesc, i: nat)
    requires Definable(mapTypes, t) && i <= |t.fields|
    ensures DefineFields(mapTypes, d, t, i).Keys == d.Keys + ReachedFields(mapTypes, t, i)
    decreases t, 1, |t.fields| - i
  {
    if i < |t.fields| {
      var f := t.fields[i];
      assert FieldDefinable(mapTypes, f);
      DefineFieldKeys(mapTypes, d, f);
      DefineFieldsKeys(mapTypes, DefineField(mapTypes, d, f), t, i + 1);
    }
  }

  lemma {:induction false} DefineFieldKeys(mapTypes: map<string, Kind>, d: map<string, Schema>, f: Field)
    requires FieldDefinable(mapTypes, f)
    ensures DefineField(mapTypes, d, f).Keys == d.Keys + ReachedField(mapTypes, f)
    decreases f.typ, 4, 0
  {
    var d1 := if f.typ.kind == Struct then Define(mapTypes, d, f.typ) else d;
    if f.typ.kind == Struct {
      DefineKeys(mapTypes, d, f.typ);
    }
    if NeedsElemDefinition(mapTypes, f.typ) {
      DefineKeys(mapTypes, d1, f.typ.elem.value);
    }
  }

  /* ---------------------------------------------------------------------- */
  /* The properties toDefinition promises                                   */
  /* ---------------------------------------------------------------------- */

  /**
   The frame of toDefinition(d, t): a key is present afterwards exactly when
   it was before or the walk reached it; keys it does not reach keep their
   old entries; and what it writes does not depend on what `d` held (there is
   no "already defined" check: every reached name is rebuilt and overwritten).
   */
  lemma DefineFrame(mapTypes: map<string, Kind>, d: map<string, Schema>, t: TypeDesc)
    requires Definable(mapTypes, t)
    ensures forall k :: k in Define(mapTypes, d, t) <==> k in d || k in Reached(mapTypes, t)
    ensures forall k :: k in d && k !in Reached(mapTypes, t) ==> Define(mapTypes, d, t)[k] == d[k]
    ensures Define(mapTypes, map[], t).Keys == Reached(mapTypes, t)
    ensures forall k :: k in Reached(mapTypes, t) ==> Define(mapTypes, d, t)[k] == Define(mapTypes, map[], t)[k]
  {
    DefineOverride(mapTypes, d, map[], t);
    assert d + map[] == d;
    DefineKeys(mapTypes, map[], t);
  }

  /** Defining the same type twice leaves the map as defining it once. */
  lemma DefineIdempotent(mapTypes: map<string, Kind>, d: map<string, Schema>, t: TypeDesc)
    requires Definable(mapTypes, t)
    ensures Define(mapTypes, Define(mapTypes, d, t), t) == Define(mapTypes, d, t)
  {
    var w := Define(mapTypes, map[], t);
    DefineOverride(mapTypes, d, map[], t);
    assert d + map[] == d;
    DefineOverride(mapTypes, d + w, map[], t);
    assert (d + w) + map[] == d + w;
    assert (d + w) + w == d + w;
  }

  lemma {:induction false} ReachedFieldsCover(mapTypes: map<string, Kind>, t: TypeDesc, j: nat, i: nat)
    requires Definable(mapTypes, t) && j <= i < |t.fields|
    ensures FieldDefinable(mapTypes, t.fields[i])
    ensures ReachedField(mapTypes, t.fields[i]) <= ReachedFields(mapTypes, t, j)
    decreases i - j
  {
    if j < i {
      ReachedFieldsCover(mapTypes, t, j + 1, i);
    }
  }

  /**
   After toDefinition(d, t), the type itself, the type of every struct-kind
   field and the element of every slice that swaggerMapTypes does not know
   are defined.
   */
  lemma NestedDefined(mapTypes: map<string, Kind>, d: map<string, Schema>, t: TypeDesc)
    requires Definable(mapTypes, t)
    ensures t.name in Define(mapTypes, d, t)
    ensures forall i :: 0 <= i < |t.fields| && t.fields[i].typ.kind == Struct ==>
      t.fields[i].typ.name in Define(mapTypes, d, t)
    ensures forall i :: 0 <= i < |t.fields| && NeedsElemDefinition(mapTypes, t.fields[i].typ) ==>
      FieldDefinable(mapTypes, t.fields[i]) && t.fields[i].typ.elem.value.name in Define(mapTypes, d, t)
  {
    var keys := Define(mapTypes, d, t).Keys;
    DefineKeys(mapTypes, d, t);
    assert keys == d.Keys + Reached(mapTypes, t);
    forall i | 0 <= i < |t.fields|
      ensures t.fields[i].typ.kind == Struct ==> t.fields[i].typ.name in keys
      ensures NeedsElemDefinition(mapTypes, t.fields[i].typ) ==>
        FieldDefinable(mapTypes, t.fields[i]) && t.fields[i].typ.elem.value.name in keys
    {
      var f := t.fields[i];
      ReachedFieldsCover(mapTypes, t, 0, i);
      assert ReachedField(mapTypes, f) <= Reached(mapTypes, t);
      if f.typ.kind == Struct {
        assert f.typ.name in Reached(mapTypes, f.typ);
      }
      if NeedsElemDefinition(mapTypes, f.typ) {
        assert f.typ.elem.value.name in Reached(mapTypes, f.typ.elem.value);
      }
    }
  }
}
