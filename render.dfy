/**
 The route renderer of parse.go as pure functions: path parameters
 (parsePathParameters), query and body parameters (parseQueryOrBody), the
 single `200` response, the method slot of the path item, and the whole
 effect of renderRouter on the builder's state. Module Builder runs the
 same steps in place and is proved equal to RenderRouterSpec.
 */
module Render {
  import opened Wrappers
  import opened GoStrings
  import opened Reflect
  import opened SwaggerTypes
  import opened Walker
  import opened Routers

  /* ---------------------------------------------------------------------- */
  /* Path parameters                                                        */
  /* ---------------------------------------------------------------------- */

  /**
   The parameter parsePathParameters emits for a segment holding ':': its
   name is the segment with one leading ':' trimmed, it is a required string
   in the path, and it is described (quotes trimmed) only when the route's
   Properties hold a non-empty text for that name.
   */
  function PathParameter(part: string, router: Router): (p: Parameter)
    requires ':' in part
    ensures HasPrefix(part, ":") ==> ":" + p.name == part
    ensures !HasPrefix(part, ":") ==> p.name == part
    ensures p.location == "path" && p.required && p.typ == "string" && p.schema == None
    ensures Lookup(router.properties, p.name) == "" ==> p.description == ""
    ensures Lookup(router.properties, p.name) != "" ==> p.description == Trim(Lookup(router.properties, p.name), '"')
  {
    var key := TrimPrefix(part, ":");
    var prop := Lookup(router.properties, key);
    Parameter(key, "path", true, "string", if prop != "" then Trim(prop, '"') else "", None)
  }

  /**
   parsePathParameters(part, path, parameters, router): the list extended by
   one path parameter when `part` holds ':'. The brace rewrite of `path` it
   performs only changes its own copy of the string and is not modelled.
   */
  function ParsePathParameters(part: string, parameters: seq<Parameter>, router: Router): seq<Parameter>
  {
    if ':' in part then parameters + [PathParameter(part, router)] else parameters
  }

  /**
   parsePathParameters only appends: the list it is given comes back as a
   prefix, and it grows by exactly one, the segment's path parameter,
   exactly when the segment holds ':'.
   */
  lemma ParsePathParametersSpec(part: string, parameters: seq<Parameter>, router: Router)
    ensures var r := ParsePathParameters(part, parameters, router);
      && |parameters| <= |r| && r[..|parameters|] == parameters
      && (|r| == |parameters| + 1 <==> ':' in part)
      && (|r| == |parameters| <==> ':' !in part)
      && (':' in part ==> r[|parameters|] == PathParameter(part, router) && r[|parameters|].location == "path")
  {
  }

  /** The parameters renderRouter's loop has collected from segments `segs`. */
  function PathParams(segs: seq<string>, router: Router): seq<Parameter>
  {
    if segs == [] then []
    else ParsePathParameters(segs[|segs| - 1], PathParams(segs[..|segs| - 1], router), router)
  }

  /** The segments that hold ':', in order. */
  function ParamSegments(segs: seq<string>): (r: seq<string>)
    ensures forall k :: 0 <= k < |r| ==> ':' in r[k]
  {
    if segs == [] then []
    else if ':' in segs[0] then [segs[0]] + ParamSegments(segs[1..])
    else ParamSegments(segs[1..])
  }

  /** Parameters of consecutive segment lists come out in the same order. */
  lemma {:induction false} PathParamsAppend(a: seq<string>, b: seq<string>, router: Router)
    ensures PathParams(a + b, router) == PathParams(a, router) + PathParams(b, router)
    decreases |b|
  {
    if b != [] {
      var b' := b[..|b| - 1];
      assert (a + b)[..|a + b| - 1] == a + b';
      assert (a + b)[|a + b| - 1] == b[|b| - 1];
      PathParamsAppend(a, b', router);
      var x, y := PathParams(a, router), PathParams(b', router);
      var last := b[|b| - 1];
      assert PathParams(a + b, router) == ParsePathParameters(last, x + y, router);
      assert PathParams(b, router) == ParsePathParameters(last, y, router);
      if ':' in last {
        assert (x + y) + [PathParameter(last, router)] == x + (y + [PathParameter(last, router)]);
      }
    } else {
      assert a + b == a;
    }
  }

  /**
   One parameter per segment holding ':', in left-to-right order; segments
   without ':' add nothing.
   */
  lemma {:induction false} PathParamsPerSegment(segs: seq<string>, router: Router)
    ensures var ps := PathParams(segs, router);
      var keys := ParamSegments(segs);
      |ps| == |keys| && forall j :: 0 <= j < |ps| ==> ps[j] == PathParameter(keys[j], router)
  {
    if segs != [] {
      var rest := segs[1..];
      PathParamsPerSegment(rest, router);
      assert segs == [segs[0]] + rest;
      PathParamsAppend([segs[0]], rest, router);
      assert [segs[0]][..0] == [];
      var ps, tail := PathParams(segs, router), PathParams(rest, router);
      if ':' in segs[0] {
        assert ps == [PathParameter(segs[0], router)] + tail;
        assert ParamSegments(segs) == [segs[0]] + ParamSegments(rest);
      } else {
        assert ps == tail;
        assert ParamSegments(segs) == ParamSegments(rest);
      }
    }
  }

  /* ---------------------------------------------------------------------- */
  /* Query and body parameters; the full parameter list                     */
  /* ---------------------------------------------------------------------- */

  /** typeName(a): "" for nil, else the type's name. */
  function TypeName(a: Option<TypeDesc>): string
  {
    if a.None? then "" else a.value.name
  }

  /** parseQueryOrBody(a, name): a required parameter named and placed `name`, a `$ref` to a's type. */
  function QueryOrBodyParameter(t: TypeDesc, name: string): Parameter
  {
    Parameter(name, name, true, "", "", Some(SchemaOf(SchemaCore("", "", DefRef(t.name), None))))
  }

  /**
   A non-empty typeName only comes from a set value, so the nil test that
   renderRouter makes beside its length test never decides anything.
   */
  lemma TypeNameSet(a: Option<TypeDesc>)
    ensures TypeName(a) != "" ==> a.Some? && TypeName(a) == a.value.name
    ensures a.None? ==> TypeName(a) == ""
  {
  }

  /**
   The parameter parseQueryOrBody builds is named and placed by `name`, is
   required, has no type or description of its own, and its schema is a
   `$ref` whose target is the type's definition; it is the one reference
   renderRouter records for it.
   */
  lemma QueryOrBodyShape(t: TypeDesc, name: string)
    ensures var p := QueryOrBodyParameter(t, name);
      && p == Parameter(name, name, true, "", "", Some(SchemaOf(SchemaCore("", "", DefRef(t.name), None))))
      && p.name == name && p.location == name && p.required
      && p.typ == "" && p.description == ""
      && p.schema.Some? && p.schema.value.core == SchemaCore("", "", DefRef(t.name), None)
      && p.schema.value.properties == None
      && ParamRef(p) == {DefRef(t.name)}
      && HasPrefix(p.schema.value.core.ref, DefinitionsPrefix)
      && p.schema.value.core.ref[|DefinitionsPrefix|..] == t.name
  {
    DefRefTarget(t.name);
  }

  /** A parameter list extended by a `query` parameter when Query is set, then a `body` parameter when Body is set. */
  function WithPayloads(pp: seq<Parameter>, query: Option<TypeDesc>, body: Option<TypeDesc>): seq<Parameter>
  {
    var withQuery := if query.Some? then pp + [QueryOrBodyParameter(query.value, "query")] else pp;
    if body.Some? then withQuery + [QueryOrBodyParameter(body.value, "body")] else withQuery
  }

  /**
   The parameter list of the operation renderRouter builds: the path
   parameters, then the query and body parameters.
   */
  function Parameters(router: Router): seq<Parameter>
  {
    WithPayloads(PathParams(Split(router.path, '/'), router), router.query, router.body)
  }

  /**
   The parameter list: first the path parameters, then one required `query`
   parameter when Query is set, then one required `body` parameter when Body
   is set, each a `$ref` to its type's definition.
   */
  lemma ParametersLayout(router: Router)
    ensures var ps := Parameters(router);
      var pp := PathParams(Split(router.path, '/'), router);
      var q := if router.query.Some? then 1 else 0;
      var b := if router.body.Some? then 1 else 0;
      && |ps| == |pp| + q + b
      && ps[..|pp|] == pp
      && (forall j :: 0 <= j < |pp| ==> ps[j].location == "path" && ps[j].schema == None)
      && (router.query.Some? ==>
            ps[|pp|] == Parameter("query", "query", true, "", "",
                                  Some(SchemaOf(SchemaCore("", "", DefRef(router.query.value.name), None)))))
      && (router.body.Some? ==>
            ps[|pp| + q] == Parameter("body", "body", true, "", "",
                                      Some(SchemaOf(SchemaCore("", "", DefRef(router.body.value.name), None)))))
  {
    var segs := Split(router.path, '/');
    PathParamsPerSegment(segs, router);
  }

  /** The reference renderRouter records for one parameter: its schema's `$ref`, when set. */
  function ParamRef(p: Parameter): set<string>
  {
    if p.schema.Some? && p.schema.value.core.ref != "" then {p.schema.value.core.ref} else {}
  }

  /** The references recorded for a parameter list, in list order. */
  function ParamRefs(params: seq<Parameter>): set<string>
  {
    if params == [] then {} else ParamRefs(params[..|params| - 1]) + ParamRef(params[|params| - 1])
  }

  /** A reference is recorded exactly when some parameter's schema carries it. */
  lemma {:induction false} ParamRefsMembers(params: seq<Parameter>)
    ensures forall x :: x in ParamRefs(params) <==>
      exists k :: 0 <= k < |params| && x in ParamRef(params[k])
  {
    if params != [] {
      var n := |params| - 1;
      ParamRefsMembers(params[..n]);
      forall x ensures x in ParamRefs(params) <==> exists k :: 0 <= k < |params| && x in ParamRef(params[k]) {
        if x in ParamRefs(params[..n]) {
          var k :| 0 <= k < n && x in ParamRef(params[..n][k]);
          assert x in ParamRef(params[k]);
        }
        if exists k :: 0 <= k < |params| && x in ParamRef(params[k]) {
          var k :| 0 <= k < |params| && x in ParamRef(params[k]);
          if k < n {
            assert x in ParamRef(params[..n][k]);
          }
        }
      }
    }
  }

  lemma ParamRefsSnoc(ps: seq<Parameter>, p: Parameter)
    ensures ParamRefs(ps + [p]) == ParamRefs(ps) + ParamRef(p)
  {
    assert (ps + [p])[..|ps|] == ps;
  }

  /** Path parameters carry no schema, so they contribute no reference. */
  lemma {:induction false} PathParamsNoRefs(segs: seq<string>, router: Router)
    ensures ParamRefs(PathParams(segs, router)) == {}
  {
    if segs != [] {
      var n := |segs| - 1;
      PathParamsNoRefs(segs[..n], router);
      if ':' in segs[n] {
        ParamRefsSnoc(PathParams(segs[..n], router), PathParameter(segs[n], router));
      }
    }
  }

  /** Appending the query and body parameters adds their two references. */
  lemma WithPayloadsRefs(pp: seq<Parameter>, query: Option<TypeDesc>, body: Option<TypeDesc>)
    ensures ParamRefs(WithPayloads(pp, query, body)) == ParamRefs(pp) +
      (if query.Some? then {DefRef(query.value.name)} else {}) +
      (if body.Some? then {DefRef(body.value.name)} else {})
  {
    var withQuery := if query.Some? then pp + [QueryOrBodyParameter(query.value, "query")] else pp;
    if query.Some? {
      ParamRefsSnoc(pp, QueryOrBodyParameter(query.value, "query"));
    }
    if body.Some? {
      ParamRefsSnoc(withQuery, QueryOrBodyParameter(body.value, "body"));
    }
  }

  /** Only the query and body parameters contribute references. */
  lemma ParametersRefs(router: Router)
    ensures ParamRefs(Parameters(router)) ==
      (if router.query.Some? then {DefRef(router.query.value.name)} else {}) +
      (if router.body.Some? then {DefRef(router.body.value.name)} else {})
  {
    PathParamsNoRefs(Split(router.path, '/'), router);
    WithPayloadsRefs(PathParams(Split(router.path, '/'), router), router.query, router.body);
  }

  /* ---------------------------------------------------------------------- */
  /* The 200 response                                                       */
  /* ---------------------------------------------------------------------- */

  const SuccessDescription := "A successful response."

  /** The schema core of the `200` response. */
  function ResponseCore(router: Router): SchemaCore
  {
    var name := TypeName(router.responseType);
    if router.responseType.Some? && |name| > 0 then
      if HasPrefix(name, "[]") then
        SchemaCore("array", "", "", Some(SchemaCore("", "", DefRef(RemoveFirst(RemoveFirst(name, '['), ']')), None)))
      else SchemaCore("", "", DefRef(name), None)
    else EmptyCore
  }

  /**
   No response type (or an unnamed one) gives an empty schema; a name
   starting with "[]" gives an array whose items refer to the name without
   that "[]"; any other name gives a plain `$ref`.
   */
  lemma ResponseCoreCases(router: Router)
    ensures var name := TypeName(router.responseType);
      && (name == "" ==> ResponseCore(router) == EmptyCore)
      && (name != "" && HasPrefix(name, "[]") ==>
            ResponseCore(router) == SchemaCore("array", "", "", Some(SchemaCore("", "", DefRef(name[2..]), None))))
      && (name != "" && !HasPrefix(name, "[]") ==> ResponseCore(router) == SchemaCore("", "", DefRef(name), None))
  {
    var name := TypeName(router.responseType);
    if name != "" && HasPrefix(name, "[]") {
      assert RemoveFirst(name, '[') == name[1..];
      assert name[1..][0] == ']';
      assert RemoveFirst(name[1..], ']') == name[1..][1..];
      assert name[1..][1..] == name[2..];
    }
  }

  /** The operation renderRouter files under the route's method. */
  function OperationOf(router: Router, params: seq<Parameter>): Operation
  {
    Operation(router.tags, router.summary, router.description, params,
              map["200" := Response(SuccessDescription, SchemaOf(ResponseCore(router)))])
  }

  /**
   The operation carries the route's tags, summary and description, the
   parameter list, and a single response, `200`, described as "A successful
   response." with the response schema.
   */
  lemma OperationResponse(router: Router, params: seq<Parameter>)
    ensures var op := OperationOf(router, params);
      && op.tags == router.tags && op.summary == router.summary && op.description == router.description
      && op.parameters == params
      && op.responses.Keys == {"200"}
      && op.responses["200"].description == "A successful response."
      && op.responses["200"].schema == SchemaOf(ResponseCore(router))
  {
  }

  /* ---------------------------------------------------------------------- */
  /* The method slot                                                        */
  /* ---------------------------------------------------------------------- */

  /** The methods that have a slot in a path item. */
  const SlotMethods := ["GET", "POST", "DELETE", "PUT", "PATCH"]

  /** The slot of `item` for an upper-case method name. */
  function Slot(item: PathItem, m: string): Option<Operation>
  {
    if m == "GET" then item.get
    else if m == "POST" then item.post
    else if m == "DELETE" then item.delete
    else if m == "PUT" then item.put
    else if m == "PATCH" then item.patch
    else None
  }

  /**
   The switch on ToUpper(httpMethod): the matching slot takes `op`, every other
   slot keeps its operation, and a method without a slot changes nothing.
   */
  function MergeMethod(item: PathItem, httpMethod: string, op: Operation): (r: PathItem)
    ensures forall m :: m in SlotMethods ==>
      Slot(r, m) == if m == ToUpper(httpMethod) then Some(op) else Slot(item, m)
    ensures ToUpper(httpMethod) !in SlotMethods ==> r == item
  {
    var m := ToUpper(httpMethod);
    if m == "GET" then item.(get := Some(op))
    else if m == "POST" then item.(post := Some(op))
    else if m == "DELETE" then item.(delete := Some(op))
    else if m == "PUT" then item.(put := Some(op))
    else if m == "PATCH" then item.(patch := Some(op))
    else item
  }

  /* ---------------------------------------------------------------------- */
  /* The whole of renderRouter                                              */
  /* ---------------------------------------------------------------------- */

  /** The three collections renderRouter updates. */
  datatype BuildState = BuildState(
    paths: map<string, PathItem>,
    definitions: map<string, Schema>,
    refs: set<string>)

  const EmptyState := BuildState(map[], map[], {})

  /** renderRouter panics on no payload: each one set is a struct toDefinition can walk. */
  predicate RouterDefinable(mapTypes: map<string, Kind>, router: Router)
  {
    && (router.body.Some? ==> Definable(mapTypes, router.body.value))
    && (router.query.Some? ==> Definable(mapTypes, router.query.value))
    && (router.responseType.Some? ==> Definable(mapTypes, router.responseType.value))
  }

  /** renderReplyAsDefinition: Body, then Query, then ResponseType are defined. */
  function ReplyDefinitions(mapTypes: map<string, Kind>, d: map<string, Schema>, router: Router): (r: map<string, Schema>)
    requires RouterDefinable(mapTypes, router)
    ensures d.Keys <= r.Keys
    ensures router.body.Some? ==> router.body.value.name in r
    ensures router.query.Some? ==> router.query.value.name in r
    ensures router.responseType.Some? ==> router.responseType.value.name in r
  {
    var d1 := if router.body.Some? then Define(mapTypes, d, router.body.value) else d;
    var d2 := if router.query.Some? then Define(mapTypes, d1, router.query.value) else d1;
    if router.responseType.Some? then Define(mapTypes, d2, router.responseType.value) else d2
  }

  /** The names of the payload types (Body, Query, ResponseType) one route declares. */
  function PayloadNames(router: Router): set<string>
  {
    (if router.body.Some? then {router.body.value.name} else {}) +
    (if router.query.Some? then {router.query.value.name} else {}) +
    (if router.responseType.Some? then {router.responseType.value.name} else {})
  }

  /** renderReplyAsDefinition keeps every definition and adds those of the payload types. */
  lemma ReplyDefinesPayloads(mapTypes: map<string, Kind>, d: map<string, Schema>, router: Router)
    requires RouterDefinable(mapTypes, router)
    ensures d.Keys + PayloadNames(router) <= ReplyDefinitions(mapTypes, d, router).Keys
  {
  }

  /** The path item renderRouter files under `router.path`. */
  function RenderedItem(paths: map<string, PathItem>, router: Router): PathItem
  {
    var item := if router.path in paths then paths[router.path] else EmptyPathItem;
    MergeMethod(item, router.httpMethod, OperationOf(router, Parameters(router)))
  }

  /** The state after renderRouter(paths, definitions, refs, router). */
  function RenderRouterSpec(mapTypes: map<string, Kind>, st: BuildState, router: Router): BuildState
    requires RouterDefinable(mapTypes, router)
  {
    BuildState(
      st.paths[router.path := RenderedItem(st.paths, router)],
      ReplyDefinitions(mapTypes, st.definitions, router),
      st.refs + ParamRefs(Parameters(router)))
  }

  /** renderRouter files its route under `router.path` and removes no path. */
  lemma RenderRouterPathKeys(mapTypes: map<string, Kind>, st: BuildState, router: Router)
    requires RouterDefinable(mapTypes, router)
    ensures RenderRouterSpec(mapTypes, st, router).paths.Keys == st.paths.Keys + {router.path}
  {
  }

  /**
   The paths map changes at `router.path` only (the template as written, not
   a brace form), and there the method's slot holds the new operation while
   the other slots keep what an earlier route filed.
   */
  lemma RenderRouterPaths(mapTypes: map<string, Kind>, st: BuildState, router: Router)
    requires RouterDefinable(mapTypes, router)
    ensures var after := RenderRouterSpec(mapTypes, st, router).paths;
      var before := if router.path in st.paths then st.paths[router.path] else EmptyPathItem;
      var op := OperationOf(router, Parameters(router));
      && after.Keys == st.paths.Keys + {router.path}
      && (forall p :: p in st.paths && p != router.path ==> after[p] == st.paths[p])
      && (forall m :: m in SlotMethods ==>
            Slot(after[router.path], m) == if m == ToUpper(router.httpMethod) then Some(op) else Slot(before, m))
      && (ToUpper(router.httpMethod) !in SlotMethods ==> after[router.path] == before)
  {
  }

  /** Every recorded reference names a definition. */
  predicate RefsResolved(st: BuildState)
  {
    forall x :: x in st.refs ==> HasPrefix(x, DefinitionsPrefix) && x[|DefinitionsPrefix|..] in st.definitions
  }

  lemma DefRefTarget(name: string)
    ensures HasPrefix(DefRef(name), DefinitionsPrefix) && DefRef(name)[|DefinitionsPrefix|..] == name
  {
  }

  /**
   The whole effect of renderRouter on the three collections: the paths map
   gains the route's path, no definition is dropped and the payload types are
   defined, and exactly the `$ref`s of the query and body parameters are
   added to the recorded references.
   */
  lemma RenderRouterEffect(mapTypes: map<string, Kind>, st: BuildState, router: Router)
    requires RouterDefinable(mapTypes, router)
    ensures var r := RenderRouterSpec(mapTypes, st, router);
      && r.paths.Keys == st.paths.Keys + {router.path}
      && st.definitions.Keys + PayloadNames(router) <= r.definitions.Keys
      && r.refs == st.refs +
           (if router.query.Some? then {DefRef(router.query.value.name)} else {}) +
           (if router.body.Some? then {DefRef(router.body.value.name)} else {})
  {
    RenderRouterPathKeys(mapTypes, st, router);
    ReplyDefinesPayloads(mapTypes, st.definitions, router);
    ParametersRefs(router);
  }

  /** renderRouter only records references to types it has just defined. */
  lemma RenderRouterRefsResolved(mapTypes: map<string, Kind>, st: BuildState, router: Router)
    requires RouterDefinable(mapTypes, router) && RefsResolved(st)
    ensures RefsResolved(RenderRouterSpec(mapTypes, st, router))
  {
    ParametersRefs(router);
    if router.query.Some? { DefRefTarget(router.query.value.name); }
    if router.body.Some? { DefRefTarget(router.body.value.name); }
  }
}
