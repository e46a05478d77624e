/**
 The builder as parse.go runs it: the paths, definitions and reference maps
 are shared and updated in place by toDefinition, schemaOfField,
 renderReplyAsDefinition, renderRouter and renderRouters. Here they are the
 fields of one Builder object, and each method is proved to leave them as
 the specification functions of modules Walker, Render and Assemble say.
 */
module Builder {
  import opened Wrappers
  import opened GoStrings
  import opened Reflect
  import opened SwaggerTypes
  import opened Walker
  import opened Routers
  import opened Render
  import opened Assemble

  /** contains(s, str): whether `str` is an element of `s`. */
  method Contains(s: seq<string>, str: string) returns (found: bool)
    ensures found <==> str in s
  {
    for i := 0 to |s|
      invariant str !in s[..i]
    {
      if s[i] == str {
        return true;
      }
    }
    return false;
  }

  /**
   The segment loop of renderRouter: the route's path split at '/', each
   segment handed to parsePathParameters in turn.
   */
  method CollectPathParameters(router: Router) returns (parameters: seq<Parameter>)
    ensures parameters == PathParams(Split(router.path, '/'), router)
  {
    parameters := [];
    var pathPairs := Split(router.path, '/');
    for i := 0 to |pathPairs|
      invariant parameters == PathParams(pathPairs[..i], router)
    {
      assert pathPairs[..i + 1][..i] == pathPairs[..i];
      parameters := ParsePathParameters(pathPairs[i], parameters, router);
    }
    assert pathPairs[..|pathPairs|] == pathPairs;
  }

  class Builder {
    /** The package-level swaggerMapTypes table. */
    const mapTypes: map<string, Kind>
    var paths: map<string, PathItem>
    var definitions: map<string, Schema>
    /** requestResponseRefs: a refMap used as a set. */
    var refs: set<string>

    function State(): BuildState
      reads this
    {
      BuildState(paths, definitions, refs)
    }

    /** Fresh, empty maps, as parse makes them. */
    constructor(mapTypes: map<string, Kind>)
      ensures this.mapTypes == mapTypes
      ensures State() == EmptyState
    {
      this.mapTypes := mapTypes;
      paths := map[];
      definitions := map[];
      refs := {};
    }

    /** toDefinition(d, t) */
    method ToDefinition(t: TypeDesc)
      requires Definable(mapTypes, t)
      modifies this`definitions
      ensures definitions == Define(mapTypes, old(definitions), t)
      decreases t, 2, 0
    {
      DefinableElemsKnown(mapTypes, t);
      ghost var d0 := definitions;
      var properties: Option<seq<KeyVal>> := None;
      var required: seq<string> := [];
      for i := 0 to |t.fields|
        invariant DefineFields(mapTypes, definitions, t, i) == DefineFields(mapTypes, d0, t, 0)
        invariant properties == if i == 0 then None else Some(Entries(mapTypes, t, i))
        invariant required == RequiredNames(t, i)
      {
        properties, required := AddMember(t, i, properties, required);
      }
      definitions := definitions[t.name := Schema(SchemaCore("object", "", "", None), t.name, "", properties, required)];
    }

    /**
     One round of toDefinition's loop over the fields of `t`: the i-th field
     is walked and its entry appended to the properties; its name joins the
     required list when tagged `required:"true"` and not already there.
     */
    method AddMember(t: TypeDesc, i: nat, properties: Option<seq<KeyVal>>, required: seq<string>)
      returns (properties': Option<seq<KeyVal>>, required': seq<string>)
      requires Definable(mapTypes, t) && ElemsKnown(mapTypes, t) && i < |t.fields|
      requires properties == if i == 0 then None else Some(Entries(mapTypes, t, i))
      requires required == RequiredNames(t, i)
      modifies this`definitions
      ensures DefineFields(mapTypes, old(definitions), t, i) == DefineFields(mapTypes, definitions, t, i + 1)
      ensures properties' == Some(Entries(mapTypes, t, i + 1))
      ensures required' == RequiredNames(t, i + 1)
      decreases t, 1, 0
    {
      var member := t.fields[i];
      assert FieldDefinable(mapTypes, member);
      ghost var d0 := definitions;
      var value := WalkField(member);
      assert DefineFields(mapTypes, d0, t, i) == DefineFields(mapTypes, DefineField(mapTypes, d0, member), t, i + 1);
      var kv := KeyVal(member.name, value);
      assert kv == FieldEntry(mapTypes, member);
      var props := if properties.None? then [] else properties.value;
      properties' := Some(props + [kv]);
      required' := required;
      if TagGet(member.tag, "required") == "true" {
        var present := Contains(required, member.name);
        if !present {
          required' := required + [member.name];
        }
      }
    }

    /**
     One round of toDefinition's loop before the entry is appended: a
     struct-kind field's type is defined, then the field's schema is built.
     */
    method WalkField(member: Field) returns (value: Schema)
      requires FieldDefinable(mapTypes, member)
      modifies this`definitions
      ensures value == FieldSchema(mapTypes, member)
      ensures definitions == DefineField(mapTypes, old(definitions), member)
      decreases member.typ, 3, 0
    {
      if member.typ.kind == Struct {
        ToDefinition(member.typ);
      }
      value := SchemaOfField(member);
    }

    /** schemaOfField(member, d) */
    method SchemaOfField(member: Field) returns (ret: Schema)
      requires FieldDefinable(mapTypes, member)
      modifies this`definitions
      ensures ret == FieldSchema(mapTypes, member)
      ensures definitions == ElemDefinition(mapTypes, old(definitions), member)
      decreases member.typ, 1, 0
    {
      var core: SchemaCore;
      var kind := member.typ.kind;
      var comment := TagGet(member.tag, "comment");
      if kind == Invalid {
        core := InvalidCore(mapTypes, member.typ.name);
      } else if kind == Slice {
        var tempKind := SliceElemKind(mapTypes, member.typ);
        if tempKind == Invalid {
          var elem := member.typ.elem.value;
          core := SchemaCore("", elem.name, DefRef(elem.name), None);
          ToDefinition(elem);
        } else {
          core := PrimitiveOrUnknown(tempKind, Slice, member.typ.name);
        }
      } else {
        core := PrimitiveOrUnknown(kind, kind, member.typ.name);
      }
      ret := Schema(WrapCore(member.typ, core), "", comment, None, []);
    }

    /** renderReplyAsDefinition(d, router, refs): Body, then Query, then ResponseType. */
    method RenderReplyAsDefinition(router: Router)
      requires RouterDefinable(mapTypes, router)
      modifies this`definitions
      ensures definitions == ReplyDefinitions(mapTypes, old(definitions), router)
    {
      if router.body.Some? {
        ToDefinition(router.body.value);
      }
      if router.query.Some? {
        ToDefinition(router.query.value);
      }
      if router.responseType.Some? {
        ToDefinition(router.responseType.value);
      }
    }

    /** The reference loop of renderRouter: each parameter's `$ref`, when set, is recorded. */
    method RecordRefs(parameters: seq<Parameter>)
      modifies this`refs
      ensures refs == old(refs) + ParamRefs(parameters)
    {
      for j := 0 to |parameters|
        invariant refs == old(refs) + ParamRefs(parameters[..j])
      {
        var param := parameters[j];
        assert parameters[..j + 1][..j] == parameters[..j];
        if param.schema.Some? && param.schema.value.core.ref != "" {
          refs := refs + {param.schema.value.core.ref};
        }
      }
      assert parameters[..|parameters|] == parameters;
    }

    /** renderRouter(paths, definitions, refs, router) */
    method RenderRouter(router: Router)
      requires RouterDefinable(mapTypes, router)
      modifies this
      ensures State() == RenderRouterSpec(mapTypes, old(State()), router)
    {
      RenderReplyAsDefinition(router);
      var path := router.path;
      var parameters := CollectPathParameters(router);

      if router.query.Some? {
        parameters := parameters + [QueryOrBodyParameter(router.query.value, "query")];
      }
      if router.body.Some? {
        parameters := parameters + [QueryOrBodyParameter(router.body.value, "body")];
      }
      var pathItem := if path in paths then paths[path] else EmptyPathItem;
      var op := Operation(router.tags, "", "", parameters,
                          map["200" := Response(SuccessDescription, SchemaOf(ResponseCore(router)))]);
      RecordRefs(op.parameters);
      op := op.(summary := router.summary, description := router.description);
      pathItem := MergeMethod(pathItem, router.httpMethod, op);
      paths := paths[path := pathItem];
    }

    /** renderRouters(paths, definitions, refs, sg): standalone routers, then each group's routes. */
    method RenderRouters(sg: Swgin)
      requires SwginDefinable(mapTypes, sg)
      modifies this
      ensures EffectiveRoutesDefinableHolds(mapTypes, sg)
      ensures State() == RenderSeq(mapTypes, old(State()), EffectiveRoutes(sg))
    {
      StandaloneBeforeGroups(mapTypes, State(), sg);
      RenderEach(sg.routers);
      RenderGroups(sg.groups);
    }

    /** The first loop of renderRouters: each standalone router in turn. */
    method RenderEach(routers: seq<Router>)
      requires forall k :: 0 <= k < |routers| ==> RouterDefinable(mapTypes, routers[k])
      modifies this
      ensures State() == RenderSeq(mapTypes, old(State()), routers)
    {
      for i := 0 to |routers|
        invariant State() == RenderSeq(mapTypes, old(State()), routers[..i])
      {
        assert routers[..i + 1][..i] == routers[..i];
        RenderRouter(routers[i]);
      }
      assert routers[..|routers|] == routers;
    }

    /** The second loop of renderRouters: each group in turn. */
    method RenderGroups(groups: seq<RouterGroup>)
      requires forall i, j :: 0 <= i < |groups| && 0 <= j < |groups[i].routers| ==>
        RouterDefinable(mapTypes, groups[i].routers[j])
      modifies this
      ensures forall k :: 0 <= k < |GroupRoutes(groups)| ==> RouterDefinable(mapTypes, GroupRoutes(groups)[k])
      ensures State() == RenderSeq(mapTypes, old(State()), GroupRoutes(groups))
    {
      for i := 0 to |groups|
        invariant forall k :: 0 <= k < |GroupRoutes(groups[..i])| ==>
          RouterDefinable(mapTypes, GroupRoutes(groups[..i])[k])
        invariant State() == RenderSeq(mapTypes, old(State()), GroupRoutes(groups[..i]))
      {
        assert groups[..i + 1][..i] == groups[..i];
        GroupRoutesStep(mapTypes, old(State()), groups[..i + 1], i);
        RenderGroup(groups[i]);
      }
      assert groups[..|groups|] == groups;
    }

    /** The inner loop of renderRouters: each route of `group`, its path prefixed by the group's. */
    method RenderGroup(group: RouterGroup)
      requires forall j :: 0 <= j < |group.routers| ==> RouterDefinable(mapTypes, group.routers[j])
      modifies this
      ensures forall j :: 0 <= j < |Prefixed(group)| ==> RouterDefinable(mapTypes, Prefixed(group)[j])
      ensures State() == RenderSeq(mapTypes, old(State()), Prefixed(group))
    {
      ghost var routes := Prefixed(group);
      assert forall j :: 0 <= j < |routes| ==> RouterDefinable(mapTypes, routes[j]);
      for j := 0 to |group.routers|
        invariant State() == RenderSeq(mapTypes, old(State()), routes[..j])
      {
        var router := group.routers[j];
        router := router.(path := group.path + router.path);
        assert router == routes[j];
        assert routes[..j + 1][..j] == routes[..j];
        RenderRouter(router);
      }
      assert routes[..|routes|] == routes;
    }
  }

  /**
   parse(sg): the fixed document skeleton with the declared info, host and
   base path, and the paths and definitions renderRouters builds from empty
   maps. The reference set is built and then dropped.
   */
  method Parse(mapTypes: map<string, Kind>, sg: Swgin) returns (doc: SwaggerObject)
    requires SwginDefinable(mapTypes, sg)
    ensures EffectiveRoutesDefinableHolds(mapTypes, sg)
    ensures doc.swagger == "2.0"
    ensures doc.schemes == ["http", "https"]
    ensures doc.consumes == ["application/json"] && doc.produces == ["application/json"]
    ensures doc.info == Info(sg.title, sg.version, sg.description)
    ensures doc.host == sg.host && doc.basePath == sg.basePath
    ensures doc.streamDefinitions == map[]
    ensures doc.paths == RenderSeq(mapTypes, EmptyState, EffectiveRoutes(sg)).paths
    ensures doc.definitions == RenderSeq(mapTypes, EmptyState, EffectiveRoutes(sg)).definitions
  {
    var b := new Builder(mapTypes);
    var host := if |sg.host| > 0 then sg.host else "";
    var basePath := if |sg.basePath| > 0 then sg.basePath else "";
    b.RenderRouters(sg);
    doc := SwaggerObject("2.0", ["http", "https"], ["application/json"], ["application/json"],
                         b.paths, b.definitions, map[],
                         Info(sg.title, sg.version, sg.description), host, basePath);
  }
}
