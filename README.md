# swgin document builder, modelled in Dafny

swgin turns the route declarations of a gin web service into a Swagger
(OpenAPI 2.0) document. Each route has a path template, an HTTP method, tags,
a summary and a description. It may also carry Query, Body and ResponseType
payloads and a map of extra properties. Routes are declared one by one or in
groups that share a path prefix. `parse` builds the document in four steps:

- It sets up a fixed document skeleton.
- It renders every standalone route, then every group route with the group's
  path prefixed.
- For each route, it defines the payload types in a name-keyed `definitions`
  map by walking their struct fields. It builds the parameter list (path,
  then query, then body) and the single `200` response. It files the
  operation under the route's method slot in the path item for the route's
  path.
- It records every parameter `$ref` in a reference set.

The project has these modules:

- `Wrappers`: `Option`.
- `GoStrings`: the `strings` functions the builder calls, on `seq<char>`,
  with their properties.
  - Functions: `HasPrefix`, `TrimPrefix`, `Replace(..., 1)` (`RemoveFirst`)
    and `Replace(..., -1)` (`RemoveAll`), `Split`, `Trim`, ASCII `ToUpper`.
- `Reflect`: the part of `reflect` the builder reads.
  - `Kind` (all 27 kinds, with `Kind.String()`).
  - `TypeDesc`: kind, name, struct fields with their tags, slice element.
  - Struct tags as maps.
- `SwaggerTypes`: the `swagger*Object` types, restricted to the fields the
  builder writes.
- `Walker`: `primitiveSchema`, `schemaOfField` and `toDefinition` as pure
  specification functions.
  - `Define` is the definitions map after `toDefinition(d, t)`.
    `DefinitionOf` is the schema it stores.
  - `ElemDefinition` is what `schemaOfField` adds to the map.
- `Registry`: what `toDefinition` does to the definitions map. The lemmas
  cover the stored schema, the frame, idempotence and nested definitions.
- `Routers`: the `Router`, `RouterGroup` and `Swgin` declarations.
- `Render`: `renderRouter` as a function on the builder state
  (`RenderRouterSpec`), with its parameter list, response, method merge and
  references.
- `Assemble`: `renderRouters` as a fold of `RenderRouterSpec` over the
  effective route list (`RenderSeq`), with the lemmas about ordering, group
  prefixes, path keys, payload definitions and references.
- `Builder`: the imperative code.
  - Class `Builder` holds the three collections `parse` shares between the
    calls: `paths`, `definitions` and `refs`.
  - Its methods run the loops of `toDefinition`, `schemaOfField`,
    `renderRouter` and `renderRouters` in place.
  - Each method is proved to leave the state as the specification function
    says.
  - `Contains`, `CollectPathParameters` and `Parse` sit beside the class.

`swaggerMapTypes` is the parameter `mapTypes: map<string, Kind>`. A missing
key reads as `Invalid`, Go's zero value.

`toDefinition` calls `NumField`, which panics on a non-struct. That panic
becomes the precondition `Definable`:
- the walked type is a struct;
- so is every type the walk hands to `toDefinition`, namely struct-kind
  fields and the elements of slices that `swaggerMapTypes` does not know.

`SwginDefinable` lifts `Definable` to every payload of every declared route.

## Model

| member | source | states |
|---|---|---|
| Walker.PrimitiveSchemaTable | parse.go:333-364 | `PrimitiveSchema`, the model of primitiveSchema, answers `ok` exactly for the twelve tabled kinds and `Slice`. For a tabled kind it returns the table's pair: `Int` gives `int32`, `Uint16` gives the misspelt `uin16`, and `Int32`/`Uint32` are absent. `Slice` gives the name with every `[]` removed and format "". Any other kind gives ("", "", false). |
| Walker.FieldSchemaShape | parse.go:230-330 | `FieldSchema`, built from `FieldCore`, `SliceCore` and `WrapCore`, is the schema of a field. It has the `comment` tag as its description, an empty title and no properties. A non-slice, non-Invalid kind gives the primitive pair, or `{type: kind.String(), format: "UNKNOWN"}`. In particular a struct field gives `struct`/`UNKNOWN`, not a `$ref`. A slice is wrapped as exactly `{type: array, items: core}`, with no format or `$ref` on the wrapper. Its items `$ref` the element by name exactly when swaggerMapTypes does not know the slice's name without `[]`. Otherwise its items are the primitive pair of the kind swaggerMapTypes gives, or `{type: slice, format: UNKNOWN}`. |
| Walker.InvalidFieldSchema | parse.go:240-269 | For an `Invalid`-kind field, `InvalidCore` works on the name with its first '[', ']', '*', '{' and '}' removed. "interface" and "mapstringstring" give `{type: object}`. A name still starting with "[]" gives an array of the primitive pair of the rest, or of `{type: invalid, format: UNKNOWN}`. Any other name gives a `$ref` to it. The second switch (parse.go:303-317) wraps that core in an array exactly when the original name starts with "[]". |
| Walker.UnknownSliceNeedsStruct | parse.go:270-277 | A slice field whose name without `[]` swaggerMapTypes does not know sends its element to toDefinition, so the walk only succeeds when that element is a struct. |
| Walker.StringSliceFieldNotDefinable | parse.go:270-277 | An unnamed `[]string` field has the empty name. Unless swaggerMapTypes has the key "", a struct holding such a field cannot be walked. |
| Walker.Define | parse.go:190-228 | toDefinition never removes a key and always writes the type's own name. |
| Walker.DefineStores | parse.go:226-227 | The entry under `t.name` afterwards is `DefinitionOf(t)`, whatever the map held before. |
| Walker.EntryAt | parse.go:212-218 | Entry `i` of the property list is the (field name, field schema) pair of field `i`; later fields do not change it. |
| Walker.RequiredExactly | parse.go:220-222 | A name is in the required list exactly when some field with that name has tag `required` equal to "true". |
| Walker.RequiredNoDuplicates | parse.go:220-222 | The `contains` guard keeps every name in the required list at most once. |
| Walker.RequiredInFieldOrder | parse.go:207-224 | The required list only grows by appending, in field order: each earlier list is a prefix of each later one. |
| Registry.DefinitionOfShape | parse.go:190-228 | The stored definition is titled with the type's name, has no description and has type "object". It has one property per field, in field order, keyed by the field name and valued by the field's schema. Properties stay nil when there are no fields. The required list is `RequiredNames` over all the fields: exactly the required fields, without duplicates, in field order. |
| Registry.DefineOverride | parse.go:190-228 | Defining on `d + e` gives `d` overridden by what defining on `e` gives. So what toDefinition writes never depends on the old entries. |
| Registry.DefineKeys | parse.go:190-228 | Defining adds exactly the names the walk reaches: the type, its struct-kind fields' types, and the elements of unknown slices, recursively. |
| Registry.DefineFrame | parse.go:190-228 | A key is present afterwards exactly when it was before or was reached. Unreached keys keep their entries. Reached keys get the same value as when defining on an empty map, so there is no "already defined" check. |
| Registry.DefineIdempotent | parse.go:190-228 | Defining the same type twice gives the same map as defining it once. |
| Registry.NestedDefined | parse.go:208-212 | After toDefinition these are all defined: the type, the type of every struct-kind field, and the element of every slice field that swaggerMapTypes does not know. |
| Render.PathParameter | parse.go:146-163 | For a segment holding ':', the parameter is named by the segment with one leading ':' trimmed. It sits in "path", is required, has type "string" and has no schema. Its description is the route property for that name with '"' trimmed when that property is non-empty, and "" otherwise. |
| Render.ParsePathParametersSpec | parse.go:145-167 | `ParsePathParameters` only appends. The list it is given stays a prefix, and it grows by exactly one element, the segment's path parameter, exactly when the segment holds ':'. |
| Render.TypeNameSet | parse.go:169-174 | `TypeName` is "" for nil, and a non-empty name always comes from a set value. So the nil test beside the length test at parse.go:79 never decides anything. |
| Render.QueryOrBodyShape | parse.go:126-143 | `QueryOrBodyParameter` is the whole parameter: named and placed by `name`, required, with no type or description. Its schema is `SchemaOf` the core, so it has no title, description, properties or required list. Its core is a `$ref` "#/definitions/" + the type's name, which is the one reference recorded for it. |
| Render.PathParamsPerSegment | parse.go:59-62 | The loop emits one parameter per '/'-segment holding ':', in segment order. Other segments add nothing. |
| Render.PathParamsAppend | parse.go:59-62 | The parameters of consecutive segment lists come out concatenated, in order. |
| Render.ParametersLayout | parse.go:56-69 | The parameter list is the path parameters, then one `query` parameter when Query is set, then one `body` parameter when Body is set. Each of those two is named and placed by that word, required, and has the schema `$ref` "#/definitions/" + the type name. |
| Render.ParametersRefs | parse.go:104-108 | The references recorded for a route are exactly the `$ref`s of its query and body parameters. Path parameters record none. |
| Render.ParamRefsMembers | parse.go:104-108 | A reference is recorded exactly when some parameter's schema carries it as a non-empty `$ref`. |
| Render.WithPayloadsRefs | parse.go:64-69 | Appending the query and body parameters adds their two `$ref`s to the references. |
| Render.PathParamsNoRefs | parse.go:150-155 | Path parameters carry no schema and so contribute no reference. |
| Render.ResponseCoreCases | parse.go:76-90 | `ResponseCore`: no response type, or an empty type name, gives an empty schema. A name starting with "[]" gives an array whose items `$ref` the name with its first '[' and first ']' removed. Any other name gives a plain `$ref`. |
| Render.OperationResponse | parse.go:91-110 | `OperationOf`, the operation, carries the route's tags, summary, description and parameter list. Its only response is `200`, described as "A successful response." with the response schema. |
| Render.MergeMethod | parse.go:111-122 | The slot of ToUpper(method) takes the new operation and every other slot keeps its operation. A method other than GET, POST, DELETE, PUT and PATCH leaves the item unchanged. |
| Render.ReplyDefinitions | parse.go:176-188 | renderReplyAsDefinition keeps every key and defines the Body, Query and ResponseType types that are set. |
| Render.RenderRouterPaths | parse.go:71-74 | renderRouter files the item under `router.path` as written (no brace form) and leaves every other path alone. The method's slot holds the new operation; other slots keep what was there or are empty. An unknown method leaves the old (or an empty) item under that key. |
| Render.RenderRouterEffect | parse.go:54-124 | `RenderRouterSpec`, the state after renderRouter, has the old path keys plus `router.path`. It keeps every definition key and defines the payload types. Its references are the old ones plus exactly the `$ref`s of the query and body payloads. |
| Render.RenderRouterRefsResolved | parse.go:54-124 | Every reference renderRouter records names a definition present afterwards, because it defines each payload before referring to it. |
| Assemble.Prefixed | parse.go:44-50 | A group contributes one copy per declared route, in order. Each copy differs from its route only in the path, which gets the group's path in front. |
| Assemble.StandaloneBeforeGroups | parse.go:38-52 | `EffectiveRoutes`: renderRouters renders all standalone routers, in order, before any group route. |
| Assemble.GroupRoutesAt | parse.go:44-51 | In `GroupRoutes`, route `j` of group `i` sits right after the routes of groups `0..i-1`, at offset `j`. It is a copy whose path is the group's path followed by the route's own path. |
| Assemble.GroupRoutesFrom | parse.go:44-51 | Every group route rendered is such a prefixed copy of a declared route. |
| Assemble.RenderSeqAppend | parse.go:38-52 | `RenderSeq` is a fold: rendering a run of routes and then another is rendering their concatenation. |
| Assemble.RenderSeqPathKeys | parse.go:38-52 | After a run of routes, the paths map is keyed by its old keys plus the paths of those routes, and nothing else. |
| Assemble.RenderSeqHasPath | parse.go:123 | Every rendered route's path is a key of the paths map afterwards. |
| Assemble.GroupRoutePath | parse.go:46-49 | For every declared group route, group path + route path is a key of the document's paths. |
| Assemble.RenderSeqRefsResolved | parse.go:38-52 | Over any run of routes, every recorded reference keeps naming a definition. |
| Assemble.SamePathMerge | parse.go:71-74 | Two routes on one path with GET then POST both end up in the one path item. GET twice keeps only the later operation. |
| Assemble.RenderSeqDefinesPayloads | parse.go:176-188 | Definitions are never removed, and every payload type of every rendered route is defined afterwards. |
| Assemble.ParseFromEmpty | parse.go:10-36 | Starting from empty maps, the document's paths are keyed by exactly the effective route paths. Every payload type is defined, and every recorded `$ref` names a definition. |
| GoStrings.RemoveFirstSpec | parse.go:82-83 | `strings.Replace(s, c, "", 1)` removes exactly the first occurrence of `c`, and returns `s` when there is none. |
| GoStrings.RemoveAllSpec | parse.go:360 | `strings.Replace(s, "[]", "", -1)` never lengthens its input and returns `s` when the pattern does not occur. |
| GoStrings.RemoveAllLeftmost | parse.go:360 | The leftmost occurrence is removed, the text before it is kept unchanged, and the pass resumes right after it. The result is not free of the pattern: `"[[]]"` becomes `"[]"`. |
| GoStrings.RemoveAllLength | parse.go:360 | The pass deletes whole copies of the pattern. The input is longer than the result by the pattern's length times the number of copies deleted, so the difference is a multiple of the pattern's length. |
| GoStrings.SplitJoin | parse.go:59 | Joining the `strings.Split` pieces with the separator gives the path back. |
| GoStrings.SplitPieces | parse.go:59 | No piece of `strings.Split` holds the separator. |
| GoStrings.TrimSpec | parse.go:160 | `strings.Trim(prop, "\"")` keeps a slice of `prop` that neither starts nor ends with '"'. Everything it cuts off is '"'. |
| GoStrings.TrimLeftSpec | parse.go:160 | The left cut is a run of the trim character, and what remains does not start with it. |
| GoStrings.TrimRightSpec | parse.go:160 | The right cut is a run of the trim character, and what remains does not end with it. |
| GoStrings.ToUpperSpec | parse.go:111 | ToUpper keeps the length, maps each character on its own and leaves no lower-case ASCII letter. |
| Builder.Contains | parse.go:366-374 | `contains(s, str)` is true exactly when `str` is an element of `s`. |
| Builder.CollectPathParameters | parse.go:59-62 | The loop over the '/'-split path leaves the parameter list `PathParams` describes; PathParamsPerSegment states its shape. |
| Builder.Builder.constructor | parse.go:16-17 | A builder starts with empty paths, definitions and references. |
| Builder.Builder.ToDefinition | parse.go:190-228 | The definitions field becomes `Define(old definitions, t)`, carrying every Registry and Walker property above. |
| Builder.Builder.AddMember | parse.go:208-223 | One round of the field loop. It walks field `i`, appends its entry to the property list and extends the required list. The invariants tie the accumulators to `Entries` and `RequiredNames`. |
| Builder.Builder.WalkField | parse.go:209-214 | A struct-kind field's type is defined first, then the field's schema is built. It returns `FieldSchema` and leaves `DefineField` in the map. |
| Builder.Builder.SchemaOfField | parse.go:230-330 | It returns `FieldSchema(member)` and leaves `ElemDefinition` in the map: the element of an unknown slice is defined. |
| Builder.Builder.RenderReplyAsDefinition | parse.go:176-188 | The definitions become `ReplyDefinitions(old definitions, router)`. |
| Builder.Builder.RecordRefs | parse.go:104-108 | The reference set grows by exactly `ParamRefs(parameters)`. |
| Builder.Builder.RenderRouter | parse.go:54-124 | The state becomes `RenderRouterSpec(old state, router)`. |
| Builder.Builder.RenderRouters | parse.go:38-52 | The state becomes `RenderSeq(old state, standalone routers ++ prefixed group routes)`. |
| Builder.Builder.RenderEach | parse.go:39-42 | The standalone loop renders the routers in order. |
| Builder.Builder.RenderGroups | parse.go:44-51 | The group loop renders each group's prefixed routes, group after group. |
| Builder.Builder.RenderGroup | parse.go:46-50 | The inner loop renders a prefixed copy of each route of the group. The declared routes are values and stay unchanged. |
| Builder.Parse | parse.go:10-36 | The document has swagger "2.0", schemes http and https, JSON consumes and produces, and the declared info. Host and basePath are copied when non-empty. StreamDefinitions is empty. The paths and definitions are those `RenderSeq` builds from empty maps over the effective routes. ParseFromEmpty states their properties. |

## Left out

- swgin.go `New`, `Router`, `Group` and `router` register gin handlers, which is a foreign library. Only the declaration shapes of `Swgin`, `RouterGroup` and `Router` (swgin.go:8-19, 76-96) are modelled; handlers are dropped.
- `reflect` is replaced by the `TypeDesc` datatype. A type's name is whatever its descriptor says, so `Name()` returning "" for unnamed types is the descriptor's business. Recursive types cannot be described, which the builder does not support either.
- The panic of `NumField` on a non-struct (parse.go:208) is a precondition (`Definable`, `RouterDefinable`, `SwginDefinable`), not a modelled failure.
- The `fmt.Println` warning at parse.go:319 is console output and is left out.
- JSON serialisation and the file holding `swagger*Object` and `swaggerMapTypes` are not part of this model. Only the fields the builder writes are mirrored, and `swaggerMapTypes` is a parameter.
- `StreamDefinitions` is created empty and never used. It is `map[]` in the document.
- The brace rewrite at parse.go:148 assigns to a local copy of the path and is never read. The model does not compute it, and the paths key stays `router.Path`.
- The reference set `requestResponseRefs` is built and then dropped by `parse`. The builder keeps it in its `refs` field, but it is not part of the document.
- GoStrings.ToUpper: ASCII letters only. Go's Unicode case mapping of other letters is not modelled.
- GoStrings.RemoveAll: only `strings.Replace(s, pat, "", -1)` with a non-empty pattern is modelled, since the builder only calls it with "[]".

Behaviour worth noting, which the model follows:

- `toDefinition` has no "already defined" check. It rebuilds and overwrites every reached name (DefineFrame, DefineIdempotent).
- A struct-kind field gives `{type: "struct", format: "UNKNOWN"}`, not a `$ref`. Likewise `Map`, `Ptr` and `Interface` kinds give their kind name with format `UNKNOWN`; only an `Invalid` kind named `interface` or `mapstringstring` (after the name surgery) becomes `{type: "object"}`.
- The paths key is the template as written. The `:name` to `{name}` rewrite never reaches the document.
- An HTTP method without a slot changes no slot, but the path item is still filed under the path.

Observations about the source, from the proofs (not executed):

- An unnamed slice such as `[]string` has the empty name. parse.go:273 then reads `swaggerMapTypes[""]`, and unless that key exists parse.go:276 calls toDefinition on `string`, whose `NumField` panics (StringSliceFieldNotDefinable). So `Definable` excludes structs with such fields, which are common.
- The "[]" branch of the response schema (parse.go:80-86) cannot be reached. renderReplyAsDefinition walks ResponseType first, which panics unless it is a struct (`RouterDefinable`), and a Go struct's name never starts with "[]". The model keeps the branch as written (ResponseCoreCases), since `TypeDesc` names are arbitrary.
