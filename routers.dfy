/**
 The route declarations the builder reads (swgin.go): a route, a group of
 routes under a common path, and the registry holding both. Gin handlers
 are not part of this model.
 */
module Routers {
  import opened Wrappers
  import opened Reflect

  /**
   Router. A Go `any` payload (Query, Body, ResponseType) is the descriptor of
   its dynamic type, None for nil.
   */
  datatype Router = Router(
    path: string,
    httpMethod: string,
    summary: string,
    description: string,
    tags: seq<string>,
    query: Option<TypeDesc>,
    body: Option<TypeDesc>,
    responseType: Option<TypeDesc>,
    properties: map<string, string>)

  /** RouterGroup */
  datatype RouterGroup = RouterGroup(path: string, routers: seq<Router>)

  /** Swgin, without its gin engine. */
  datatype Swgin = Swgin(
    title: string,
    version: string,
    description: string,
    host: string,
    basePath: string,
    groups: seq<RouterGroup>,
    routers: seq<Router>)

  /** Indexing a Go `map[string]string`: a missing key (or a nil map) reads as "". */
  function Lookup(m: map<string, string>, key: string): string
  {
    if key in m then m[key] else ""
  }
}
