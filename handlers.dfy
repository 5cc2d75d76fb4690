/** Request handler descriptors of addon/lib/handlers.js: constant records of
    handler type, route path and HTTP method. */
module Handlers {
  import opened Wrappers

  /** The `SolrHandlerType` enumeration. */
  datatype HandlerType = Search | RealTimeGet | Update

  /** The string constant each enumeration member stands for in JavaScript. */
  function TypeName(t: HandlerType): (name: string)
    ensures |name| > |"SolrHandlerType."| && name[..|"SolrHandlerType."|] == "SolrHandlerType."
  {
    match t
    case Search => "SolrHandlerType.Search"
    case RealTimeGet => "SolrHandlerType.RealTimeGet"
    case Update => "SolrHandlerType.Update"
  }

  /** The three constants are distinct, so a handler's type identifies its member. */
  lemma TypeNamesDistinct(a: HandlerType, b: HandlerType)
    ensures TypeName(a) == TypeName(b) <==> a == b
  {
    if a != b {
      // the members' names start with distinct letters
      assert TypeName(a)[|"SolrHandlerType."|] != TypeName(b)[|"SolrHandlerType."|];
    }
  }

  /** `SolrRequestHandler`: a type (null by default), a path (null by default) and an HTTP method. */
  datatype RequestHandler = RequestHandler(handlerType: Option<HandlerType>, path: Option<string>, httpMethod: string)

  /** The base class' defaults. */
  const BaseHandler: RequestHandler := RequestHandler(None, None, "GET")

  /** `SolrSearchHandler` extends the base with type and path. */
  const SearchHandler: RequestHandler := BaseHandler.(handlerType := Some(Search), path := Some("select"))

  /** `SolrRealTimeGetHandler` extends the base with type and path. */
  const RealTimeGetHandler: RequestHandler := BaseHandler.(handlerType := Some(RealTimeGet), path := Some("get"))

  /** `SolrUpdateHandler` extends the base with type, path and the POST method. */
  const UpdateHandler: RequestHandler := BaseHandler.(handlerType := Some(Update), path := Some("update"), httpMethod := "POST")

  lemma HandlerDescriptors()
    ensures BaseHandler.httpMethod == "GET" && BaseHandler.handlerType.None? && BaseHandler.path.None?
    ensures SearchHandler == RequestHandler(Some(Search), Some("select"), "GET")
    ensures RealTimeGetHandler == RequestHandler(Some(RealTimeGet), Some("get"), "GET")
    ensures UpdateHandler == RequestHandler(Some(Update), Some("update"), "POST")
  {
  }
}
