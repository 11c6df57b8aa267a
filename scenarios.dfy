/**
 Concrete routers and the answers `find_handler` gives for them. Each fact
 about the regular-expression engine a scenario relies on is a precondition on
 `matches`, so the scenarios hold for whatever engine satisfies them.
 */
module RouterScenarios {
  import opened Router

  /** The router of the crate's usage example, built by chained registration:
      GET "/hello_get" and then POST "/hello_post". */
  method HelloRouter<H>(getHandler: H, postHandler: H) returns (router: HyperRouter<H>)
    ensures fresh(router) && router.Valid()
    ensures router.routes == [Route(Get, "/hello_get", getHandler), Route(Post, "/hello_post", postHandler)]
  {
    router := new HyperRouter();
    router := router.Get("/hello_get", getHandler);
    router := router.Post("/hello_post", postHandler);
  }

  /** With only a GET route, a POST request for the same path is not
      implemented, while the GET request finds the handler. */
  lemma HelloGet<H>(h: H, matches: (string, string) -> bool)
    requires matches("/hello_get", "/hello_get")
    ensures Resolve([Route(Get, "/hello_get", h)], Get, "/hello_get", matches) == Ok(h)
    ensures Resolve([Route(Get, "/hello_get", h)], Post, "/hello_get", matches) == Err(NotImplemented)
  {
  }

  /** A GET request for the POST route's path: GET routes exist, none matches,
      so the answer is NotFound rather than NotImplemented. */
  lemma HelloPost<H>(h1: H, h2: H, matches: (string, string) -> bool)
    requires !matches("/hello_get", "/hello_post")
    requires matches("/hello_post", "/hello_post")
    ensures var routes := [Route(Get, "/hello_get", h1), Route(Post, "/hello_post", h2)];
            && Resolve(routes, Get, "/hello_post", matches) == Err(NotFound)
            && Resolve(routes, Post, "/hello_post", matches) == Ok(h2)
            && Resolve(routes, Put, "/hello_post", matches) == Err(NotImplemented)
  {
    var routes := [Route(Get, "/hello_get", h1), Route(Post, "/hello_post", h2)];
    ResolveNotFound(routes, Get, "/hello_post", matches);
    ResolveOk(routes, Post, "/hello_post", matches, h2);
    assert FirstApplying(routes, Post, "/hello_post", matches, 1);
    ResolveNotImplemented(routes, Put, "/hello_post", matches);
  }

  /** GET "/user/[0-9]+" registered before GET "/user/new": a numeric id goes to
      the first route; "/user/new" has no digit, so the first pattern does not
      match it and the second route answers. */
  lemma UserRoutes<H>(h1: H, h2: H, matches: (string, string) -> bool)
    requires matches("/user/[0-9]+", "/user/42")
    requires !matches("/user/[0-9]+", "/user/new")
    requires matches("/user/new", "/user/new")
    ensures var routes := [Route(Get, "/user/[0-9]+", h1), Route(Get, "/user/new", h2)];
            && Resolve(routes, Get, "/user/42", matches) == Ok(h1)
            && Resolve(routes, Get, "/user/new", matches) == Ok(h2)
  {
    var routes := [Route(Get, "/user/[0-9]+", h1), Route(Get, "/user/new", h2)];
    ResolveOk(routes, Get, "/user/42", matches, h1);
    assert FirstApplying(routes, Get, "/user/42", matches, 0);
    ResolveOk(routes, Get, "/user/new", matches, h2);
    assert FirstApplying(routes, Get, "/user/new", matches, 1);
  }

  /** Matching is an unanchored search, so GET "/hello" also matches
      "/hello_get"; registered first, it shadows a later GET "/hello_get". */
  lemma UnanchoredShadowing<H>(h1: H, h2: H, matches: (string, string) -> bool)
    requires matches("/hello", "/hello_get")
    ensures Resolve([Route(Get, "/hello", h1), Route(Get, "/hello_get", h2)], Get, "/hello_get", matches) == Ok(h1)
  {
  }
}
