# async-hyper-router: a Dafny model of `HyperRouter`

`HyperRouter` is a small request router for the hyper HTTP library. It keeps
an ordered list of routes. Each route holds a request method, a
regular-expression path pattern and a handler. Eight builder methods (`get`,
`post`, `put`, `patch`, `delete`, `options`, `head`, `trace`) each append one
route. `find_handler(method, path)` works in two passes. First it keeps only
the routes of the request method, and answers `NotImplemented` if none are
left. Then it returns the handler of the first of those routes whose pattern
matches the path, in registration order, or `NotFound`.

The model has two files:

- `router.dfy` (module `Router`) holds the data model and the operations.
  - `Method`, `Route`, `Status` and `Result` are the data model.
  - `MethodRoutes`, `Find` and `Resolve` are pure functions. `Resolve` is
    `find_handler` as a function of the route list.
  - Class `HyperRouter` has a `seq<Route<H>>` field, and its builder methods
    append to it in place.
  - `HyperRouter.FindHandler` is the two-pass algorithm written with loops. It
    is proved equal to `Resolve`.
  - The lemmas characterise each of the three outcomes, first-match
    precedence, method isolation and the effect of registering one more
    route.
- `scenarios.dfy` (module `RouterScenarios`) holds the crate's usage-example
  router and concrete lookups against small route lists.

Choices the model makes:

- **Regular-expression engine.** It is a parameter,
  `matches: (string, string) -> bool`. `matches(pattern, path)` stands for
  compiling `pattern` and running `is_match` on `path`. The crate's `is_match`
  is an unanchored search. No property depends on the engine, so none assumes
  anchored matching. Scenarios that need a particular match state it as a
  precondition.
- **Handlers.** They are values of a type parameter `H`. The router never
  calls them.
- **Methods.** `Method` has the eight registrable verbs plus `Other(name)`.
  `Other` covers every method a request can carry that no builder method
  registers. `find_handler` accepts those (src/lib.rs:180).
- **`Route.verb`.** It stands for the Rust field `method`, which is a keyword
  in Dafny.

Facts about the code that the model relies on:

- Matching is the `regex` crate's unanchored `is_match` search. No property
  assumes anchored matching.
- The router has no freeze step. It is built by the chained builder and then
  only read.
- The usage example in the crate documentation calls `find_handler(&req)` with
  one argument (src/lib.rs:64). The method itself takes a method and a path
  (src/lib.rs:180), and the model follows that signature.

## Model

| member | source | states |
|---|---|---|
| `Router.MethodRoutes` | src/lib.rs:181-182 | the filter keeps no more routes than there are, and every route it keeps has the request method |
| `Router.MethodRoutesEmpty` | src/lib.rs:181-184 | the filtered list is empty if and only if no registered route has the request method |
| `Router.MethodRoutesKeeps` | src/lib.rs:181-182 | the filter drops no route of the request method: every route with that method is kept |
| `Router.MethodRoutesAppend` | src/lib.rs:181-182 | filtering by method distributes over concatenation, so it keeps registration order |
| `Router.MethodRoutesIdempotent` | src/lib.rs:181-182 | filtering twice by the same method gives the same routes as filtering once |
| `Router.Find` | src/lib.rs:187-188 | `find` yields the first position whose pattern matches the path (every earlier one fails), or nothing when no pattern matches |
| `Router.Resolve` | src/lib.rs:180-191 | `find_handler`: filter the routes by method, answer `NotImplemented` when none are left, otherwise the handler of the first one whose pattern matches, or `NotFound`; its contract says an `Ok` names the earliest route with the method and a matching pattern, and an error never hides a route that would have served the request. `ResolveNotImplemented`, `ResolveNotFound` and `ResolveOk` characterise its three outcomes in both directions |
| `Router.FindFirst` | src/lib.rs:187-188 | conversely, a matching position with no matching position before it is the one `find` yields |
| `Router.FindAfterFilterNone` | src/lib.rs:181-190 | no route of method m matches the path if and only if no route of the whole list has method m and a matching pattern |
| `Router.FindAfterFilterSome` | src/lib.rs:181-189 | when a route of method m matches, the one `find` picks is the earliest route of the whole list with method m and a matching pattern: the two passes agree with one scan in registration order |
| `Router.ResolveNotImplemented` | src/lib.rs:181-186 | `find_handler` gives `Err(NotImplemented)` if and only if no registered route has the request method, whatever the path |
| `Router.ResolveNotFound` | src/lib.rs:184-190 | `Err(NotFound)` if and only if some route has the request method and none of those routes' patterns matches the path |
| `Router.ResolveOk` | src/lib.rs:187-189 | `Ok(h)` if and only if h is the handler of the earliest route, in registration order, with the request method and a matching pattern |
| `Router.ResolveShadowed` | src/lib.rs:187-189 | once an earlier route with the request method matches, the answer is `Ok` and removing any later route does not change it: later duplicates or overlaps are never returned |
| `Router.ResolveIsolated` | src/lib.rs:181-182 | the answer depends only on the routes of the request method: resolving against those routes alone gives the same result |
| `Router.ResolveAppend` | src/lib.rs:115-191 | appending a route of another method never changes the answer; appending one of the same method keeps an earlier `Ok`, and otherwise answers with the new route if its pattern matches and `NotFound` if not |
| `Router.ResolveUnregistrable` | src/lib.rs:180-186 | on a route list whose methods are all registrable, a method no builder registers always gets `Err(NotImplemented)` |
| `Router.BuiltRouterUnregistrable` | src/lib.rs:112-186 | on any router built by `new` and the builder methods, a method no builder registers always gets `Err(NotImplemented)` |
| `Router.HyperRouter.constructor` | src/lib.rs:112-114 | `new` gives a router with no routes |
| `Router.HyperRouter.Add` | src/lib.rs:115-178 | appends exactly one route with the given method, pattern and handler; earlier routes are unchanged and in order; returns the same router |
| `Router.HyperRouter.Get` | src/lib.rs:115-122 | appends one GET route with the given pattern and handler at the end; nothing else changes; returns the router |
| `Router.HyperRouter.Post` | src/lib.rs:123-130 | appends one POST route at the end; nothing else changes; returns the router |
| `Router.HyperRouter.Put` | src/lib.rs:131-138 | appends one PUT route at the end; nothing else changes; returns the router |
| `Router.HyperRouter.Patch` | src/lib.rs:139-146 | appends one PATCH route at the end; nothing else changes; returns the router |
| `Router.HyperRouter.Delete` | src/lib.rs:147-154 | appends one DELETE route at the end; nothing else changes; returns the router |
| `Router.HyperRouter.Options` | src/lib.rs:155-162 | appends one OPTIONS route at the end; nothing else changes; returns the router |
| `Router.HyperRouter.Head` | src/lib.rs:163-170 | appends one HEAD route at the end; nothing else changes; returns the router |
| `Router.HyperRouter.Trace` | src/lib.rs:171-178 | appends one TRACE route at the end; nothing else changes; returns the router |
| `Router.HyperRouter.FindHandler` | src/lib.rs:180-191 | the two-pass lookup (collect the routes of the method, then scan them in order) returns exactly `Resolve`'s answer and modifies nothing |
| `RouterScenarios.HelloRouter` | src/lib.rs:36-40 | chaining `new().get("/hello_get", …).post("/hello_post", …)` gives exactly those two routes in that order |
| `RouterScenarios.HelloGet` | src/lib.rs:180-189 | with only a GET route, GET on its path finds its handler and POST on that path is `NotImplemented` |
| `RouterScenarios.HelloPost` | src/lib.rs:180-190 | GET on the POST route's path is `NotFound`, POST finds its handler, and PUT is `NotImplemented` |
| `RouterScenarios.UserRoutes` | src/lib.rs:187-189 | with `/user/[0-9]+` before `/user/new`, a numeric id resolves to the first route and `/user/new` to the second |
| `RouterScenarios.UnanchoredShadowing` | src/lib.rs:187-189 | an earlier GET `/hello`, which an unanchored search matches inside `/hello_get`, shadows a later GET `/hello_get` |

## Left out

- Pattern compilation (src/lib.rs:91-97) is not modelled. The regular-expression engine is the abstract `matches` parameter. Its syntax and search semantics belong to the `regex` crate.
- The panic on an invalid pattern (src/lib.rs:95) is not modelled. Every builder method accepts any pattern string, so a router with an invalid pattern is not ruled out.
- Router.HyperRouter.Add: the Rust builder methods take the router by value (`mut self`) and hand it back. The model mutates one shared object and returns the same reference, so the move of ownership is not captured.
- `Method` collapses hyper's CONNECT and extension methods into `Other(name)`. Only whether the builder can register a method matters to the router.
- Handlers are opaque values. The router never calls them. Hyper's `Request` and `Response` types are not modelled.
- Mapping `NotImplemented` and `NotFound` to HTTP 501 and 404 responses is the host server's job and is not modelled.
- The usage example's server (src/lib.rs:17-81) is not modelled: the TCP binding, the `Service` implementation and the `lazy_static` sharing are I/O and process plumbing. Only the router it builds appears, as `RouterScenarios.HelloRouter`.
- Concurrent lookups on the shared router are not modelled. The model is single-threaded. `FindHandler` has no `modifies` clause, so it cannot change the router.
