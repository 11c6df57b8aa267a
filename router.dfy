/**
 The request router of async-hyper-router: an ordered list of routes, a
 builder that appends to it, and `find_handler`, which resolves a request
 method and path to the handler of the first applicable route.

 The regular-expression engine is not modelled. Every operation that consults
 it takes `matches: (string, string) -> bool`, where `matches(pattern, path)`
 stands for compiling `pattern` and running an unanchored `is_match` search on
 `path`. Nothing below assumes anything about that function, so every property
 holds for anchored and unanchored matching alike.
 */
module Router {

  /** Request methods. The builder has one registration method for each of the
      first eight. `Other` stands for every method a request may carry that no
      builder method registers (CONNECT and extension methods); such a method
      can still be looked up. */
  datatype Method = Get | Post | Put | Patch | Delete | Options | Head | Trace | Other(name: string)

  /** The methods the builder can register a route for. */
  predicate Registrable(m: Method) {
    !m.Other?
  }

  /** One registered route. The path pattern is kept as the regular-expression
      text it is compiled from; the handler is an opaque value. */
  datatype Route<H> = Route(verb: Method, pattern: string, handler: H)

  /** The two request-time failures of `find_handler` (HTTP 501 and 404). */
  datatype Status = NotImplemented | NotFound

  datatype Result<H> = Ok(handler: H) | Err(status: Status)

  datatype Option<T> = None | Some(value: T)

  /** Route `r` serves a request with method `m` for `path`. */
  predicate Applies<H>(r: Route<H>, m: Method, path: string, matches: (string, string) -> bool) {
    r.verb == m && matches(r.pattern, path)
  }

  /** `i` is the position of the earliest route in `routes` that serves (m, path). */
  predicate FirstApplying<H>(routes: seq<Route<H>>, m: Method, path: string, matches: (string, string) -> bool, i: int) {
    && 0 <= i < |routes|
    && Applies(routes[i], m, path, matches)
    && forall j :: 0 <= j < i ==> !Applies(routes[j], m, path, matches)
  }

  /** The routes whose method is `m`, in registration order (the `filter` and
      `collect` of `find_handler`). */
  function MethodRoutes<H>(routes: seq<Route<H>>, m: Method): (ms: seq<Route<H>>)
    ensures |ms| <= |routes|
    ensures forall i :: 0 <= i < |ms| ==> ms[i].verb == m
  {
    if routes == [] then []
    else if routes[0].verb == m then [routes[0]] + MethodRoutes(routes[1..], m)
    else MethodRoutes(routes[1..], m)
  }

  /** The position of the first route in `rs` whose pattern matches `path`
      (the `find` of `find_handler`), or None when no pattern matches. */
  function Find<H>(rs: seq<Route<H>>, path: string, matches: (string, string) -> bool): (k: Option<nat>)
    ensures k.Some? ==> k.value < |rs| && matches(rs[k.value].pattern, path)
    ensures k.Some? ==> forall j :: 0 <= j < k.value ==> !matches(rs[j].pattern, path)
    ensures k.None? ==> forall j :: 0 <= j < |rs| ==> !matches(rs[j].pattern, path)
  {
    if rs == [] then None
    else if matches(rs[0].pattern, path) then Some(0)
    else match Find(rs[1..], path, matches)
      case None => None
      case Some(k) => Some(k + 1)
  }

  /** `find_handler`: keep the routes of the request method; with none left the
      method is not implemented; otherwise the handler of the first of them
      whose pattern matches, or NotFound. An answer Ok names the earliest
      route that serves the request, and an error never hides a route that
      would have served it. */
  function Resolve<H>(routes: seq<Route<H>>, m: Method, path: string, matches: (string, string) -> bool): (r: Result<H>)
    ensures r.Ok? ==> exists i :: FirstApplying(routes, m, path, matches, i) && routes[i].handler == r.handler
    ensures r.Err? ==> forall i :: 0 <= i < |routes| ==> !Applies(routes[i], m, path, matches)
  {
    var ms := MethodRoutes(routes, m);
    FindAfterFilterNone(routes, m, path, matches);
    if |ms| == 0 then Err(NotImplemented)
    else match Find(ms, path, matches)
      case Some(k) => FindAfterFilterSome(routes, m, path, matches); Ok(ms[k].handler)
      case None => Err(NotFound)
  }

  /** Conversely, a matching position with no matching position before it is
      the one `find` yields. */
  lemma FindFirst<H>(rs: seq<Route<H>>, path: string, matches: (string, string) -> bool, j: nat)
    requires j < |rs| && matches(rs[j].pattern, path)
    requires forall k :: 0 <= k < j ==> !matches(rs[k].pattern, path)
    ensures Find(rs, path, matches) == Some(j)
  {
  }

  // ---------------------------------------------------------------------------
  // Filtering by method

  lemma {:induction false} MethodRoutesAppend<H>(a: seq<Route<H>>, b: seq<Route<H>>, m: Method)
    ensures MethodRoutes(a + b, m) == MethodRoutes(a, m) + MethodRoutes(b, m)
  {
    if a == [] {
      assert a + b == b;
    } else {
      assert (a + b)[1..] == a[1..] + b;
      MethodRoutesAppend(a[1..], b, m);
    }
  }

  /** The filter keeps nothing exactly when no route has method `m`. */
  lemma {:induction false} MethodRoutesEmpty<H>(routes: seq<Route<H>>, m: Method)
    ensures MethodRoutes(routes, m) == [] <==> forall i :: 0 <= i < |routes| ==> routes[i].verb != m
  {
    if routes != [] {
      MethodRoutesEmpty(routes[1..], m);
      assert forall i :: 1 <= i < |routes| ==> routes[i] == routes[1..][i - 1];
    }
  }

  /** One more step of the filter over a prefix of the route list. */
  lemma MethodRoutesStep<H>(routes: seq<Route<H>>, i: nat, m: Method)
    requires i < |routes|
    ensures MethodRoutes(routes[..i + 1], m)
            == MethodRoutes(routes[..i], m) + if routes[i].verb == m then [routes[i]] else []
  {
    assert routes[..i + 1] == routes[..i] + [routes[i]];
    MethodRoutesAppend(routes[..i], [routes[i]], m);
  }

  /** The filter drops no route of method `m`. */
  lemma {:induction false} MethodRoutesKeeps<H>(routes: seq<Route<H>>, m: Method)
    ensures forall i :: 0 <= i < |routes| && routes[i].verb == m ==> routes[i] in MethodRoutes(routes, m)
  {
    if routes != [] {
      MethodRoutesKeeps(routes[1..], m);
      assert forall i :: 1 <= i < |routes| ==> routes[i] == routes[1..][i - 1];
    }
  }

  /** Filtering twice by the same method changes nothing. */
  lemma {:induction false} MethodRoutesIdempotent<H>(routes: seq<Route<H>>, m: Method)
    ensures MethodRoutes(MethodRoutes(routes, m), m) == MethodRoutes(routes, m)
  {
    if routes != [] {
      MethodRoutesIdempotent(routes[1..], m);
      if routes[0].verb == m {
        var ms := [routes[0]] + MethodRoutes(routes[1..], m);
        assert ms[0] == routes[0] && ms[1..] == MethodRoutes(routes[1..], m);
      }
    }
  }

  /** No route of method `m` matches `path` exactly when no route of the whole
      list serves (m, path). */
  lemma {:induction false} FindAfterFilterNone<H>(routes: seq<Route<H>>, m: Method, path: string, matches: (string, string) -> bool)
    ensures Find(MethodRoutes(routes, m), path, matches).None?
            <==> forall i :: 0 <= i < |routes| ==> !Applies(routes[i], m, path, matches)
  {
    if routes != [] {
      var rest := routes[1..];
      FindAfterFilterNone(rest, m, path, matches);
      var ms := MethodRoutes(routes, m);
      assert forall i :: 1 <= i < |routes| ==> routes[i] == rest[i - 1];
      if routes[0].verb == m {
        assert ms[0] == routes[0] && ms[1..] == MethodRoutes(rest, m);
      }
    }
  }

  /** The first match among the routes of method `m` is the first route of the
      whole list that serves (m, path): the two-pass search of `find_handler`
      agrees with one scan of the registration order. */
  lemma {:induction false} FindAfterFilterSome<H>(routes: seq<Route<H>>, m: Method, path: string, matches: (string, string) -> bool)
    requires Find(MethodRoutes(routes, m), path, matches).Some?
    ensures exists i :: && FirstApplying(routes, m, path, matches, i)
                        && MethodRoutes(routes, m)[Find(MethodRoutes(routes, m), path, matches).value] == routes[i]
  {
    var rest := routes[1..];
    var ms := MethodRoutes(routes, m);
    var k := Find(ms, path, matches).value;
    if Applies(routes[0], m, path, matches) {
      assert k == 0 && ms[0] == routes[0];
      assert FirstApplying(routes, m, path, matches, 0);
    } else {
      var msRest := MethodRoutes(rest, m);
      var kRest := Find(msRest, path, matches);
      if routes[0].verb == m {
        assert ms[1..] == msRest;
        assert kRest == Some(k - 1) && ms[k] == msRest[k - 1];
      } else {
        assert ms == msRest;
      }
      FindAfterFilterSome(rest, m, path, matches);
      var i :| FirstApplying(rest, m, path, matches, i) && msRest[kRest.value] == rest[i];
      assert forall j :: 1 <= j <= i ==> routes[j] == rest[j - 1];
      assert FirstApplying(routes, m, path, matches, i + 1);
    }
  }

  // ---------------------------------------------------------------------------
  // The three outcomes of find_handler

  /** NotImplemented exactly when no route has the request method, whatever the path. */
  lemma ResolveNotImplemented<H>(routes: seq<Route<H>>, m: Method, path: string, matches: (string, string) -> bool)
    ensures Resolve(routes, m, path, matches) == Err(NotImplemented)
            <==> forall i :: 0 <= i < |routes| ==> routes[i].verb != m
  {
    MethodRoutesEmpty(routes, m);
  }

  /** NotFound exactly when some route has the request method but none of
      those routes' patterns matches the path. */
  lemma ResolveNotFound<H>(routes: seq<Route<H>>, m: Method, path: string, matches: (string, string) -> bool)
    ensures Resolve(routes, m, path, matches) == Err(NotFound)
            <==> (exists i :: 0 <= i < |routes| && routes[i].verb == m)
                 && forall i :: 0 <= i < |routes| ==> !Applies(routes[i], m, path, matches)
  {
    ResolveNotImplemented(routes, m, path, matches);
    FindAfterFilterNone(routes, m, path, matches);
  }

  /** First match wins: Ok(h) exactly when `h` is the handler of the earliest
      route, in registration order, whose method is the request method and
      whose pattern matches the path. */
  lemma ResolveOk<H>(routes: seq<Route<H>>, m: Method, path: string, matches: (string, string) -> bool, h: H)
    ensures Resolve(routes, m, path, matches) == Ok(h)
            <==> exists i :: FirstApplying(routes, m, path, matches, i) && routes[i].handler == h
  {
    FindAfterFilterNone(routes, m, path, matches);
    var ms := MethodRoutes(routes, m);
    if Find(ms, path, matches).Some? {
      FindAfterFilterSome(routes, m, path, matches);
      var i' :| FirstApplying(routes, m, path, matches, i') && ms[Find(ms, path, matches).value] == routes[i'];
      forall i | FirstApplying(routes, m, path, matches, i) ensures i == i' { }
    }
  }

  /** Shadowing: once route `i` serves (m, path), no route after it can be the
      one resolved, so the list may lose any later route without changing the
      result. */
  lemma ResolveShadowed<H>(routes: seq<Route<H>>, m: Method, path: string, matches: (string, string) -> bool, i: int, j: int)
    requires 0 <= i < j < |routes|
    requires Applies(routes[i], m, path, matches)
    ensures Resolve(routes, m, path, matches).Ok?
    ensures Resolve(routes[..j] + routes[j + 1..], m, path, matches) == Resolve(routes, m, path, matches)
  {
    var shorter := routes[..j] + routes[j + 1..];
    assert forall k :: 0 <= k < j ==> shorter[k] == routes[k];
    FindAfterFilterNone(routes, m, path, matches);
    FindAfterFilterSome(routes, m, path, matches);
    var k0 :| FirstApplying(routes, m, path, matches, k0) && MethodRoutes(routes, m)[Find(MethodRoutes(routes, m), path, matches).value] == routes[k0];
    assert k0 <= i;
    assert FirstApplying(shorter, m, path, matches, k0);
    ResolveOk(routes, m, path, matches, routes[k0].handler);
    ResolveOk(shorter, m, path, matches, routes[k0].handler);
  }

  // ---------------------------------------------------------------------------
  // Method isolation and registration

  /** The result depends only on the routes of the request method. */
  lemma ResolveIsolated<H>(routes: seq<Route<H>>, m: Method, path: string, matches: (string, string) -> bool)
    ensures Resolve(routes, m, path, matches) == Resolve(MethodRoutes(routes, m), m, path, matches)
  {
    MethodRoutesIdempotent(routes, m);
  }

  /** Registering route `r` after `routes`: a route of another method changes
      nothing; an earlier answer Ok stays; otherwise `r` is the answer if its
      pattern matches, and NotFound if it does not. */
  lemma ResolveAppend<H>(routes: seq<Route<H>>, r: Route<H>, m: Method, path: string, matches: (string, string) -> bool)
    ensures Resolve(routes + [r], m, path, matches)
            == if r.verb != m then Resolve(routes, m, path, matches)
               else match Resolve(routes, m, path, matches)
                 case Ok(h) => Ok(h)
                 case Err(_) => if matches(r.pattern, path) then Ok(r.handler) else Err(NotFound)
  {
    var ms := MethodRoutes(routes, m);
    MethodRoutesAppend(routes, [r], m);
    assert MethodRoutes([r], m) == if r.verb == m then [r] else [];
    if r.verb == m {
      var ms' := ms + [r];
      assert forall j :: 0 <= j < |ms| ==> ms'[j] == ms[j];
      var k := Find(ms, path, matches);
      var k' := Find(ms', path, matches);
      if k.Some? {
        assert k' == k;
      } else if matches(r.pattern, path) {
        assert ms'[|ms|] == r;
        assert forall j :: 0 <= j < |ms| ==> !matches(ms'[j].pattern, path);
        assert k' == Some(|ms|);
      } else {
        assert k'.None?;
      }
    } else {
      assert ms + [] == ms;
    }
  }

  /** A method no builder method registers is never implemented. */
  lemma ResolveUnregistrable<H>(routes: seq<Route<H>>, m: Method, path: string, matches: (string, string) -> bool)
    requires forall i :: 0 <= i < |routes| ==> Registrable(routes[i].verb)
    requires !Registrable(m)
    ensures Resolve(routes, m, path, matches) == Err(NotImplemented)
  {
    ResolveNotImplemented(routes, m, path, matches);
  }

  /** The same for the routes of a router built by the builder methods. */
  lemma BuiltRouterUnregistrable<H>(router: HyperRouter<H>, name: string, path: string, matches: (string, string) -> bool)
    requires router.Valid()
    ensures Resolve(router.routes, Other(name), path, matches) == Err(NotImplemented)
  {
    ResolveUnregistrable(router.routes, Other(name), path, matches);
  }

  // ---------------------------------------------------------------------------
  // The router object

  /** `HyperRouter`: the routes in registration order. The builder methods
      append in place and hand the router back for chaining. */
  class HyperRouter<H> {
    var routes: seq<Route<H>>

    /** Every route was registered through a builder method. */
    ghost predicate Valid()
      reads this
    {
      forall i :: 0 <= i < |routes| ==> Registrable(routes[i].verb)
    }

    /** `new`: a router with no routes. */
    constructor ()
      ensures Valid() && routes == []
    {
      routes := [];
    }

    /** Append one route; the eight builder methods below delegate here. */
    method Add(m: Method, path: string, handler: H) returns (router: HyperRouter<H>)
      requires Valid() && Registrable(m)
      modifies this
      ensures Valid()
      ensures routes == old(routes) + [Route(m, path, handler)]
      ensures router == this
    {
      routes := routes + [Route(m, path, handler)];
      router := this;
    }

    method Get(path: string, handler: H) returns (router: HyperRouter<H>)
      requires Valid()
      modifies this
      ensures Valid()
      ensures routes == old(routes) + [Route(Method.Get, path, handler)]
      ensures router == this
    {
      router := Add(Method.Get, path, handler);
    }

    method Post(path: string, handler: H) returns (router: HyperRouter<H>)
      requires Valid()
      modifies this
      ensures Valid()
      ensures routes == old(routes) + [Route(Method.Post, path, handler)]
      ensures router == this
    {
      router := Add(Method.Post, path, handler);
    }

    method Put(path: string, handler: H) returns (router: HyperRouter<H>)
      requires Valid()
      modifies this
      ensures Valid()
      ensures routes == old(routes) + [Route(Method.Put, path, handler)]
      ensures router == this
    {
      router := Add(Method.Put, path, handler);
    }

    method Patch(path: string, handler: H) returns (router: HyperRouter<H>)
      requires Valid()
      modifies this
      ensures Valid()
      ensures routes == old(routes) + [Route(Method.Patch, path, handler)]
      ensures router == this
    {
      router := Add(Method.Patch, path, handler);
    }

    method Delete(path: string, handler: H) returns (router: HyperRouter<H>)
      requires Valid()
      modifies this
      ensures Valid()
      ensures routes == old(routes) + [Route(Method.Delete, path, handler)]
      ensures router == this
    {
      router := Add(Method.Delete, path, handler);
    }

    method Options(path: string, handler: H) returns (router: HyperRouter<H>)
      requires Valid()
      modifies this
      ensures Valid()
      ensures routes == old(routes) + [Route(Method.Options, path, handler)]
      ensures router == this
    {
      router := Add(Method.Options, path, handler);
    }

    method Head(path: string, handler: H) returns (router: HyperRouter<H>)
      requires Valid()
      modifies this
      ensures Valid()
      ensures routes == old(routes) + [Route(Method.Head, path, handler)]
      ensures router == this
    {
      router := Add(Method.Head, path, handler);
    }

    method Trace(path: string, handler: H) returns (router: HyperRouter<H>)
      requires Valid()
      modifies this
      ensures Valid()
      ensures routes == old(routes) + [Route(Method.Trace, path, handler)]
      ensures router == this
    {
      router := Add(Method.Trace, path, handler);
    }

    /** `find_handler`, in its two passes: collect the routes of the request
        method, report NotImplemented if there are none, then scan them in
        order for the first whose pattern matches. It only reads the router. */
    method FindHandler(m: Method, path: string, matches: (string, string) -> bool) returns (r: Result<H>)
      ensures r == Resolve(routes, m, path, matches)
    {
      var methods: seq<Route<H>> := [];
      var i := 0;
      while i < |routes|
        invariant 0 <= i <= |routes|
        invariant methods == MethodRoutes(routes[..i], m)
      {
        MethodRoutesStep(routes, i, m);
        if routes[i].verb == m {
          methods := methods + [routes[i]];
        }
        i := i + 1;
      }
      assert routes[..i] == routes;
      assert methods == MethodRoutes(routes, m);
      if |methods| == 0 {
        return Err(NotImplemented);
      }
      var j := 0;
      while j < |methods|
        invariant 0 <= j <= |methods|
        invariant forall k :: 0 <= k < j ==> !matches(methods[k].pattern, path)
      {
        if matches(methods[j].pattern, path) {
          FindFirst(methods, path, matches, j);
          return Ok(methods[j].handler);
        }
        j := j + 1;
      }
      return Err(NotFound);
    }
  }
}
