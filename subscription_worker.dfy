/**
 * The subscription API worker (worker/m3u-worker.js): `fetch` routes
 * `/api/subscriptions` requests by path segments and method to three
 * handlers over a key-value namespace that maps subscription ids to URLs.
 *
 * The namespace binding is the class's state: whether it is bound, and
 * its contents as a map. The order in which the namespace lists its keys,
 * the body of the request once `request.json()` has run, and the id that
 * `crypto.randomUUID()` returns are parameters.
 */
module SubscriptionWorker {
  import opened JsString
  import opened JsValue

  const ApiSegment := "api"
  const SubscriptionsSegment := "subscriptions"
  const NotBoundMessage := "KV Namespace not bound."
  const NotFoundMessage := "Not Found"
  const NoRouteMessage := "Method Not Allowed or Not Found"
  const MissingMessage := "Subscription not found"
  const InvalidUrlError := "Invalid or missing URL in request body."
  const InvalidJsonError := "Invalid JSON format in request body."

  // ---------------------------------------------------------------------------
  // Routing

  /** `parts.filter(Boolean)`: the non-empty strings, in order. */
  function NonEmpty(parts: seq<string>): (r: seq<string>)
    ensures |r| <= |parts|
    ensures forall k :: 0 <= k < |r| ==> r[k] != [] && r[k] in parts
    ensures forall p :: p in parts && p != [] ==> p in r
  {
    if parts == [] then []
    else
      var rest := NonEmpty(parts[1..]);
      (if parts[0] == [] then [] else [parts[0]]) + rest
  }

  /** `url.pathname.split('/').filter(Boolean)`: the path's non-empty, slash-free segments. */
  function PathSegments(pathname: string): (segs: seq<string>)
    ensures forall k :: 0 <= k < |segs| ==> segs[k] != [] && '/' !in segs[k]
  {
    SplitPieces(pathname, '/');
    NonEmpty(Split(pathname, '/'))
  }

  /** A list of non-empty strings passes the filter unchanged. */
  lemma {:induction false} NonEmptyAll(parts: seq<string>)
    requires forall k :: 0 <= k < |parts| ==> parts[k] != []
    ensures NonEmpty(parts) == parts
  {
    if parts != [] {
      NonEmptyAll(parts[1..]);
      assert parts == [parts[0]] + parts[1..];
    }
  }

  /** The filter keeps the order: filtering a concatenation filters each part. */
  lemma {:induction false} NonEmptyConcat(a: seq<string>, b: seq<string>)
    ensures NonEmpty(a + b) == NonEmpty(a) + NonEmpty(b)
  {
    if a != [] {
      assert (a + b)[1..] == a[1..] + b;
      NonEmptyConcat(a[1..], b);
    } else {
      assert a + b == b;
    }
  }

  /** The absolute path made of the given segments. */
  function SegmentsPath(segs: seq<string>): string {
    "/" + Join(segs, '/')
  }

  /** Reading the segments back from the path they make gives them back. */
  lemma SegmentsRoundTrip(segs: seq<string>)
    requires forall k :: 0 <= k < |segs| ==> segs[k] != [] && '/' !in segs[k]
    ensures PathSegments(SegmentsPath(segs)) == segs
  {
    var parts := [""] + segs;
    if segs == [] {
      assert SegmentsPath(segs) == "/" == Join(["", ""], '/');
      SplitJoin(["", ""], '/');
    } else {
      JoinCons("", segs, '/');
      assert SegmentsPath(segs) == Join(parts, '/');
      assert forall k :: 0 <= k < |parts| ==> '/' !in parts[k] by {
        forall k | 0 <= k < |parts| ensures '/' !in parts[k] {
          if k > 0 { assert parts[k] == segs[k - 1]; }
        }
      }
      SplitJoin(parts, '/');
      assert parts[1..] == segs;
      NonEmptyAll(segs);
    }
  }

  /** Which handler, if any, a request reaches. */
  datatype Route =
    | ListRoute
    | AddRoute
    | DeleteRoute(id: string)
    | NotAllowedRoute   // an id segment with a method that has no handler for it
    | NotFoundRoute     // outside `/api/subscriptions`, or no id and no handler

  /** The route of `fetch` for a request's path and method. */
  function RouteOf(pathname: string, httpMethod: string): (r: Route)
    ensures r.DeleteRoute? ==> r.id != [] && '/' !in r.id && httpMethod == "DELETE"
    ensures r == ListRoute ==> httpMethod == "GET"
    ensures r == AddRoute ==> httpMethod == "POST"
  {
    var segs := PathSegments(pathname);
    if |segs| >= 2 && segs[0] == ApiSegment && segs[1] == SubscriptionsSegment then
      var hasId := |segs| >= 3;
      if httpMethod == "GET" && !hasId then ListRoute
      else if httpMethod == "POST" && !hasId then AddRoute
      else if httpMethod == "DELETE" && hasId then DeleteRoute(segs[2])
      else if hasId then NotAllowedRoute
      else NotFoundRoute
    else NotFoundRoute
  }

  /** A path outside `/api/subscriptions` is not found, whatever the method. */
  lemma OutsideApiNotFound(pathname: string, httpMethod: string)
    requires var segs := PathSegments(pathname);
             !(|segs| >= 2 && segs[0] == ApiSegment && segs[1] == SubscriptionsSegment)
    ensures RouteOf(pathname, httpMethod) == NotFoundRoute
  {
  }

  /** `GET`, `POST` and `DELETE` reach their handlers on the paths the frontend builds. */
  lemma ApiPathsRoute(id: string)
    requires id != [] && '/' !in id
    ensures RouteOf(SegmentsPath([ApiSegment, SubscriptionsSegment]), "GET") == ListRoute
    ensures RouteOf(SegmentsPath([ApiSegment, SubscriptionsSegment]), "POST") == AddRoute
    ensures RouteOf(SegmentsPath([ApiSegment, SubscriptionsSegment, id]), "DELETE") == DeleteRoute(id)
    ensures RouteOf(SegmentsPath([ApiSegment, SubscriptionsSegment, id]), "GET") == NotAllowedRoute
    ensures RouteOf(SegmentsPath([ApiSegment, SubscriptionsSegment]), "DELETE") == NotFoundRoute
  {
    var two := [ApiSegment, SubscriptionsSegment];
    var three := [ApiSegment, SubscriptionsSegment, id];
    assert '/' !in ApiSegment && '/' !in SubscriptionsSegment;
    SegmentsRoundTrip(two);
    SegmentsRoundTrip(three);
  }

  /**
   * The whole routing table under `/api/subscriptions`, for any path and
   * method: GET and POST without an id reach list and add, DELETE with an
   * id reaches delete with the third segment, any other method gets 405
   * with an id and 404 without one.
   */
  lemma ApiRouteTable(pathname: string, httpMethod: string)
    requires var segs := PathSegments(pathname);
             |segs| >= 2 && segs[0] == ApiSegment && segs[1] == SubscriptionsSegment
    ensures var segs := PathSegments(pathname);
            var r := RouteOf(pathname, httpMethod);
            && (r == ListRoute <==> |segs| == 2 && httpMethod == "GET")
            && (r == AddRoute <==> |segs| == 2 && httpMethod == "POST")
            && (r.DeleteRoute? <==> |segs| >= 3 && httpMethod == "DELETE")
            && (r.DeleteRoute? ==> r.id == segs[2])
            && (r == NotAllowedRoute <==> |segs| >= 3 && httpMethod != "DELETE")
            && (r == NotFoundRoute <==> |segs| == 2 && httpMethod != "GET" && httpMethod != "POST")
  {
  }

  // ---------------------------------------------------------------------------
  // Responses and handlers, as functions of the namespace

  /** A subscription as the worker reports it: `{id, url}`. */
  datatype Entry = Entry(id: string, url: string)

  datatype Payload =
    | NoContent
    | Message(text: string)
    | Entries(list: seq<Entry>)
    | Created(entry: Entry)
    | ErrorJson(error: string)

  datatype Response = Response(status: int, payload: Payload)

  /** The request body: `request.json()` throws a syntax error, or yields a value whose `url` property is given. */
  datatype RequestBody = Malformed | Json(url: Field)

  /** The response and the namespace contents after a request. */
  datatype Outcome = Outcome(resp: Response, store: map<string, string>)

  /**
   * The subscriptions `handleListSubscriptions` reports for the keys in
   * listing order: `{id, url}` for each key whose value is present and
   * non-empty.
   */
  function Listing(keys: seq<string>, store: map<string, string>): (entries: seq<Entry>)
    ensures |entries| <= |keys|
    ensures forall k :: 0 <= k < |entries| ==>
              entries[k].id in store && store[entries[k].id] == entries[k].url && entries[k].url != []
  {
    if keys == [] then []
    else
      var key := keys[|keys| - 1];
      Listing(keys[..|keys| - 1], store)
      + (if key in store && store[key] != [] then [Entry(key, store[key])] else [])
  }

  function ListResponse(kvBound: bool, store: map<string, string>, keys: seq<string>): (r: Response)
    ensures r.status == 500 <==> !kvBound
    ensures r.status == 200 ==> r.payload == Entries(Listing(keys, store))
    ensures kvBound ==> r == Response(200, Entries(Listing(keys, store)))
  {
    if !kvBound then Response(500, Message(NotBoundMessage))
    else Response(200, Entries(Listing(keys, store)))
  }

  /** The `url` the add handler accepts: a string starting with `http`. */
  predicate AcceptableUrl(f: Field) {
    f.Text? && f.s != [] && StartsWith(f.s, "http")
  }

  /** `handleAddSubscription`, with `freshId` standing for `crypto.randomUUID()`. */
  function AddOutcome(kvBound: bool, store: map<string, string>, body: RequestBody, freshId: string): (o: Outcome)
    ensures o.resp.status == 201 <==> kvBound && body.Json? && AcceptableUrl(body.url)
    ensures o.resp.status == 400 <==> kvBound && !(body.Json? && AcceptableUrl(body.url))
    ensures o.resp.status != 201 ==> o.store == store
    ensures o.resp.status == 201 ==>
              && StartsWith(body.url.s, "http")
              && o.resp.payload == Created(Entry(freshId, body.url.s))
              && o.store == store[freshId := body.url.s]
  {
    if !kvBound then Outcome(Response(500, Message(NotBoundMessage)), store)
    else match body
      case Malformed => Outcome(Response(400, ErrorJson(InvalidJsonError)), store)
      case Json(url) =>
        if !AcceptableUrl(url) then Outcome(Response(400, ErrorJson(InvalidUrlError)), store)
        else Outcome(Response(201, Created(Entry(freshId, url.s))), store[freshId := url.s])
  }

  /** `handleDeleteSubscription`. */
  function DeleteOutcome(kvBound: bool, store: map<string, string>, id: string): (o: Outcome)
    ensures o.resp.status == 204 <==> kvBound && id in store
    ensures o.resp.status == 404 <==> kvBound && id !in store
    ensures o.resp.status == 204 ==> o.store == store - {id}
    ensures o.resp.status != 204 ==> o.store == store
  {
    if !kvBound then Outcome(Response(500, Message(NotBoundMessage)), store)
    else if id !in store then Outcome(Response(404, Message(MissingMessage)), store)
    else Outcome(Response(204, NoContent), store - {id})
  }

  /** `fetch`: the route, then the handler it reaches. */
  function ServeOutcome(kvBound: bool, store: map<string, string>, pathname: string, httpMethod: string,
                        body: RequestBody, freshId: string, keys: seq<string>): (o: Outcome)
    ensures o.resp.status in {200, 201, 204, 400, 404, 405, 500}
    ensures o.store != store ==> o.resp.status == 201 || o.resp.status == 204
    ensures o.resp.status == 405 <==> RouteOf(pathname, httpMethod) == NotAllowedRoute
    ensures o.resp.status == 200 ==> o.resp.payload == Entries(Listing(keys, store))
    ensures RouteOf(pathname, httpMethod) == NotFoundRoute ==> o.resp.status == 404 && o.store == store
    ensures RouteOf(pathname, httpMethod) == ListRoute ==> o == Outcome(ListResponse(kvBound, store, keys), store)
    ensures RouteOf(pathname, httpMethod) == AddRoute ==> o == AddOutcome(kvBound, store, body, freshId)
    ensures RouteOf(pathname, httpMethod).DeleteRoute? ==>
              o == DeleteOutcome(kvBound, store, RouteOf(pathname, httpMethod).id)
  {
    match RouteOf(pathname, httpMethod)
    case ListRoute => Outcome(ListResponse(kvBound, store, keys), store)
    case AddRoute => AddOutcome(kvBound, store, body, freshId)
    case DeleteRoute(id) => DeleteOutcome(kvBound, store, id)
    case NotAllowedRoute => Outcome(Response(405, Message(NoRouteMessage)), store)
    case NotFoundRoute => Outcome(Response(404, if |PathSegments(pathname)| >= 2
                                              && PathSegments(pathname)[0] == ApiSegment
                                              && PathSegments(pathname)[1] == SubscriptionsSegment
                                            then Message(NoRouteMessage) else Message(NotFoundMessage)), store)
  }

  // ---------------------------------------------------------------------------
  // Properties of the handlers

  /** A listed subscription is exactly a listed key with a non-empty stored URL. */
  lemma {:induction false} ListingMembership(keys: seq<string>, store: map<string, string>, e: Entry)
    ensures e in Listing(keys, store) <==> e.id in keys && e.id in store && store[e.id] == e.url && e.url != []
  {
    if keys != [] {
      var init, key := keys[..|keys| - 1], keys[|keys| - 1];
      ListingMembership(init, store, e);
      assert keys == init + [key];
    }
  }

  /** The listing follows the key order: listing a concatenation lists each part in turn. */
  lemma {:induction false} ListingConcat(a: seq<string>, b: seq<string>, store: map<string, string>)
    ensures Listing(a + b, store) == Listing(a, store) + Listing(b, store)
  {
    if b == [] {
      assert a + b == a;
    } else {
      var init, key := b[..|b| - 1], b[|b| - 1];
      assert (a + b)[..|a + b| - 1] == a + init;
      ListingConcat(a, init, store);
    }
  }

  /** A successful add under a fresh id is listed afterwards whenever its key is listed. */
  lemma AddedIsListed(kvBound: bool, store: map<string, string>, body: RequestBody, freshId: string, keys: seq<string>)
    requires AddOutcome(kvBound, store, body, freshId).resp.status == 201
    requires freshId in keys
    ensures var o := AddOutcome(kvBound, store, body, freshId);
            Entry(freshId, body.url.s) in Listing(keys, o.store)
  {
    var o := AddOutcome(kvBound, store, body, freshId);
    ListingMembership(keys, o.store, Entry(freshId, body.url.s));
  }

  /** A successful add under a fresh id creates exactly one key. */
  lemma AddCreatesOneKey(kvBound: bool, store: map<string, string>, body: RequestBody, freshId: string)
    requires freshId !in store
    requires AddOutcome(kvBound, store, body, freshId).resp.status == 201
    ensures var o := AddOutcome(kvBound, store, body, freshId);
            o.store.Keys == store.Keys + {freshId} && |o.store.Keys| == |store.Keys| + 1
  {
  }

  /** Deleting the id an add just created restores the namespace. */
  lemma DeleteUndoesAdd(store: map<string, string>, body: RequestBody, freshId: string)
    requires freshId !in store
    requires AddOutcome(true, store, body, freshId).resp.status == 201
    ensures var added := AddOutcome(true, store, body, freshId).store;
            DeleteOutcome(true, added, freshId) == Outcome(Response(204, NoContent), store)
  {
    var added := AddOutcome(true, store, body, freshId).store;
    assert added - {freshId} == store;
  }

  /** A second delete of the same id finds nothing. */
  lemma DeleteTwiceNotFound(store: map<string, string>, id: string)
    requires id in store
    ensures var once := DeleteOutcome(true, store, id).store;
            DeleteOutcome(true, once, id).resp.status == 404
  {
  }

  /** Without the namespace binding no request changes anything, and no handler answers other than 500. */
  lemma UnboundTouchesNothing(store: map<string, string>, pathname: string, httpMethod: string,
                              body: RequestBody, freshId: string, keys: seq<string>)
    ensures var o := ServeOutcome(false, store, pathname, httpMethod, body, freshId, keys);
            && o.store == store
            && o.resp.status in {404, 405, 500}
            && (o.resp.status == 500 <==>
                  (RouteOf(pathname, httpMethod) in {ListRoute, AddRoute} || RouteOf(pathname, httpMethod).DeleteRoute?))
  {
  }

  /** Only a `DELETE` on an id or a valid `POST` can change the namespace. */
  lemma ServeChangesOnlyByHandlers(kvBound: bool, store: map<string, string>, pathname: string, httpMethod: string,
                                   body: RequestBody, freshId: string, keys: seq<string>)
    requires ServeOutcome(kvBound, store, pathname, httpMethod, body, freshId, keys).store != store
    ensures var r := RouteOf(pathname, httpMethod);
            (r == AddRoute && httpMethod == "POST") || (r.DeleteRoute? && httpMethod == "DELETE")
  {
  }

  // ---------------------------------------------------------------------------
  // The worker over its namespace binding

  class Worker {
    var kvBound: bool
    var store: map<string, string>

    constructor(bound: bool, contents: map<string, string>)
      ensures kvBound == bound && store == contents
    {
      kvBound := bound;
      store := contents;
    }

    /** `handleListSubscriptions`: reads each listed key and keeps those with a URL. */
    method List(keys: seq<string>) returns (resp: Response)
      ensures resp == ListResponse(kvBound, store, keys)
    {
      if !kvBound {
        return Response(500, Message(NotBoundMessage));
      }
      var subscriptions: seq<Entry> := [];
      for i := 0 to |keys|
        invariant subscriptions == Listing(keys[..i], store)
      {
        var key := keys[i];
        var url: Option<string> := if key in store then Some(store[key]) else None;
        if url.Some? && url.value != [] {
          subscriptions := subscriptions + [Entry(key, url.value)];
        }
        assert keys[..i + 1][..i] == keys[..i];
      }
      assert keys[..|keys|] == keys;
      resp := Response(200, Entries(subscriptions));
    }

    /** `handleAddSubscription`. */
    method Add(body: RequestBody, freshId: string) returns (resp: Response)
      modifies this
      ensures kvBound == old(kvBound)
      ensures Outcome(resp, store) == AddOutcome(old(kvBound), old(store), body, freshId)
    {
      if !kvBound {
        return Response(500, Message(NotBoundMessage));
      }
      if body.Malformed? {
        return Response(400, ErrorJson(InvalidJsonError));
      }
      var urlToAdd := body.url;
      if !AcceptableUrl(urlToAdd) {
        return Response(400, ErrorJson(InvalidUrlError));
      }
      store := store[freshId := urlToAdd.s];
      resp := Response(201, Created(Entry(freshId, urlToAdd.s)));
    }

    /** `handleDeleteSubscription`. */
    method Delete(id: string) returns (resp: Response)
      modifies this
      ensures kvBound == old(kvBound)
      ensures Outcome(resp, store) == DeleteOutcome(old(kvBound), old(store), id)
    {
      if !kvBound {
        return Response(500, Message(NotBoundMessage));
      }
      if id !in store {
        return Response(404, Message(MissingMessage));
      }
      store := store - {id};
      resp := Response(204, NoContent);
    }

    /** `fetch`. */
    method Fetch(pathname: string, httpMethod: string, body: RequestBody, freshId: string, keys: seq<string>)
      returns (resp: Response)
      modifies this
      ensures kvBound == old(kvBound)
      ensures Outcome(resp, store) == ServeOutcome(old(kvBound), old(store), pathname, httpMethod, body, freshId, keys)
    {
      var segs := PathSegments(pathname);
      if |segs| >= 2 && segs[0] == ApiSegment && segs[1] == SubscriptionsSegment {
        var hasId := |segs| >= 3;
        if httpMethod == "GET" && !hasId {
          resp := List(keys);
        } else if httpMethod == "POST" && !hasId {
          resp := Add(body, freshId);
        } else if httpMethod == "DELETE" && hasId {
          resp := Delete(segs[2]);
        } else {
          resp := Response(if hasId then 405 else 404, Message(NoRouteMessage));
        }
      } else {
        resp := Response(404, Message(NotFoundMessage));
      }
    }
  }
}
