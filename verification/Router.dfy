/** Exact-path routing and the Allow list (src/router.cpp:3-43). */
module Routing {
  import opened Text
  import opened Http

  type Handler = HttpRequest -> HttpResponse

  /** (method, path) */
  type Key = (string, string)

  /** HEAD is served by the GET handler. */
  function Effective(verb: string): string { if verb == "HEAD" then "GET" else verb }

  predicate Dispatches(keys: set<Key>, verb: string, path: string) { (Effective(verb), path) in keys }

  // ---- the Allow value -----------------------------------------------------------------

  /** One turn of the loop that builds the list. */
  function AllowTurn(allowed: string, key: Key, path: string): string {
    if key.1 != path then allowed
    else (if allowed == "" then "" else allowed + ", ") + key.0 + (if key.0 == "GET" then ", HEAD" else "")
  }

  function AllowFrom(allowed: string, order: seq<Key>, path: string): string
    decreases |order|
  {
    if order == [] then allowed else AllowFrom(AllowTurn(allowed, order[0], path), order[1..], path)
  }

  predicate Enumerates(order: seq<Key>, keys: set<Key>) {
    && (forall i, j :: 0 <= i < j < |order| ==> order[i] != order[j])
    && (forall i :: 0 <= i < |order| ==> order[i] in keys)
    && (forall k :: k in keys ==> k in order)
  }

  /** The list printed by visiting every route once, in some order. */
  ghost predicate Lists(keys: set<Key>, path: string, allowed: string) {
    exists order :: Enumerates(order, keys) && allowed == AllowFrom("", order, path)
  }

  class Router {
    var routes: map<Key, Handler>
    var knownPaths: set<string>
    var fallback: Option<Handler>

    ghost predicate Valid()
      reads this
    {
      forall p :: p in knownPaths <==> exists k :: k in routes && k.1 == p
    }

    constructor ()
      ensures Valid() && routes == map[] && fallback == None
    {
      routes, knownPaths, fallback := map[], {}, None;
    }

    method Add(verb: string, path: string, handler: Handler)
      requires Valid()
      modifies this
      ensures Valid() && routes == old(routes)[(verb, path) := handler] && fallback == old(fallback)
      ensures knownPaths == old(knownPaths) + {path}
    {
      ghost var before := routes;
      routes := routes[(verb, path) := handler];
      knownPaths := knownPaths + {path};
      assert (verb, path) in routes;
      forall p | p in knownPaths ensures exists k :: k in routes && k.1 == p {
        if p == path {
          assert (verb, path).1 == p;
        } else {
          var k :| k in before && k.1 == p;
          assert k in routes;
        }
      }
    }

    method SetFallback(handler: Handler)
      modifies this`fallback
      ensures fallback == Some(handler)
    {
      fallback := Some(handler);
    }

    /** The loop over the routes; any order of visiting them will do. */
    method AllowValue(path: string) returns (allowed: string)
      ensures Lists(routes.Keys, path, allowed)
    {
      allowed := "";
      ghost var order: seq<Key> := [];
      var left := routes.Keys;
      while left != {}
        invariant left <= routes.Keys && Enumerates(order, routes.Keys - left)
        invariant allowed == AllowFrom("", order, path)
        decreases left
      {
        var key :| key in left;
        AllowFromAppend("", order, key, path);
        allowed := AllowTurn(allowed, key, path);
        assert key !in order;
        order := order + [key];
        left := left - {key};
        assert routes.Keys - left == routes.Keys - (left + {key}) + {key};
      }
      assert routes.Keys - left == routes.Keys;
    }

    method Route(request: HttpRequest) returns (response: HttpResponse)
      requires Valid()
      ensures Dispatches(routes.Keys, request.verb, request.path) ==>
                response == routes[(Effective(request.verb), request.path)](request)
      ensures !Dispatches(routes.Keys, request.verb, request.path) && request.path in knownPaths ==>
                exists allowed :: Lists(routes.Keys, request.path, allowed) &&
                                  response == ErrorResponse(405).(extraHeaders := [("Allow", allowed)])
      ensures request.path !in knownPaths ==>
                response == if fallback.Some? then fallback.value(request) else ErrorResponse(404)
    {
      var key := (if request.verb == "HEAD" then "GET" else request.verb, request.path);
      if key in routes {
        assert key.1 == request.path;
        response := routes[key](request);
      } else if request.path in knownPaths {
        var allowed := AllowValue(request.path);
        response := ErrorResponse(405).(extraHeaders := [("Allow", allowed)]);
      } else if fallback.Some? {
        response := fallback.value(request);
      } else {
        response := ErrorResponse(404);
      }
    }
  }

  lemma {:induction false} AllowFromAppend(allowed: string, order: seq<Key>, key: Key, path: string)
    ensures AllowFrom(allowed, order + [key], path) == AllowTurn(AllowFrom(allowed, order, path), key, path)
    decreases |order|
  {
    if order == [] {
      assert order + [key] == [key];
      assert [key][1..] == [];
    } else {
      AllowFromAppend(AllowTurn(allowed, order[0], path), order[1..], key, path);
      assert (order + [key])[1..] == order[1..] + [key];
    }
  }

  // ---- a client's reading of the list ----------------------------------------------------

  function SplitList(s: string): seq<string>
    decreases |s|
  {
    match IndexOf(s, ',')
    case None => [s]
    case Some(i) => [s[..i]] + SplitList(DropOneSpace(s[i + 1..]))
  }

  /** The names the loop prints for one route, and for all of them. */
  function NamesFor(key: Key, path: string): seq<string> {
    if key.1 != path then [] else if key.0 == "GET" then ["GET", "HEAD"] else [key.0]
  }

  function Names(order: seq<Key>, path: string): seq<string> {
    if order == [] then [] else Names(order[..|order| - 1], path) + NamesFor(order[|order| - 1], path)
  }

  predicate NamesOk(names: seq<string>) { forall i :: 0 <= i < |names| ==> names[i] != "" && ',' !in names[i] }

  predicate MethodsOk(order: seq<Key>) { forall i :: 0 <= i < |order| ==> order[i].0 != "" && ',' !in order[i].0 }

  /** One turn of the loop appends the names of one route. */
  lemma TurnAppends(names: seq<string>, key: Key, path: string)
    requires NamesOk(names) && key.0 != "" && ',' !in key.0
    ensures NamesOk(names + NamesFor(key, path))
    ensures AllowTurn(Joined(names), key, path) == Joined(names + NamesFor(key, path))
  {
    hide Joined;
    if key.1 != path {
      assert names + [] == names;
    } else {
      NameAppends(names, key.0);
      if key.0 == "GET" {
        HeadAppends(names);
      }
    }
  }

  /** What the loop prints before ", HEAD". */
  lemma NameAppends(names: seq<string>, name: string)
    requires NamesOk(names)
    ensures (if Joined(names) == "" then "" else Joined(names) + ", ") + name == Joined(names + [name])
  {
    hide Joined;
    JoinedEmpty(names);
    JoinedAppend(names, name);
    assert "" + name == name;
  }

  lemma HeadAppends(names: seq<string>)
    ensures Joined(names + ["GET"]) + ", HEAD" == Joined(names + ["GET", "HEAD"])
  {
    hide Joined;
    JoinedAppend(names + ["GET"], "HEAD");
    assert names + ["GET"] + ["HEAD"] == names + ["GET", "HEAD"];
    assert ", " + "HEAD" == ", HEAD";
    assert Joined(names + ["GET"]) + ", " + "HEAD" == Joined(names + ["GET"]) + (", " + "HEAD");
  }

  lemma JoinedEmpty(names: seq<string>)
    requires NamesOk(names)
    ensures Joined(names) == "" <==> names == []
  {
  }

  lemma {:induction false} PrintsNames(order: seq<Key>, path: string)
    requires MethodsOk(order)
    ensures NamesOk(Names(order, path))
    ensures AllowFrom("", order, path) == Joined(Names(order, path))
  {
    hide AllowTurn, NamesFor, Joined, NamesOk;
    if order == [] {
      assert NamesOk([]) && Joined([]) == "" by { NothingJoined(); }
    } else {
      var front, key := order[..|order| - 1], order[|order| - 1];
      PrintsNames(front, path);
      assert order == front + [key];
      AllowFromAppend("", front, key, path);
      TurnAppends(Names(front, path), key, path);
    }
  }

  lemma NothingJoined()
    ensures NamesOk([]) && Joined([]) == ""
  {
  }

  lemma {:induction false} JoinedFirst(names: seq<string>)
    requires |names| > 1
    ensures Joined(names) == names[0] + ", " + Joined(names[1..])
    decreases |names|
  {
    var n := |names| - 1;
    assert names == names[..n] + [names[n]];
    JoinedAppend(names[..n], names[n]);
    if n == 1 {
      assert names[..1] == [names[0]] && names[1..] == [names[1]];
    } else {
      JoinedFirst(names[..n]);
      assert names[1..] == names[..n][1..] + [names[n]];
      JoinedAppend(names[..n][1..], names[n]);
    }
  }

  /** Splitting takes off one name at a time. */
  lemma SplitsFirst(name: string, rest: string)
    requires ',' !in name
    ensures SplitList(name + ", " + rest) == [name] + SplitList(rest)
  {
    var s, tail := name + ", " + rest, [' '] + rest;
    assert s == name + [','] + tail;
    IndexOfAt(name, ',', tail);
    assert s[..|name|] == name && s[|name| + 1..] == tail;
    assert DropOneSpace(tail) == rest;
  }

  /** Splitting the printed list gives back the names. */
  lemma {:induction false} SplitsJoined(names: seq<string>)
    requires names != [] && NamesOk(names)
    ensures SplitList(Joined(names)) == names
    decreases |names|
  {
    if |names| == 1 {
      IndexOfAbsent(names[0], ',');
    } else {
      hide Joined, SplitList;
      JoinedFirst(names);
      SplitsJoined(names[1..]);
      SplitsFirst(names[0], Joined(names[1..]));
      assert [names[0]] + names[1..] == names;
    }
  }

  lemma {:induction false} NamesAre(order: seq<Key>, path: string, verb: string)
    ensures verb in Names(order, path) <==>
              (verb, path) in order || (verb == "HEAD" && ("GET", path) in order)
  {
    if order != [] {
      var front, key := order[..|order| - 1], order[|order| - 1];
      NamesAre(front, path, verb);
      assert order == front + [key];
    }
  }

  predicate MethodNames(keys: set<Key>) { forall k :: k in keys ==> k.0 != "" && ',' !in k.0 }

  /** What a client reads off the list: the registered methods, and HEAD behind GET. */
  lemma ListedAre(keys: set<Key>, path: string, allowed: string, verb: string)
    requires Lists(keys, path, allowed) && MethodNames(keys)
    requires exists k :: k in keys && k.1 == path
    ensures verb in SplitList(allowed) <==> (verb, path) in keys || (verb == "HEAD" && ("GET", path) in keys)
  {
    hide AllowFrom, Names, SplitList, Joined, NamesOk;
    var order :| Enumerates(order, keys) && allowed == AllowFrom("", order, path);
    var k :| k in keys && k.1 == path;
    PrintsNames(order, path);
    NamesAre(order, path, k.0);
    SplitsJoined(Names(order, path));
    NamesAre(order, path, verb);
  }

  /** The Allow list agrees with dispatch: on a known path, whatever order the routes are
      visited in, the methods listed are exactly those that dispatch, precisely when HEAD is
      not registered on its own without GET. */
  lemma AllowAgreesWithDispatch(keys: set<Key>, path: string, allowed: string)
    requires Lists(keys, path, allowed) && MethodNames(keys)
    requires exists k :: k in keys && k.1 == path
    ensures (forall verb :: verb in SplitList(allowed) <==> Dispatches(keys, verb, path))
            <==> (("HEAD", path) in keys ==> ("GET", path) in keys)
  {
    hide Lists, SplitList, MethodNames;
    var listed := SplitList(allowed);
    forall verb
      ensures verb in listed <==> (verb, path) in keys || (verb == "HEAD" && ("GET", path) in keys)
    {
      ListedAre(keys, path, allowed, verb);
    }
    assert "HEAD" in listed <==> ("HEAD", path) in keys || ("GET", path) in keys;
    assert Dispatches(keys, "HEAD", path) <==> ("GET", path) in keys;
    assert forall verb :: verb != "HEAD" ==> (verb in listed <==> Dispatches(keys, verb, path));
  }
}
