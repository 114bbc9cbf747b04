/** The request guard of `src/middleware.ts`: it refreshes the session
    cookies through `setAll`, which writes each cookie into the request's jar
    and the response's jar, and it sends a visitor without a user from a
    protected page to `/auth`, carrying the page in the `next` parameter.
    Whether there is a user is an input (the source asks the auth service). */
module Middleware {
  import opened JsValue
  import opened JsString
  import SearchParams
  import Entries

  const ProtectedPrefixes := ["/sent", "/inbox", "/drafts", "/trash", "/profile"]
  const AuthPath := "/auth"

  /** The chain of `pathname.startsWith(...)` tests. */
  predicate IsProtected(pathname: string) {
    StartsWith(pathname, "/sent")
    || StartsWith(pathname, "/inbox")
    || StartsWith(pathname, "/drafts")
    || StartsWith(pathname, "/trash")
    || StartsWith(pathname, "/profile")
  }

  /** A path is protected exactly when it starts with one of the five
      prefixes. */
  lemma ProtectedIffPrefix(pathname: string)
    ensures IsProtected(pathname) <==>
              exists k :: 0 <= k < |ProtectedPrefixes| && StartsWith(pathname, ProtectedPrefixes[k])
  {
    if IsProtected(pathname) {
      if StartsWith(pathname, "/sent") {
        assert StartsWith(pathname, ProtectedPrefixes[0]);
      } else if StartsWith(pathname, "/inbox") {
        assert StartsWith(pathname, ProtectedPrefixes[1]);
      } else if StartsWith(pathname, "/drafts") {
        assert StartsWith(pathname, ProtectedPrefixes[2]);
      } else if StartsWith(pathname, "/trash") {
        assert StartsWith(pathname, ProtectedPrefixes[3]);
      } else {
        assert StartsWith(pathname, ProtectedPrefixes[4]);
      }
    }
  }

  /** The test is on raw prefixes: `/sentinel` is protected, `/scheduled`
      and `/` are not. */
  lemma RawPrefixExamples()
    ensures IsProtected("/sentinel")
    ensures !IsProtected("/scheduled") && !IsProtected("/")
  {
    assert "/sentinel"[..5] == "/sent";
    assert "/scheduled"[..5] == "/sche";
    assert "/scheduled"[..6] == "/sched";
    assert "/scheduled"[..7] == "/schedu";
    assert "/scheduled"[..8] == "/schedul";
  }

  /** The parts of `request.nextUrl` the guard reads and changes. */
  datatype Url = Url(origin: string, pathname: string, search: SearchParams.Params)

  /** `NextResponse.redirect(url)` or the pass-through `response`. */
  datatype Decision = Redirect(location: Url) | PassThrough

  function Decide(url: Url, signedIn: bool): Decision {
    if IsProtected(url.pathname) && !signedIn then
      Redirect(url.(pathname := AuthPath, search := SearchParams.Set(url.search, "next", url.pathname)))
    else
      PassThrough
  }

  /** Only a protected page without a user is redirected. The redirect goes
      to `/auth` on the same origin, its `next` parameter is the page asked
      for, it has one `next`, and every other parameter reads as before. */
  lemma RedirectCarriesNext(url: Url, signedIn: bool)
    ensures Decide(url, signedIn).Redirect? <==> IsProtected(url.pathname) && !signedIn
    ensures Decide(url, signedIn).Redirect? ==>
              var u := Decide(url, signedIn).location;
              && u.origin == url.origin
              && u.pathname == AuthPath
              && SearchParams.Get(u.search, "next") == Some(url.pathname)
              && (forall n :: n != "next" ==> SearchParams.Get(u.search, n) == SearchParams.Get(url.search, n))
              && (forall i, j :: (0 <= i < j < |u.search| && u.search[i].0 == "next") ==> u.search[j].0 != "next")
  {
    SearchParams.SetThenGet(url.search, "next", url.pathname);
  }

  /** A cookie the auth client asks to set. */
  datatype Cookie = Cookie(name: string, value: string, options: string)

  /** The name/value pairs of the cookies, in order. */
  function NameValues(cookies: seq<Cookie>): (r: seq<(string, string)>)
    ensures |r| == |cookies|
    ensures forall k :: 0 <= k < |cookies| ==> r[k] == (cookies[k].name, cookies[k].value)
    decreases |cookies|
  {
    if cookies == [] then []
    else
      var last := cookies[|cookies| - 1];
      NameValues(cookies[..|cookies| - 1]) + [(last.name, last.value)]
  }

  /** The name/options pairs of the cookies, in order. */
  function NameOptions(cookies: seq<Cookie>): (r: seq<(string, string)>)
    ensures |r| == |cookies|
    ensures forall k :: 0 <= k < |cookies| ==> r[k] == (cookies[k].name, cookies[k].options)
    decreases |cookies|
  {
    if cookies == [] then []
    else
      var last := cookies[|cookies| - 1];
      NameOptions(cookies[..|cookies| - 1]) + [(last.name, last.options)]
  }

  /** A cookie jar: values, and the options given with them. */
  class CookieJar {
    var values: map<string, string>
    var options: map<string, string>

    constructor(values0: map<string, string>, options0: map<string, string>)
      ensures values == values0 && options == options0
    {
      values := values0;
      options := options0;
    }
  }

  /** `setAll`: each cookie in turn is set on the request's jar (value only)
      and on the response's jar (value and options). */
  method SetAll(request: CookieJar, response: CookieJar, cookies: seq<Cookie>)
    requires request != response
    modifies request, response
    ensures request.values == Entries.Assign(old(request.values), NameValues(cookies))
    ensures request.options == old(request.options)
    ensures response.values == Entries.Assign(old(response.values), NameValues(cookies))
    ensures response.options == Entries.Assign(old(response.options), NameOptions(cookies))
  {
    var i := 0;
    while i < |cookies|
      invariant 0 <= i <= |cookies|
      invariant request.values == Entries.Assign(old(request.values), NameValues(cookies[..i]))
      invariant request.options == old(request.options)
      invariant response.values == Entries.Assign(old(response.values), NameValues(cookies[..i]))
      invariant response.options == Entries.Assign(old(response.options), NameOptions(cookies[..i]))
    {
      var c := cookies[i];
      assert cookies[..i + 1][..i] == cookies[..i];
      Entries.AssignSnoc(old(request.values), NameValues(cookies[..i]), (c.name, c.value));
      Entries.AssignSnoc(old(response.values), NameValues(cookies[..i]), (c.name, c.value));
      Entries.AssignSnoc(old(response.options), NameOptions(cookies[..i]), (c.name, c.options));
      assert NameValues(cookies[..i + 1]) == NameValues(cookies[..i]) + [(c.name, c.value)];
      assert NameOptions(cookies[..i + 1]) == NameOptions(cookies[..i]) + [(c.name, c.options)];
      request.values := request.values[c.name := c.value];
      response.values := response.values[c.name := c.value];
      response.options := response.options[c.name := c.options];
      i := i + 1;
    }
    assert cookies[..i] == cookies;
  }

  /** After `setAll` both jars hold every cookie of the list, with the same
      value: the value of the last cookie of that name. */
  lemma JarsAgree(requestValues: map<string, string>, responseValues: map<string, string>,
                  cookies: seq<Cookie>, k: int)
    requires 0 <= k < |cookies|
    ensures var req := Entries.Assign(requestValues, NameValues(cookies));
            var res := Entries.Assign(responseValues, NameValues(cookies));
            && cookies[k].name in req && cookies[k].name in res
            && req[cookies[k].name] == res[cookies[k].name]
            && (forall j :: k <= j < |cookies| && cookies[j].name == cookies[k].name
                            && (forall l :: j < l < |cookies| ==> cookies[l].name != cookies[k].name)
                            ==> req[cookies[k].name] == cookies[j].value)
  {
    var pairs := NameValues(cookies);
    Entries.SameAssignmentsAgree(requestValues, responseValues, pairs, k);
    Entries.AssignLookup(requestValues, pairs, cookies[k].name);
    forall j | k <= j < |cookies| && cookies[j].name == cookies[k].name
                && (forall l :: j < l < |cookies| ==> cookies[l].name != cookies[k].name)
      ensures Entries.LastFor(pairs, cookies[k].name, j)
    {
    }
  }
}
