/** The request handler of the click-counting API: path normalisation, the
    choice of route and status code, and the handling of one request against
    the `clicks` table. Request and response bodies are taken already parsed;
    the database's availability and the success of each statement are inputs. */
module Api {
  import opened Wrappers
  import Clicks

  const NetlifyPrefix := "/.netlify/functions/api/"
  const ApiPrefix := "/api/"

  // ---------------------------------------------------------------------------
  // Path normalisation: String.prototype.replace with a string pattern
  // replaces its first occurrence only.
  // ---------------------------------------------------------------------------

  predicate OccursAt(s: string, pat: string, i: nat)
  {
    i + |pat| <= |s| && s[i..i + |pat|] == pat
  }

  lemma OccursAtTail(s: string, pat: string, i: nat)
    requires s != []
    ensures OccursAt(s, pat, i + 1) <==> OccursAt(s[1..], pat, i)
  {
    if i + 1 + |pat| <= |s| {
      assert s[i + 1..i + 1 + |pat|] == s[1..][i..i + |pat|];
    }
  }

  /** The index of the first occurrence of `pat` in `s`, if any. */
  function IndexOf(s: string, pat: string): (r: Option<nat>)
    ensures r.Some? ==> OccursAt(s, pat, r.value)
    ensures r.Some? ==> forall j: nat :: j < r.value ==> !OccursAt(s, pat, j)
    ensures r.None? <==> forall j: nat :: !OccursAt(s, pat, j)
    decreases |s|
  {
    if |s| < |pat| then None
    else if s[..|pat|] == pat then Some(0)
    else
      var rest := IndexOf(s[1..], pat);
      assert !OccursAt(s, pat, 0);
      assert forall j: nat :: OccursAt(s, pat, j + 1) <==> OccursAt(s[1..], pat, j) by {
        forall j: nat
          ensures OccursAt(s, pat, j + 1) <==> OccursAt(s[1..], pat, j)
        {
          OccursAtTail(s, pat, j);
        }
      }
      assert forall j: nat :: OccursAt(s, pat, j) ==> j == 0 || OccursAt(s[1..], pat, j - 1);
      match rest
      case None => None
      case Some(k) => Some(k + 1)
  }

  /** `s` with the first occurrence of `pat` removed, or `s` itself. */
  function RemoveFirst(s: string, pat: string): (r: string)
    ensures (forall j: nat :: !OccursAt(s, pat, j)) ==> r == s
    ensures forall i: nat :: OccursAt(s, pat, i) && (forall j: nat :: j < i ==> !OccursAt(s, pat, j)) ==>
      r == s[..i] + s[i + |pat|..]
    ensures (exists j: nat :: OccursAt(s, pat, j)) ==> |r| == |s| - |pat|
  {
    match IndexOf(s, pat)
    case None => s
    case Some(k) =>
      FirstOccurrenceIsIndexOf(s, pat);
      s[..k] + s[k + |pat|..]
  }

  /** An occurrence with none before it is the one `IndexOf` finds. */
  lemma FirstOccurrenceIsIndexOf(s: string, pat: string)
    ensures forall i: nat :: OccursAt(s, pat, i) && (forall j: nat :: j < i ==> !OccursAt(s, pat, j)) ==>
      IndexOf(s, pat) == Some(i)
  {
    var r := IndexOf(s, pat);
    forall i: nat | OccursAt(s, pat, i) && (forall j: nat :: j < i ==> !OccursAt(s, pat, j))
      ensures r == Some(i)
    {
      assert r.Some?;
    }
  }

  /** The route name the handler compares against: each prefix is removed at
      most once, so the path loses nothing, one prefix, or both. */
  function NormalizePath(rawPath: string): (r: string)
    ensures |rawPath| - |r| in {0, |NetlifyPrefix|, |ApiPrefix|, |NetlifyPrefix| + |ApiPrefix|}
  {
    RemoveFirst(RemoveFirst(rawPath, NetlifyPrefix), ApiPrefix)
  }

  /** A pattern that does not occur is not removed; one that starts the
      string is removed from the front. */
  lemma {:induction false} RemoveFirstCases(s: string, pat: string)
    ensures (forall j: nat :: !OccursAt(s, pat, j)) ==> RemoveFirst(s, pat) == s
    ensures OccursAt(s, pat, 0) ==> RemoveFirst(s, pat) == s[|pat|..]
  {
    if OccursAt(s, pat, 0) {
      assert IndexOf(s, pat) == Some(0);
    }
  }

  /** A request arriving through the function URL reaches the handler as the
      bare route name. */
  lemma {:induction false} NetlifyPathNormalizes(route: string)
    requires forall j: nat :: !OccursAt(route, ApiPrefix, j)
    ensures NormalizePath(NetlifyPrefix + route) == route
  {
    var s := NetlifyPrefix + route;
    assert OccursAt(s, NetlifyPrefix, 0);
    RemoveFirstCases(s, NetlifyPrefix);
    assert s[|NetlifyPrefix|..] == route;
    RemoveFirstCases(route, ApiPrefix);
  }

  /** Where the function-URL prefix can occur in a path that starts with
      "/api/": inside the rest of the path, or from its last '/' on, and then
      the rest begins with ".netlify/functions/api/" and so holds "/api/". */
  lemma NetlifyPrefixAfterApiPrefix(route: string, j: nat)
    requires OccursAt(ApiPrefix + route, NetlifyPrefix, j)
    ensures (j >= |ApiPrefix| && OccursAt(route, NetlifyPrefix, j - |ApiPrefix|))
         || (j == 4 && OccursAt(route, ApiPrefix, 18))
  {
    var s := ApiPrefix + route;
    var n := |NetlifyPrefix|;
    assert s[j..j + n] == NetlifyPrefix;
    assert s[j + 1] == NetlifyPrefix[1] == '.';
    assert j >= 4;
    if j >= |ApiPrefix| {
      assert route[j - |ApiPrefix|..j - |ApiPrefix| + n] == s[j..j + n];
    } else {
      assert route[18..23] == s[23..28] == NetlifyPrefix[19..24] == ApiPrefix;
    }
  }

  /** A request arriving through the `/api/` redirect reaches the handler as
      the bare route name. */
  lemma {:induction false} ApiPathNormalizes(route: string)
    requires forall j: nat :: !OccursAt(route, ApiPrefix, j)
    requires forall j: nat :: !OccursAt(route, NetlifyPrefix, j)
    ensures NormalizePath(ApiPrefix + route) == route
  {
    var s := ApiPrefix + route;
    forall j: nat | OccursAt(s, NetlifyPrefix, j)
      ensures (j >= |ApiPrefix| && OccursAt(route, NetlifyPrefix, j - |ApiPrefix|))
           || (j == 4 && OccursAt(route, ApiPrefix, 18))
    {
      NetlifyPrefixAfterApiPrefix(route, j);
    }
    RemoveFirstCases(s, NetlifyPrefix);
    assert OccursAt(s, ApiPrefix, 0);
    RemoveFirstCases(s, ApiPrefix);
    assert s[|ApiPrefix|..] == route;
  }

  /** A path that carries neither prefix is left as it is: `/click` does not
      become `click`. */
  lemma {:induction false} UnprefixedPathKept(rawPath: string)
    requires forall j: nat :: !OccursAt(rawPath, ApiPrefix, j)
    requires forall j: nat :: !OccursAt(rawPath, NetlifyPrefix, j)
    ensures NormalizePath(rawPath) == rawPath
  {
    RemoveFirstCases(rawPath, NetlifyPrefix);
    RemoveFirstCases(rawPath, ApiPrefix);
  }

  // ---------------------------------------------------------------------------
  // Routing
  // ---------------------------------------------------------------------------

  /** The parsed JSON body of a click; an absent field is `None`. */
  datatype ClickBody = ClickBody(country: Option<string>, countryCode: Option<string>)

  /** What the handler does with a request. */
  datatype Route =
    | Preflight                                   // OPTIONS: empty 200
    | Health                                      // no database
    | Test                                        // no database
    | DbDown                                      // initDB reported failure
    | Reset                                       // POST reset
    | Countries                                   // GET countries
    | Leaderboard                                 // GET leaderboard
    | Click(country: string, code: string)        // POST click with a country
    | MissingCountry                              // POST click, country falsy
    | BadBody                                     // POST click, body unparsable or null
    | NotFound(path: string, httpMethod: string)  // nothing matched

  /** `country_code || 'un'`. */
  function CodeOrDefault(code: Option<string>): (r: string)
    ensures Truthy(code) ==> r == code.value
    ensures !Truthy(code) ==> r == "un"
    ensures r != ""
  {
    if Truthy(code) then code.value else "un"
  }

  /** The statements after `initDB` that touch the table. */
  predicate UsesTable(r: Route)
  {
    r.Reset? || r.Countries? || r.Leaderboard? || r.Click?
  }

  /** Whether a normalised path and method name one of the handler's
      endpoints; any other request that reaches the table is a 404. */
  predicate EndpointMatches(path: string, httpMethod: string)
  {
    || path == "health" || path == "test"
    || (path == "reset" && httpMethod == "POST")
    || (path == "countries" && httpMethod == "GET")
    || (path == "leaderboard" && httpMethod == "GET")
    || (path == "click" && httpMethod == "POST")
  }

  /** The route the handler takes, given whether `initDB` would succeed.
      `body` is `None` when `JSON.parse` throws or yields `null`, the values
      that destructuring rejects; any other parsed value is `Some` with its
      string-valued fields, so a JSON number or string is `ClickBody(None, None)`. */
  function Dispatch(httpMethod: string, rawPath: string, dbReady: bool, body: Option<ClickBody>): (r: Route)
    ensures r == Preflight <==> httpMethod == "OPTIONS"
    ensures r == Health <==> httpMethod != "OPTIONS" && NormalizePath(rawPath) == "health"
    ensures r == Test <==> httpMethod != "OPTIONS" && NormalizePath(rawPath) == "test"
    ensures r == DbDown <==>
      httpMethod != "OPTIONS" && NormalizePath(rawPath) != "health" && NormalizePath(rawPath) != "test" && !dbReady
    ensures UsesTable(r) || r == MissingCountry || r == BadBody || r.NotFound? ==> dbReady
    ensures r == Reset <==>
      httpMethod != "OPTIONS" && dbReady && NormalizePath(rawPath) == "reset" && httpMethod == "POST"
    ensures r == Countries <==>
      httpMethod != "OPTIONS" && dbReady && NormalizePath(rawPath) == "countries" && httpMethod == "GET"
    ensures r == Leaderboard <==>
      httpMethod != "OPTIONS" && dbReady && NormalizePath(rawPath) == "leaderboard" && httpMethod == "GET"
    ensures r.Click? <==>
      (&& httpMethod != "OPTIONS" && dbReady && NormalizePath(rawPath) == "click" && httpMethod == "POST"
       && body.Some? && Truthy(body.value.country))
    ensures r.Click? ==>
      r.country == body.value.country.value && r.code == CodeOrDefault(body.value.countryCode)
    ensures r == MissingCountry <==>
      (&& httpMethod != "OPTIONS" && dbReady && NormalizePath(rawPath) == "click" && httpMethod == "POST"
       && body.Some? && !Truthy(body.value.country))
    ensures r == BadBody <==>
      (&& httpMethod != "OPTIONS" && dbReady && NormalizePath(rawPath) == "click" && httpMethod == "POST"
       && body.None?)
    ensures r.NotFound? <==>
      httpMethod != "OPTIONS" && dbReady && !EndpointMatches(NormalizePath(rawPath), httpMethod)
    ensures r.NotFound? ==> r.path == NormalizePath(rawPath) && r.httpMethod == httpMethod
  {
    if httpMethod == "OPTIONS" then Preflight
    else
      var path := NormalizePath(rawPath);
      if path == "health" then Health
      else if path == "test" then Test
      else if !dbReady then DbDown
      else if path == "reset" && httpMethod == "POST" then Reset
      else if path == "countries" && httpMethod == "GET" then Countries
      else if path == "leaderboard" && httpMethod == "GET" then Leaderboard
      else if path == "click" && httpMethod == "POST" then
        match body
        case None => BadBody
        case Some(b) =>
          if !Truthy(b.country) then MissingCountry
          else Click(b.country.value, CodeOrDefault(b.countryCode))
      else NotFound(path, httpMethod)
  }

  /** The status code of each route when its statements succeed. */
  function StatusCode(r: Route): (code: int)
    ensures code == 200 <==> !(r == DbDown || r == BadBody || r == MissingCountry || r.NotFound?)
    ensures code == 400 <==> r == MissingCountry
    ensures code == 404 <==> r.NotFound?
    ensures code == 500 <==> r == DbDown || r == BadBody
  {
    match r
    case DbDown => 500
    case BadBody => 500
    case MissingCountry => 400
    case NotFound(_, _) => 404
    case _ => 200
  }

  /** The status of a request whose statements succeed, from the request
      itself: a 404 for any unmatched method and path once the database is up,
      a 400 for a click without a country, and a 500 when the database is down
      or a click's body does not parse to an object. */
  lemma {:induction false} StatusOfRequest(httpMethod: string, rawPath: string, dbReady: bool, body: Option<ClickBody>)
    ensures var path := NormalizePath(rawPath);
      var code := StatusCode(Dispatch(httpMethod, rawPath, dbReady, body));
      && (code == 404 <==> httpMethod != "OPTIONS" && dbReady && !EndpointMatches(path, httpMethod))
      && (code == 400 <==>
            && httpMethod != "OPTIONS" && dbReady && path == "click" && httpMethod == "POST"
            && body.Some? && !Truthy(body.value.country))
      && (code == 500 <==>
            && httpMethod != "OPTIONS" && path != "health" && path != "test"
            && (!dbReady || (path == "click" && httpMethod == "POST" && body.None?)))
      && (code == 200 || code == 400 || code == 404 || code == 500)
  {
  }

  /** `health` and `test` answer 200 whether or not the database is up. */
  lemma HealthAndTestNeedNoDatabase(httpMethod: string, rawPath: string, body: Option<ClickBody>)
    requires httpMethod != "OPTIONS"
    requires NormalizePath(rawPath) == "health" || NormalizePath(rawPath) == "test"
    ensures Dispatch(httpMethod, rawPath, false, body) == Dispatch(httpMethod, rawPath, true, body)
    ensures StatusCode(Dispatch(httpMethod, rawPath, false, body)) == 200
  {
  }

  /** Reset is only reachable by POST: a GET on it is a 404 that echoes the
      route name and the method. */
  lemma {:induction false} ResetByGetNotFound(body: Option<ClickBody>)
    ensures Dispatch("GET", "/api/reset", true, body) == NotFound("reset", "GET")
    ensures StatusCode(Dispatch("GET", "/api/reset", true, body)) == 404
  {
    assert ApiPrefix + "reset" == "/api/reset";
    RouteNamesNormalize("reset");
    assert NormalizePath("/api/reset") == "reset";
    assert !EndpointMatches("reset", "GET");
    var r := Dispatch("GET", "/api/reset", true, body);
    assert r.NotFound? && r.path == "reset" && r.httpMethod == "GET";
  }

  /** A POST on `/api/click` whose body names a country but no code counts a
      click for that country under the code "un", and answers 200. */
  lemma {:induction false} ClickWithoutCodeRoutes(country: string)
    requires country != ""
    ensures Dispatch("POST", "/api/click", true, Some(ClickBody(Some(country), None))) == Click(country, "un")
    ensures StatusCode(Dispatch("POST", "/api/click", true, Some(ClickBody(Some(country), None)))) == 200
  {
    assert ApiPrefix + "click" == "/api/click";
    RouteNamesNormalize("click");
    assert NormalizePath("/api/click") == "click";
    var b := Some(ClickBody(Some(country), None));
    assert Truthy(b.value.country) && CodeOrDefault(b.value.countryCode) == "un";
  }

  /** None of the route names contains either prefix. */
  lemma NoRouteNameHoldsAPrefix(route: string)
    requires route in {"health", "test", "reset", "countries", "leaderboard", "click"}
    ensures forall j: nat :: !OccursAt(route, ApiPrefix, j)
    ensures forall j: nat :: !OccursAt(route, NetlifyPrefix, j)
  {
    forall j: nat
      ensures !OccursAt(route, ApiPrefix, j)
    {
      if j + |ApiPrefix| <= |route| {
        assert route[j..j + |ApiPrefix|][0] == route[j];
        assert route[j] != '/';
      }
    }
  }

  /** Through either prefix, every route name reaches the handler intact. */
  lemma RouteNamesNormalize(route: string)
    requires route in {"health", "test", "reset", "countries", "leaderboard", "click"}
    ensures NormalizePath(NetlifyPrefix + route) == route
    ensures NormalizePath(ApiPrefix + route) == route
  {
    NoRouteNameHoldsAPrefix(route);
    NetlifyPathNormalizes(route);
    ApiPathNormalizes(route);
  }

  // ---------------------------------------------------------------------------
  // Handling one request against the table
  // ---------------------------------------------------------------------------

  /** The error of a failure response. `Thrown` stands for the message of an
      exception the handler caught, which is opaque here. */
  datatype ErrorKind = DatabaseConnectionFailed | CountryRequired | Thrown

  datatype Payload =
    | Empty
    | HealthOk
    | TestOk(path: string)
    | Failure(error: ErrorKind)
    | ResetOk
    | CountryList(countries: seq<Clicks.CountryTotal>, total: nat)
    | Board(leaderboard: seq<Clicks.Ranked>)
    | Clicked(leaderboard: seq<Clicks.Ranked>, newCount: nat)
    | NotFoundBody(path: string, httpMethod: string)

  datatype Response = Response(statusCode: int, payload: Payload)

  /** One request. `reachable` and `createOk` are the outcomes of `initDB`'s
      statements, `stmtOk` that of the statements the route issues; the route
      taken is `route`. A statement that fails answers 500 and leaves the table
      as it was. */
  method Handle(db: Clicks.ClickStore, httpMethod: string, rawPath: string, body: Option<ClickBody>,
                reachable: bool, createOk: bool, stmtOk: bool)
    returns (resp: Response, ghost route: Route)
    requires db.Valid()
    modifies db
    ensures db.Valid()
    ensures route == Dispatch(httpMethod, rawPath, Clicks.InitSucceeds(old(db.tableExists), reachable, createOk), body)
    ensures resp.statusCode == if UsesTable(route) && !stmtOk then 500 else StatusCode(route)
    ensures route == Preflight ==> resp.payload == Empty
    ensures route == Health ==> resp.payload == HealthOk
    ensures route == Test ==> resp.payload == TestOk("test")
    ensures route == Preflight || route == Health || route == Test ==> db.tableExists == old(db.tableExists)
    ensures !(route == Preflight || route == Health || route == Test) ==>
      db.tableExists == (old(db.tableExists) || (reachable && createOk))
    ensures route == DbDown ==> resp.payload == Failure(DatabaseConnectionFailed)
    ensures route == MissingCountry ==> resp.payload == Failure(CountryRequired)
    ensures route == BadBody || (UsesTable(route) && !stmtOk) ==> resp.payload == Failure(Thrown)
    ensures route.NotFound? ==> resp.payload == NotFoundBody(route.path, route.httpMethod)
    ensures route == Reset && stmtOk ==> db.rows == map[] && resp.payload == ResetOk
    ensures route == Countries && stmtOk ==>
      resp.payload == CountryList(Clicks.CountriesByName(db.rows), |db.rows|)
    ensures route == Leaderboard && stmtOk ==> resp.payload == Board(Clicks.TopTwenty(db.rows))
    ensures route.Click? && stmtOk ==>
      && db.rows == Clicks.Upserted(old(db.rows), route.country, route.code)
      && resp.payload == Clicked(Clicks.TopTwenty(db.rows), db.rows[route.country].totalClicks)
    ensures !((route == Reset || route.Click?) && stmtOk) ==> db.rows == old(db.rows)
  {
    route := Dispatch(httpMethod, rawPath, Clicks.InitSucceeds(db.tableExists, reachable, createOk), body);
    if httpMethod == "OPTIONS" {
      return Response(200, Empty), route;
    }
    var path := NormalizePath(rawPath);
    if path == "health" {
      return Response(200, HealthOk), route;
    }
    if path == "test" {
      return Response(200, TestOk(path)), route;
    }
    var dbReady := db.InitDB(reachable, createOk);
    if !dbReady {
      return Response(500, Failure(DatabaseConnectionFailed)), route;
    }
    if path == "reset" && httpMethod == "POST" {
      if !stmtOk {
        return Response(500, Failure(Thrown)), route;
      }
      db.Reset();
      return Response(200, ResetOk), route;
    }
    if path == "countries" && httpMethod == "GET" {
      if !stmtOk {
        return Response(500, Failure(Thrown)), route;
      }
      var list, total := db.Countries();
      return Response(200, CountryList(list, total)), route;
    }
    if path == "leaderboard" && httpMethod == "GET" {
      if !stmtOk {
        return Response(500, Failure(Thrown)), route;
      }
      var board := db.Leaderboard();
      return Response(200, Board(board)), route;
    }
    if path == "click" && httpMethod == "POST" {
      if body.None? {
        return Response(500, Failure(Thrown)), route;
      }
      var b := body.value;
      if !Truthy(b.country) {
        return Response(400, Failure(CountryRequired)), route;
      }
      if !stmtOk {
        return Response(500, Failure(Thrown)), route;
      }
      var newCount, board := db.Click(b.country.value, CodeOrDefault(b.countryCode));
      return Response(200, Clicked(board, newCount)), route;
    }
    return Response(404, NotFoundBody(path, httpMethod)), route;
  }
}
