/**
 * The request gate that runs before every page: it reads the `accessToken`
 * cookie, rejects undecodable or expired tokens, checks the query parameters
 * of the verification and reset pages, sends signed-in users away from the
 * public pages and admits only the `super_admin` role to the protected ones.
 *
 * The JWT library is reduced to the outcome of decoding (`Cookie`), the
 * clock to the parameter `now` (milliseconds), and the cookie that a
 * response clears to the flag `clearCookie`.
 */
module RouteGate {
  import opened Wrappers
  import Text

  /** The `accessToken` cookie as the gate sees it after decoding. */
  datatype Cookie =
    | NoToken                                         // absent or empty
    | Invalid                                         // the decoder threw
    | Decoded(role: Option<string>, exp: Option<int>) // `exp` in seconds

  /** A redirect target: a path and its query parameters, in order. */
  datatype Location = Location(path: string, query: seq<(string, string)>)

  datatype Response = Next | Redirect(to: Location, clearCookie: bool)

  const SuperAdmin: string := "super_admin"

  /** Paths the gate never inspects. */
  predicate IsSkipped(path: string)
  {
    "/api" <= path || "/_next/static" <= path || "/_next/image" <= path || "/favicon.ico" <= path
  }

  /** Pages for visitors who are not signed in. */
  predicate IsPublic(path: string)
  {
    path == "/login" || path == "/register" || path == "/forgot-password" || path == "/"
  }

  /** The protected patterns `/^\/dashboard/`, ...: prefixes, with no segment boundary. */
  predicate IsProtected(path: string)
  {
    "/dashboard" <= path || "/profile" <= path || "/category" <= path ||
    "/content" <= path || "/creators" <= path || "/settings" <= path
  }

  /** `user.exp && user.exp * 1000 < Date.now()`: a missing or zero `exp` never expires. */
  predicate Expired(exp: Option<int>, now: int)
  {
    exp.Some? && exp.value != 0 && exp.value * 1000 < now
  }

  /** The token makes the gate clear the cookie and send the visitor to sign in. */
  predicate TokenRejected(cookie: Cookie, now: int)
  {
    cookie.Invalid? || (cookie.Decoded? && Expired(cookie.exp, now))
  }

  /** `searchParams.get(name)` is neither null nor empty. */
  predicate HasParam(params: map<string, string>, name: string)
  {
    name in params && params[name] != ""
  }

  function LoginAfterFailure(path: string, error: string): Location
  {
    Location("/login", [("redirect", path), ("error", error)])
  }

  /** The gate's decision for one request. */
  function Gate(path: string, params: map<string, string>, cookie: Cookie, now: int): (r: Response)
    ensures IsSkipped(path) ==> r == Next
    ensures (r.Redirect? && r.clearCookie) <==> (!IsSkipped(path) && TokenRejected(cookie, now))
  {
    if IsSkipped(path) then Next
    else if cookie.Invalid? then Redirect(LoginAfterFailure(path, "invalid-token"), true)
    else if cookie.Decoded? && Expired(cookie.exp, now) then
      Redirect(LoginAfterFailure(path, "session-expired"), true)
    else
      var signedIn := cookie.Decoded?;
      if path == "/verification" then
        if HasParam(params, "email") then Next
        else Redirect(Location("/forget", [("error", "no-email")]), false)
      else if path == "/reset" then
        if HasParam(params, "token") && HasParam(params, "email") then Next
        else Redirect(Location("/forget", [("error", "missing-params")]), false)
      else if IsPublic(path) then
        if signedIn then Redirect(Location("/dashboard", []), false) else Next
      else if IsProtected(path) then
        if !signedIn then Redirect(Location("/login", [("redirect", path)]), false)
        else if cookie.role != Some(SuperAdmin) then
          Redirect(Location("/", [("error", "unauthorized")]), false)
        else Next
      else Next
  }

  /** The URL text of a location: `path?k1=v1&k2=v2`, values inserted as they are. */
  function Href(loc: Location): string
  {
    loc.path + QueryPart(loc.query)
  }

  /** The text of a location after its path: empty, or `?` and the query text. */
  function QueryPart(query: seq<(string, string)>): string
  {
    if query == [] then "" else "?" + QueryText(query)
  }

  function QueryText(query: seq<(string, string)>): string
    decreases |query|
  {
    if query == [] then ""
    else query[0].0 + "=" + query[0].1 + (if |query| == 1 then "" else "&" + QueryText(query[1..]))
  }

  /** A skipped path starts `/a`, `/_` or `/fa`. */
  lemma SkippedShape(path: string)
    requires IsSkipped(path)
    ensures |path| >= 4 && path[0] == '/'
    ensures path[1] == 'a' || path[1] == '_' || (path[1] == 'f' && path[2] == 'a')
  {
  }

  /** A path whose second character rules out every skipped prefix is not skipped. */
  lemma NotSkipped(path: string)
    requires |path| < 4 || path[0] != '/' || (path[1] != 'a' && path[1] != '_' && !(path[1] == 'f' && path[2] == 'a'))
    ensures !IsSkipped(path)
  {
    if IsSkipped(path) {
      SkippedShape(path);
    }
  }

  /** None of the paths the gate names is a skipped one. */
  lemma NamedPathsNotSkipped()
    ensures !IsSkipped("/verification") && !IsSkipped("/reset") && !IsSkipped("/forget")
    ensures !IsSkipped("/login") && !IsSkipped("/register") && !IsSkipped("/forgot-password")
    ensures !IsSkipped("/") && !IsSkipped("/dashboard")
  {
    NotSkipped("/verification");
    NotSkipped("/reset");
    NotSkipped("/forget");
    NotSkipped("/login");
    NotSkipped("/register");
    NotSkipped("/forgot-password");
    NotSkipped("/");
    NotSkipped("/dashboard");
  }

  /** The two failure redirects carry the original path and the error code. */
  lemma LoginHref(path: string, error: string)
    ensures Href(LoginAfterFailure(path, error)) == "/login?redirect=" + path + "&error=" + error
  {
    var q := [("redirect", path), ("error", error)];
    LoginQueryText(path, error);
    assert Href(LoginAfterFailure(path, error)) == "/login" + ("?" + QueryText(q));
  }

  lemma LoginQueryText(path: string, error: string)
    ensures QueryText([("redirect", path), ("error", error)]) == "redirect=" + path + ("&error=" + error)
  {
    var q := [("redirect", path), ("error", error)];
    assert q[1..] == [("error", error)];
    assert QueryText(q[1..]) == "error" + "=" + error + "";
    assert QueryText(q) == "redirect" + "=" + path + ("&" + QueryText(q[1..]));
  }

  /** A missing or zero `exp` is never treated as expired. */
  lemma NoExpiryNeverExpires(exp: Option<int>, now: int)
    requires exp.None? || exp == Some(0)
    ensures !Expired(exp, now)
  {
  }

  /** An expired token redirects to the login page and clears the cookie, whatever the path. */
  lemma ExpiredTokenRedirects(path: string, params: map<string, string>, role: Option<string>, exp: Option<int>, now: int)
    requires !IsSkipped(path) && Expired(exp, now)
    ensures Gate(path, params, Decoded(role, exp), now)
         == Redirect(LoginAfterFailure(path, "session-expired"), true)
  {
  }

  /** A token that cannot be decoded is handled the same way, with its own error code. */
  lemma InvalidTokenRedirects(path: string, params: map<string, string>, now: int)
    requires !IsSkipped(path)
    ensures Gate(path, params, Invalid, now) == Redirect(LoginAfterFailure(path, "invalid-token"), true)
  {
  }

  /** `/verification` needs a non-empty `email`, and with one it passes for anybody. */
  lemma VerificationRoute(params: map<string, string>, cookie: Cookie, now: int)
    requires !TokenRejected(cookie, now)
    ensures Gate("/verification", params, cookie, now)
         == if HasParam(params, "email") then Next
            else Redirect(Location("/forget", [("error", "no-email")]), false)
  {
    NamedPathsNotSkipped();
  }

  /** `/reset` passes only with both a `token` and an `email`. */
  lemma ResetRoute(params: map<string, string>, cookie: Cookie, now: int)
    requires !TokenRejected(cookie, now)
    ensures Gate("/reset", params, cookie, now)
         == if HasParam(params, "token") && HasParam(params, "email") then Next
            else Redirect(Location("/forget", [("error", "missing-params")]), false)
  {
    NamedPathsNotSkipped();
  }

  /** Signed-in users of any role are sent from a public page to the dashboard. */
  lemma PublicRoute(path: string, params: map<string, string>, cookie: Cookie, now: int)
    requires IsPublic(path) && !TokenRejected(cookie, now)
    ensures Gate(path, params, cookie, now)
         == if cookie.Decoded? then Redirect(Location("/dashboard", []), false) else Next
  {
    NamedPathsNotSkipped();
  }

  /** `/forget` is on no list, so it passes once the token is acceptable. */
  lemma ForgetPasses(params: map<string, string>, cookie: Cookie, now: int)
    requires !TokenRejected(cookie, now)
    ensures Gate("/forget", params, cookie, now) == Next
  {
    NamedPathsNotSkipped();
  }

  /** No protected path is also a public, verification or reset path. */
  lemma ProtectedIsUnlisted(path: string)
    requires IsProtected(path)
    ensures !IsPublic(path) && path != "/verification" && path != "/reset" && !IsSkipped(path)
  {
    assert |path| >= 8 && path[0] == '/';
    assert path[1] in "dpcs";
  }

  /**
   * A protected path needs a signed-in `super_admin`: anonymous visitors go
   * to the login page (without an error code), other roles to `/?error=unauthorized`.
   */
  lemma ProtectedRoute(path: string, params: map<string, string>, cookie: Cookie, now: int)
    requires IsProtected(path) && !TokenRejected(cookie, now)
    ensures Gate(path, params, cookie, now)
         == if !cookie.Decoded? then Redirect(Location("/login", [("redirect", path)]), false)
            else if cookie.role != Some(SuperAdmin) then
              Redirect(Location("/", [("error", "unauthorized")]), false)
            else Next
  {
    ProtectedIsUnlisted(path);
  }

  /** The prefix test has no segment boundary: `/dashboardX` is protected. */
  lemma PrefixWithoutBoundary(now: int)
    ensures IsProtected("/dashboardX")
    ensures Gate("/dashboardX", map[], NoToken, now)
         == Redirect(Location("/login", [("redirect", "/dashboardX")]), false)
  {
    ProtectedIsUnlisted("/dashboardX");
  }

  /** Any other path passes once the token is acceptable. */
  lemma UnlistedPasses(path: string, params: map<string, string>, cookie: Cookie, now: int)
    requires !TokenRejected(cookie, now)
    requires path != "/verification" && path != "/reset" && !IsPublic(path) && !IsProtected(path)
    ensures Gate(path, params, cookie, now) == Next
  {
  }

  /** A request as the browser makes it: path, query and the cookie it holds. */
  datatype Request = Request(path: string, params: map<string, string>, cookie: Cookie)

  /** `URLSearchParams.get` semantics: the first occurrence of a name wins. */
  function QueryMap(query: seq<(string, string)>): (m: map<string, string>)
    ensures forall k :: k in m <==> exists i :: 0 <= i < |query| && query[i].0 == k
    decreases |query|
  {
    if query == [] then map[]
    else QueryMap(query[1..])[query[0].0 := query[0].1]
  }

  /**
   * `get` returns the value of the first pair with that name: a pair no
   * earlier pair shares its name with is what the map holds for the name.
   */
  lemma {:induction false} QueryMapFirst(query: seq<(string, string)>, i: nat)
    requires i < |query|
    requires forall j :: 0 <= j < i ==> query[j].0 != query[i].0
    ensures query[i].0 in QueryMap(query) && QueryMap(query)[query[i].0] == query[i].1
    decreases i
  {
    if i > 0 {
      assert query[0].0 != query[i].0;
      assert query[1..][i - 1] == query[i];
      QueryMapFirst(query[1..], i - 1);
    }
  }

  /** The position of the first `c` in `s`, or `|s|` when there is none. */
  function IndexOf(s: string, c: char): (k: nat)
    ensures k <= |s|
    decreases |s|
  {
    if s == [] || s[0] == c then 0 else 1 + IndexOf(s[1..], c)
  }

  /** The first `c` of `a + b` is the first of `a` if `a` has one, else the first of `b`. */
  lemma {:induction false} IndexOfAppend(a: string, b: string, c: char)
    ensures IndexOf(a + b, c) == if c in a then IndexOf(a, c) else |a| + IndexOf(b, c)
    decreases |a|
  {
    if a != [] {
      assert (a + b)[0] == a[0] && (a + b)[1..] == a[1..] + b;
      IndexOfAppend(a[1..], b, c);
      assert c in a <==> a[0] == c || c in a[1..];
    } else {
      assert a + b == b;
    }
  }

  /** A text joined at a `c` that its first part lacks splits back at that `c`. */
  lemma {:induction false} IndexOfJoin(a: string, c: char, b: string)
    requires c !in a
    ensures IndexOf(a + [c] + b, c) == |a|
    ensures (a + [c] + b)[..|a|] == a && (a + [c] + b)[|a| + 1..] == b
    decreases |a|
  {
    if a != [] {
      assert (a + [c] + b)[1..] == a[1..] + [c] + b;
      assert c !in a[1..];
      IndexOfJoin(a[1..], c, b);
    }
  }

  /** Without a `c` the whole text comes before it. */
  lemma {:induction false} IndexOfAbsent(s: string, c: char)
    requires c !in s
    ensures IndexOf(s, c) == |s|
    decreases |s|
  {
    if s != [] {
      assert c !in s[1..];
      IndexOfAbsent(s[1..], c);
    }
  }

  /** Percent-decoding of the escapes `%00` to `%7F`, each one ASCII character. */
  function PercentDecode(s: string): string
    decreases |s|
  {
    if s == [] then []
    else if |s| >= 3 && s[0] == '%' && Text.IsHexDigit(s[1]) && Text.IsHexDigit(s[2]) && Text.HexValue(s[1]) < 8 then
      [(Text.HexValue(s[1]) * 16 + Text.HexValue(s[2])) as char] + PercentDecode(s[3..])
    else [s[0]] + PercentDecode(s[1..])
  }

  /** A name or value of a form-encoded query: `+` is a space, then escapes are decoded. */
  function FormDecode(s: string): string
  {
    PercentDecode(PlusToSpace(s))
  }

  function PlusToSpace(s: string): string
    decreases |s|
  {
    if s == [] then [] else [if s[0] == '+' then ' ' else s[0]] + PlusToSpace(s[1..])
  }

  lemma {:induction false} PlusToSpacePlain(s: string)
    requires '+' !in s
    ensures PlusToSpace(s) == s
    decreases |s|
  {
    if s != [] {
      assert '+' !in s[1..];
      PlusToSpacePlain(s[1..]);
    }
  }

  /** Text without `+` or `%` is its own decoding. */
  lemma FormDecodePlain(s: string)
    requires '+' !in s && '%' !in s
    ensures FormDecode(s) == s
  {
    PlusToSpacePlain(s);
    PercentDecodePlain(s);
  }

  lemma {:induction false} PercentDecodePlain(s: string)
    requires '%' !in s
    ensures PercentDecode(s) == s
    decreases |s|
  {
    if s != [] {
      assert '%' !in s[1..];
      PercentDecodePlain(s[1..]);
    }
  }

  /** The text cut at every `&`. */
  function Pieces(s: string): (r: seq<string>)
    ensures |r| >= 1
    decreases |s|
  {
    var k := IndexOf(s, '&');
    if k == |s| then [s] else [s[..k]] + Pieces(s[k + 1..])
  }

  /** One `name=value` piece, cut at its first `=`; without one the value is empty. */
  function PairOf(piece: string): (string, string)
  {
    var k := IndexOf(piece, '=');
    (FormDecode(piece[..k]), if k == |piece| then "" else FormDecode(piece[k + 1..]))
  }

  /** The pairs of the non-empty pieces, in order. */
  function Pairs(pieces: seq<string>): seq<(string, string)>
    decreases |pieces|
  {
    if pieces == [] then []
    else (if pieces[0] == [] then [] else [PairOf(pieces[0])]) + Pairs(pieces[1..])
  }

  /**
   * How the browser reads a redirect's URL text: the fragment from `#` is
   * dropped, the path ends at the first `?`, and the query after it is read
   * as `URLSearchParams` reads it.
   */
  function ParseHref(text: string): (string, seq<(string, string)>)
    decreases |text|
  {
    if text == [] || text[0] == '#' then ([], [])
    else if text[0] == '?' then
      var query := text[1..];
      ([], Pairs(Pieces(query[..IndexOf(query, '#')])))
    else
      var (path, params) := ParseHref(text[1..]);
      ([text[0]] + path, params)
  }

  /** A path free of `?` and `#` is read through to the text after it. */
  lemma {:induction false} ParseHrefPath(path: string, rest: string)
    requires '?' !in path && '#' !in path
    ensures ParseHref(path + rest) == (path + ParseHref(rest).0, ParseHref(rest).1)
    decreases |path|
  {
    if path != [] {
      var text := path + rest;
      assert text[0] == path[0] && text[1..] == path[1..] + rest;
      assert path[0] in path;
      assert '?' !in path[1..] && '#' !in path[1..];
      ParseHrefPath(path[1..], rest);
      var tail := ParseHref(text[1..]);
      assert tail == (path[1..] + ParseHref(rest).0, ParseHref(rest).1);
      assert ParseHref(text) == ([text[0]] + tail.0, tail.1);
      assert [path[0]] + (path[1..] + ParseHref(rest).0) == path + ParseHref(rest).0;
    } else {
      assert path + rest == rest;
      assert path + ParseHref(rest).0 == ParseHref(rest).0;
    }
  }

  /** A name the query text carries unchanged: non-empty, with no separator or escape in it. */
  predicate PlainName(s: string)
  {
    s != [] && '=' !in s && '&' !in s && '#' !in s && '+' !in s && '%' !in s
  }

  /** A value the query text carries unchanged. */
  predicate PlainValue(s: string)
  {
    '&' !in s && '#' !in s && '+' !in s && '%' !in s
  }

  predicate PlainQuery(query: seq<(string, string)>)
  {
    forall i :: 0 <= i < |query| ==> PlainName(query[i].0) && PlainValue(query[i].1)
  }

  /**
   * The path and the parameters of the request that follows a redirect to
   * `to`, as the browser reads them back from the URL text (`FollowReadsHref`).
   * Plain pairs read back as they were written (`HrefRoundTrip`), so they are
   * taken as they are; any other query is parsed.
   */
  function Follow(to: Location): (string, map<string, string>)
  {
    (to.path, if PlainQuery(to.query) then QueryMap(to.query) else QueryMap(ParseHref(Href(to)).1))
  }

  /** The browser follows a redirect; a cleared cookie is gone on the next request. */
  function Step(req: Request, now: int): Option<Request>
  {
    match Gate(req.path, req.params, req.cookie, now)
    case Next => None
    case Redirect(to, clear) =>
      var (path, params) := Follow(to);
      Some(Request(path, params, if clear then NoToken else req.cookie))
  }

  lemma {:induction false} QueryTextNoHash(query: seq<(string, string)>)
    requires PlainQuery(query)
    ensures '#' !in QueryText(query)
    decreases |query|
  {
    if query != [] {
      QueryTextNoHash(query[1..]);
    }
  }

  /** Reading back the query text of plain pairs gives the pairs. */
  lemma {:induction false} QueryRoundTrip(query: seq<(string, string)>)
    requires query != [] && PlainQuery(query)
    ensures Pairs(Pieces(QueryText(query))) == query
    decreases |query|
  {
    var (name, value) := query[0];
    var head := name + "=" + value;
    IndexOfJoin(name, '=', value);
    FormDecodePlain(name);
    FormDecodePlain(value);
    assert PairOf(head) == query[0];
    assert '&' !in head;
    if |query| == 1 {
      IndexOfAbsent(head, '&');
      assert QueryText(query) == head;
      assert Pieces(head) == [head];
    } else {
      var rest := QueryText(query[1..]);
      assert QueryText(query) == head + "&" + rest;
      IndexOfJoin(head, '&', rest);
      assert Pieces(head + "&" + rest) == [head] + Pieces(rest);
      QueryRoundTrip(query[1..]);
      assert ([head] + Pieces(rest))[1..] == Pieces(rest);
    }
  }

  /** A query part is read from just after its `?` up to the first `#`. */
  lemma ParseQueryPart(query: seq<(string, string)>)
    ensures var qt := QueryText(query);
      ParseHref(QueryPart(query)) == ([], if query == [] then [] else Pairs(Pieces(qt[..IndexOf(qt, '#')])))
  {
    if query != [] {
      assert ("?" + QueryText(query))[0] == '?' && ("?" + QueryText(query))[1..] == QueryText(query);
    }
  }

  /** A location whose path has no `?` or `#` reads back its own path. */
  lemma HrefPath(loc: Location)
    requires '?' !in loc.path && '#' !in loc.path
    ensures ParseHref(Href(loc)) == (loc.path, ParseHref(QueryPart(loc.query)).1)
  {
    ParseHrefPath(loc.path, QueryPart(loc.query));
    ParseQueryPart(loc.query);
    assert loc.path + [] == loc.path;
  }

  /**
   * A location whose path has no `?` or `#` and whose parameters are plain
   * is read back exactly as it was written.
   */
  lemma HrefRoundTrip(loc: Location)
    requires '?' !in loc.path && '#' !in loc.path && PlainQuery(loc.query)
    ensures ParseHref(Href(loc)) == (loc.path, loc.query)
  {
    HrefPath(loc);
    ParseQueryPart(loc.query);
    if loc.query != [] {
      var qt := QueryText(loc.query);
      QueryTextNoHash(loc.query);
      IndexOfAbsent(qt, '#');
      assert qt[..|qt|] == qt;
      QueryRoundTrip(loc.query);
    }
  }

  /** Following a redirect requests what the browser reads back from its URL text. */
  lemma FollowReadsHref(to: Location)
    requires '?' !in to.path && '#' !in to.path
    ensures var (path, pairs) := ParseHref(Href(to));
      Follow(to) == (path, QueryMap(pairs))
  {
    HrefPath(to);
    if PlainQuery(to.query) {
      HrefRoundTrip(to);
    }
  }

  /** Every redirect the gate makes is followed as the browser reads its URL text. */
  lemma GateRedirectsReadBack(path: string, params: map<string, string>, cookie: Cookie, now: int)
    ensures var r := Gate(path, params, cookie, now);
      r.Redirect? ==> Follow(r.to) == (ParseHref(Href(r.to)).0, QueryMap(ParseHref(Href(r.to)).1))
  {
    var r := Gate(path, params, cookie, now);
    if r.Redirect? {
      assert '?' !in r.to.path && '#' !in r.to.path by {
        assert r.to.path in ["/login", "/forget", "/dashboard", "/"];
      }
      FollowReadsHref(r.to);
    }
  }

  /** Where the browser is after `n` redirects, or `None` once the gate has let it through. */
  function Run(req: Request, now: int, n: nat): Option<Request>
    decreases n, 0
  {
    if n == 0 then Some(req) else Continue(Step(req, now), now, n - 1)
  }

  /** Where the browser is after `n` more redirects from the outcome of one step. */
  function Continue(outcome: Option<Request>, now: int, n: nat): Option<Request>
    decreases n, 1
  {
    match outcome
    case None => None
    case Some(next) => Run(next, now, n)
  }

  /** A decoded, unexpired token whose role is not `super_admin`. */
  predicate LiveNonAdmin(cookie: Cookie, now: int)
  {
    cookie.Decoded? && !Expired(cookie.exp, now) && cookie.role != Some(SuperAdmin)
  }

  function OtherEnd(path: string): string
  {
    if path == "/" then "/dashboard" else "/"
  }

  /**
   * A signed-in user without the `super_admin` role bounces between `/` and
   * `/dashboard` for ever: `/` sends them to `/dashboard`, which sends them to
   * `/?error=unauthorized`, which is `/` again.
   */
  lemma DashboardFollow()
    ensures Follow(Location("/dashboard", [])) == ("/dashboard", map[])
  {
  }

  lemma UnauthorizedFollow()
    ensures Follow(Location("/", [("error", "unauthorized")])) == ("/", map["error" := "unauthorized"])
  {
    assert PlainName("error") && PlainValue("unauthorized");
  }

  /** One redirect of that user goes from one end to the other, keeping the cookie. */
  lemma BounceStep(req: Request, now: int)
    requires req.path == "/" || req.path == "/dashboard"
    requires LiveNonAdmin(req.cookie, now)
    ensures var next := Step(req, now);
      next.Some? && next.value.path == OtherEnd(req.path) && next.value.cookie == req.cookie
  {
    ProtectedIsUnlisted("/dashboard");
    if req.path == "/" {
      assert Gate(req.path, req.params, req.cookie, now) == Redirect(Location("/dashboard", []), false);
      DashboardFollow();
    } else {
      assert Gate(req.path, req.params, req.cookie, now) == Redirect(Location("/", [("error", "unauthorized")]), false);
      UnauthorizedFollow();
    }
  }

  /** Following `n` redirects from a redirected request is following `n - 1` from the next one. */
  lemma RunStep(req: Request, now: int, n: nat)
    requires n > 0 && Step(req, now).Some?
    ensures Run(req, now, n) == Run(Step(req, now).value, now, n - 1)
  {
  }

  lemma {:induction false} NonAdminBounces(req: Request, now: int, n: nat)
    requires req.path == "/" || req.path == "/dashboard"
    requires LiveNonAdmin(req.cookie, now)
    ensures var r := Run(req, now, n);
      && r.Some? && r.value.cookie == req.cookie
      && r.value.path == (if n % 2 == 0 then req.path else OtherEnd(req.path))
    decreases n
  {
    if n > 0 {
      var next := Step(req, now);
      BounceStep(req, now);
      RunStep(req, now, n);
      NonAdminBounces(next.value, now, n - 1);
    }
  }

  /** The same user is never let through, however many redirects are followed. */
  lemma NonAdminNeverSettles(params: map<string, string>, cookie: Cookie, now: int, n: nat)
    requires LiveNonAdmin(cookie, now)
    ensures Run(Request("/", params, cookie), now, n).Some?
  {
    NonAdminBounces(Request("/", params, cookie), now, n);
  }

  /** A `super_admin` arriving at `/` is sent to the dashboard and let in. */
  lemma AdminSettles(params: map<string, string>, exp: Option<int>, now: int)
    requires !Expired(exp, now)
    ensures var c := Decoded(Some(SuperAdmin), exp);
      && Run(Request("/", params, c), now, 1) == Some(Request("/dashboard", map[], c))
      && Step(Request("/dashboard", map[], c), now).None?
  {
    ProtectedIsUnlisted("/dashboard");
    DashboardFollow();
  }

  /** The first pair of the pairs read from `pieces` comes from its first non-empty piece. */
  lemma PairsHead(pieces: seq<string>)
    requires pieces != [] && pieces[0] != []
    ensures Pairs(pieces) != [] && Pairs(pieces)[0] == PairOf(pieces[0])
  {
  }

  /** The first pair wins, so a query that starts with `name` maps `name` to that value. */
  lemma QueryMapHead(pairs: seq<(string, string)>)
    requires pairs != []
    ensures pairs[0].0 in QueryMap(pairs) && QueryMap(pairs)[pairs[0].0] == pairs[0].1
  {
  }

  /** The first `&` of a text joined to a tail that starts with `&` is the first of the text, if any. */
  lemma FirstAmpersand(text: string, rest: string)
    requires rest != [] && rest[0] == '&'
    ensures IndexOf(text + rest, '&') == IndexOf(text, '&')
  {
    IndexOfAppend(text, rest, '&');
    if '&' !in text {
      IndexOfAbsent(text, '&');
    }
  }

  /** A text with an `&` has, as its first piece, the text before that `&`. */
  lemma PiecesFirst(s: string)
    requires IndexOf(s, '&') < |s|
    ensures Pieces(s)[0] == s[..IndexOf(s, '&')]
  {
  }

  /** In `head + text + rest`, with no `&` in `head` and one starting `rest`, the first `&` is the first of `text`, if any. */
  lemma JoinedAmpersand(head: string, text: string, rest: string)
    requires '&' !in head && rest != [] && rest[0] == '&'
    ensures IndexOf(head + text + rest, '&') == |head| + IndexOf(text, '&') < |head + text + rest|
  {
    FirstAmpersand(text, rest);
    IndexOfAppend(head, text + rest, '&');
    assert head + text + rest == head + (text + rest);
  }

  /** The query text after a rejected token, cut at its first `&`. */
  lemma LoginQueryPieces(path: string, error: string)
    ensures var qt := QueryText([("redirect", path), ("error", error)]);
      Pieces(qt)[0] == "redirect=" + path[..IndexOf(path, '&')]
  {
    var j := IndexOf(path, '&');
    var qt := QueryText([("redirect", path), ("error", error)]);
    LoginQueryText(path, error);
    JoinedAmpersand("redirect=", path, "&error=" + error);
    PiecesFirst(qt);
    assert qt[..9 + j] == "redirect=" + path[..j];
  }

  /** The first piece of that query is the `redirect` pair, its value form-decoded. */
  lemma RedirectPair(value: string)
    ensures PairOf("redirect=" + value) == ("redirect", FormDecode(value))
  {
    IndexOfJoin("redirect", '=', value);
    assert "redirect=" + value == "redirect" + ['='] + value;
    FormDecodePlain("redirect");
  }

  /**
   * What the login page reads back after a rejected token: the path is put
   * into the URL text without encoding, so `redirect` is the path up to its
   * first `&`, form-decoded.
   */
  lemma RedirectReadBack(path: string, error: string)
    requires '#' !in path && PlainValue(error)
    ensures var (to, params) := Follow(LoginAfterFailure(path, error));
      && to == "/login" && "redirect" in params
      && params["redirect"] == FormDecode(path[..IndexOf(path, '&')])
  {
    var loc := LoginAfterFailure(path, error);
    var qt := QueryText(loc.query);
    var pieces := Pieces(qt);
    LoginHrefPairs(path, error);
    FollowReadsHref(loc);
    assert Follow(loc) == ("/login", QueryMap(Pairs(pieces)));
    LoginQueryPieces(path, error);
    PairsHead(pieces);
    RedirectPair(path[..IndexOf(path, '&')]);
    QueryMapHead(Pairs(pieces));
  }

  /** The URL text after a rejected token is read as `/login` and the pairs of its query text. */
  lemma LoginHrefPairs(path: string, error: string)
    requires '#' !in path && '#' !in error
    ensures var loc := LoginAfterFailure(path, error);
      ParseHref(Href(loc)) == ("/login", Pairs(Pieces(QueryText(loc.query))))
  {
    var loc := LoginAfterFailure(path, error);
    var qt := QueryText(loc.query);
    assert ParseHref(Href(loc)) == ("/login", Pairs(Pieces(qt[..IndexOf(qt, '#')]))) by {
      HrefPath(loc);
      ParseQueryPart(loc.query);
    }
    assert '#' !in qt by {
      LoginQueryText(path, error);
    }
    IndexOfAbsent(qt, '#');
    assert qt[..|qt|] == qt;
  }

  /** A path without `&`, `+` or `%` is read back unchanged. */
  lemma PlainReadBack(path: string)
    ensures PlainValue(path) ==> FormDecode(path[..IndexOf(path, '&')]) == path
  {
    if PlainValue(path) {
      IndexOfAbsent(path, '&');
      assert path[..|path|] == path;
      FormDecodePlain(path);
    }
  }

  /** A path with an `&` loses its tail: `/a&b` is read back as `/a`. */
  lemma AmpersandCutsRedirect(error: string)
    requires PlainValue(error)
    ensures var params := Follow(LoginAfterFailure("/a&b", error)).1;
      "redirect" in params && params["redirect"] == "/a"
  {
    RedirectReadBack("/a&b", error);
    assert FormDecode("/a&b"[..IndexOf("/a&b", '&')]) == "/a" by {
      IndexOfAppend("/a", "&b", '&');
      assert "/a" + "&b" == "/a&b";
      assert ("&b")[0] == '&';
      FormDecodePlain("/a");
    }
  }

  /** A `+` in the path is read back as a space: `/a+b` becomes `/a b`. */
  lemma PlusBecomesSpace(error: string)
    requires PlainValue(error)
    ensures var params := Follow(LoginAfterFailure("/a+b", error)).1;
      "redirect" in params && params["redirect"] == "/a b"
  {
    RedirectReadBack("/a+b", error);
    PlusDecoded();
  }

  lemma PlusDecoded()
    ensures FormDecode("/a+b"[..IndexOf("/a+b", '&')]) == "/a b"
  {
    IndexOfAbsent("/a+b", '&');
    assert "/a+b"[..4] == "/a+b";
    assert PlusToSpace("/a+b") == "/a b";
    PercentDecodePlain("/a b");
  }

  /**
   * A rejected token sends the browser to the login page without its cookie,
   * and the login page then lets it through. The `redirect` parameter is what
   * `RedirectReadBack` says: a path without `&`, `+` or `%` comes back
   * unchanged. (A request path never holds `#`: the fragment stays in the browser.)
   */
  lemma RejectedTokenLandsOnLogin(req: Request, now: int)
    requires !IsSkipped(req.path) && TokenRejected(req.cookie, now) && '#' !in req.path
    ensures var r := Step(req, now);
      && r.Some? && r.value.path == "/login" && r.value.cookie == NoToken
      && "redirect" in r.value.params
      && r.value.params["redirect"] == FormDecode(req.path[..IndexOf(req.path, '&')])
      && (PlainValue(req.path) ==> r.value.params["redirect"] == req.path)
      && Step(r.value, now).None?
  {
    var error := if req.cookie.Invalid? then "invalid-token" else "session-expired";
    var loc := LoginAfterFailure(req.path, error);
    assert Gate(req.path, req.params, req.cookie, now) == Redirect(loc, true);
    assert PlainValue(error);
    RedirectReadBack(req.path, error);
    PlainReadBack(req.path);
    var next := Request("/login", Follow(loc).1, NoToken);
    assert Step(req, now) == Some(next);
    PublicRoute("/login", next.params, NoToken, now);
  }
}
