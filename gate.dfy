/** The session gate (src/middleware.ts): which paths it runs on, its fail-open
    configuration test, the cookie callbacks it hands to the auth client, and the
    redirect decision. */
module Gate {
  import opened Supabase

  predicate StartsWith(s: string, prefix: string)
  {
    |prefix| <= |s| && s[..|prefix|] == prefix
  }

  predicate EndsWith(s: string, suffix: string)
  {
    |suffix| <= |s| && s[|s| - |suffix|..] == suffix
  }

  const LoginPath: string := "/login"
  const RootPath: string := "/"

  /** The gate's own test at the top of `middleware`: URL or key falsy, or the URL is the
      placeholder. */
  predicate Unconfigured(url: Option<string>, key: Option<string>)
  {
    !Truthy(url) || !Truthy(key) || url == Some(PlaceholderUrl)
  }

  /** The gate fails open exactly when `isSupabaseConfigured()` would be false. */
  lemma FailOpenIffNotConfigured(url: Option<string>, key: Option<string>)
    ensures Unconfigured(url, key) <==> !IsConfigured(url, key)
  {
  }

  // ---------------------------------------------------------------- the matcher

  /** `favicon.ico` inside the regular expression: the dot matches any character. */
  predicate FaviconIco(rest: string)
  {
    |rest| >= 11 && rest[..7] == "favicon" && rest[8..11] == "ico"
  }

  /** `.*\.(?:svg|png|jpg|jpeg|gif|webp)$`: lower-case image extensions only. */
  predicate ImageFile(rest: string)
  {
    EndsWith(rest, ".svg") || EndsWith(rest, ".png") || EndsWith(rest, ".jpg") ||
    EndsWith(rest, ".jpeg") || EndsWith(rest, ".gif") || EndsWith(rest, ".webp")
  }

  /** The negative lookahead of the matcher, applied to the text after the leading "/". */
  predicate Excluded(rest: string)
  {
    StartsWith(rest, "_next/static") || StartsWith(rest, "_next/image") ||
    FaviconIco(rest) || ImageFile(rest)
  }

  /** `config.matcher`: the middleware runs on `path` iff this holds. */
  predicate Gated(path: string)
  {
    |path| >= 1 && path[0] == '/' && !Excluded(path[1..])
  }

  /** Static assets and images are never gated, whatever precedes the extension;
      an upper-case extension is. */
  lemma ImagesAndAssetsNotGated(dir: string, base: string)
    ensures !Gated("/" + dir + base + ".png")
    ensures !Gated("/_next/static/" + base)
    ensures !Gated("/_next/image" + base)
    ensures Gated("/" + "logo.PNG")
  {
    var p := "/" + dir + base + ".png";
    assert p[1..] == dir + base + ".png";
    assert EndsWith(p[1..], ".png");
    var q := "/_next/static/" + base;
    assert q[1..][..12] == "_next/static";
    var r := "/_next/image" + base;
    assert r[1..][..11] == "_next/image";
    var s := "/" + "logo.PNG";
    assert s[1..] == "logo.PNG";
    assert !StartsWith(s[1..], "_next/static") by { assert |s[1..]| < 12; }
    assert !StartsWith(s[1..], "_next/image") by { assert s[1..][0] != '_'; }
    assert !FaviconIco(s[1..]);
    assert !EndsWith(s[1..], ".png") by { assert s[1..][5] == 'P'; }
    assert !EndsWith(s[1..], ".svg") by { assert s[1..][5] == 'P'; }
    assert !EndsWith(s[1..], ".jpg") by { assert s[1..][5] == 'P'; }
    assert !EndsWith(s[1..], ".gif") by { assert s[1..][5] == 'P'; }
    assert !EndsWith(s[1..], ".jpeg") by { assert s[1..][4] == '.'; }
    assert !EndsWith(s[1..], ".webp") by { assert s[1..][4] == '.'; }
  }

  /** Application pages are gated, the login page included. */
  lemma PagesGated()
    ensures Gated(RootPath) && Gated("/dashboard") && Gated(LoginPath)
  {
    PlainPageGated(RootPath);
    PlainPageGated("/dashboard");
    PlainPageGated(LoginPath);
  }

  /** A path whose text after "/" starts with neither "_" nor "f" and has no dot four or
      five characters from its end is gated. */
  lemma PlainPageGated(path: string)
    requires |path| >= 1 && path[0] == '/'
    requires |path| >= 2 ==> path[1] != '_' && path[1] != 'f'
    requires |path| >= 5 ==> path[|path| - 4] != '.'
    requires |path| >= 6 ==> path[|path| - 5] != '.'
    ensures Gated(path)
  {
    var rest := path[1..];
    assert !StartsWith(rest, "_next/static") && !StartsWith(rest, "_next/image") && !FaviconIco(rest) by {
      if |rest| >= 1 { assert rest[0] == path[1]; }
    }
    assert !EndsWith(rest, ".svg") && !EndsWith(rest, ".png") && !EndsWith(rest, ".jpg") && !EndsWith(rest, ".gif") by {
      if |rest| >= 4 { assert rest[|rest| - 4] == path[|path| - 4]; }
    }
    assert !EndsWith(rest, ".jpeg") && !EndsWith(rest, ".webp") by {
      if |rest| >= 5 { assert rest[|rest| - 5] == path[|path| - 5]; }
    }
  }

  /** Any one character stands for the dot of `favicon.ico`. */
  lemma FaviconNotGated(c: char)
    ensures !Gated("/favicon" + [c] + "ico")
  {
    var rest := ("/favicon" + [c] + "ico")[1..];
    assert rest == "favicon" + [c] + "ico";
    assert rest[..7] == "favicon" && rest[8..11] == "ico";
  }

  // ---------------------------------------------------------------- responses

  /** The parts of `req.nextUrl`; a redirect target is a clone with a new pathname. */
  datatype Url = Url(origin: string, pathname: string, search: string, hash: string)

  /** `NextResponse.next(...)` (with or without the request headers forwarded, and with the
      cookies set on it) or `NextResponse.redirect(location)`. */
  datatype Response = Next(forwardsRequest: bool, cookies: map<string, string>) | Redirect(location: Url)

  /** `NextResponse.next()`: the request proceeds untouched. */
  const PlainNext: Response := Next(false, map[])

  /** The decision after `getSession()`: a redirect when the session state equals "on the
      login page", otherwise the current response. */
  function Route(hasSession: bool, url: Url, current: Response): (r: Response)
    requires current.Next?
    ensures r.Redirect? <==> (hasSession <==> StartsWith(url.pathname, LoginPath))
    ensures r.Redirect? ==> r.location == url.(pathname := r.location.pathname)
    ensures r.Redirect? ==> r.location.pathname == if hasSession then RootPath else LoginPath
    ensures !r.Redirect? ==> r == current
  {
    if !hasSession && !StartsWith(url.pathname, LoginPath) then Redirect(url.(pathname := LoginPath))
    else if hasSession && StartsWith(url.pathname, LoginPath) then Redirect(url.(pathname := RootPath))
    else current
  }

  /** Following a redirect with the same session state is let through: no redirect loop. */
  lemma NoRedirectLoop(hasSession: bool, url: Url, current: Response, later: Response)
    requires current.Next? && later.Next?
    requires Route(hasSession, url, current).Redirect?
    ensures Route(hasSession, Route(hasSession, url, current).location, later) == later
  {
    var target := Route(hasSession, url, current).location;
    if hasSession {
      assert !StartsWith(target.pathname, LoginPath) by { assert |target.pathname| < |LoginPath|; }
    } else {
      assert target.pathname[..|LoginPath|] == LoginPath;
    }
  }

  /** The login test is a prefix test: "/login/x" and "/loginfoo" count as the login page. */
  lemma LoginIsPrefix(url: Url, current: Response)
    requires current.Next?
    requires url.pathname == "/login/x" || url.pathname == "/loginfoo"
    ensures Route(false, url, current) == current
    ensures Route(true, url, current) == Redirect(url.(pathname := RootPath))
  {
    assert url.pathname[..|LoginPath|] == LoginPath;
  }

  // ---------------------------------------------------------------- cookies

  /** One call the auth client makes on the cookie adapter: `set(name, value)` or
      `remove(name)`. */
  datatype CookieWrite = SetCookie(name: string, value: string) | RemoveCookie(name: string)

  /** The value a write stores: `remove` stores the empty string. */
  function Stored(w: CookieWrite): string
  {
    match w
    case SetCookie(_, v) => v
    case RemoveCookie(_) => ""
  }

  /** The request cookie store after `writes`, in order. */
  function Applied(jar: map<string, string>, writes: seq<CookieWrite>): map<string, string>
  {
    if writes == [] then jar
    else
      var w := writes[|writes| - 1];
      Applied(jar, writes[..|writes| - 1])[w.name := Stored(w)]
  }

  /** The response after `writes`: rebuilt on each write, so it holds the last one only. */
  function LastResponse(writes: seq<CookieWrite>): Response
  {
    if writes == [] then Next(true, map[])
    else
      var w := writes[|writes| - 1];
      Next(true, map[w.name := Stored(w)])
  }

  /** The request store keeps every name ever written, with the value of its latest write,
      and every other cookie as it was. */
  lemma {:induction false} AppliedAccumulates(jar: map<string, string>, writes: seq<CookieWrite>, name: string)
    ensures name in Applied(jar, writes) <==> name in jar || exists i :: 0 <= i < |writes| && writes[i].name == name
    ensures (forall i :: 0 <= i < |writes| ==> writes[i].name != name) && name in jar ==>
              Applied(jar, writes)[name] == jar[name]
    ensures forall i :: 0 <= i < |writes| && writes[i].name == name &&
                        (forall j :: i < j < |writes| ==> writes[j].name != name) ==>
              Applied(jar, writes)[name] == Stored(writes[i])
  {
    if writes != [] {
      var n := |writes| - 1;
      var init := writes[..n];
      AppliedAccumulates(jar, init, name);
      assert forall i :: 0 <= i < n ==> init[i] == writes[i];
      if writes[n].name != name {
        forall i | 0 <= i < |writes| && writes[i].name == name &&
                   (forall j :: i < j < |writes| ==> writes[j].name != name)
          ensures Applied(jar, writes)[name] == Stored(writes[i])
        {
          assert init[i] == writes[i];
        }
      }
    }
  }

  /** The returned response carries exactly one cookie, the last write, once there was one. */
  lemma ResponseHoldsLastWrite(writes: seq<CookieWrite>)
    requires writes != []
    ensures LastResponse(writes).Next? && LastResponse(writes).forwardsRequest
    ensures LastResponse(writes).cookies.Keys == {writes[|writes| - 1].name}
    ensures LastResponse(writes).cookies[writes[|writes| - 1].name] == Stored(writes[|writes| - 1])
  {
  }

  /** The incoming request; its cookie store is what `req.cookies.set` changes. */
  class Request {
    const url: Url
    var cookies: map<string, string>

    constructor (url: Url, cookies: map<string, string>)
      ensures this.url == url && this.cookies == cookies
    {
      this.url := url;
      this.cookies := cookies;
    }
  }

  /** The `cookies` adapter handed to `createServerClient`, together with the `response`
      variable its callbacks reassign. */
  class CookieAdapter {
    const req: Request
    var response: Response

    /** `let response = NextResponse.next({ request: { headers: req.headers } })`. */
    constructor (req: Request)
      ensures this.req == req && response == Next(true, map[])
    {
      this.req := req;
      response := Next(true, map[]);
    }

    /** `get(name)`: the request's cookie value, if any. */
    function Get(name: string): (v: Option<string>)
      reads req
      ensures v.Some? <==> name in req.cookies
      ensures v.Some? ==> v.value == req.cookies[name]
    {
      if name in req.cookies then Some(req.cookies[name]) else None
    }

    /** `set(name, value)`: write to the request, rebuild the response, write to it. */
    method Set(name: string, value: string)
      modifies this, req
      ensures req.cookies == old(req.cookies)[name := value]
      ensures response == Next(true, map[name := value])
    {
      req.cookies := req.cookies[name := value];
      response := Next(true, map[]);
      response := response.(cookies := response.cookies[name := value]);
    }

    /** `remove(name)`: the same as `set(name, '')`. */
    method Remove(name: string)
      modifies this, req
      ensures req.cookies == old(req.cookies)[name := ""]
      ensures response == Next(true, map[name := ""])
    {
      req.cookies := req.cookies[name := ""];
      response := Next(true, map[]);
      response := response.(cookies := response.cookies[name := ""]);
    }
  }

  /** What `createServerClient` and `getSession()` end in: an exception, or a session that
      is present or absent. */
  datatype SessionLookup = Threw | Found(present: bool)

  /** `middleware(req)`.  `writes` are the adapter calls the auth client makes while it is
      created and while it reads the session; `lookup` is how that ends. */
  method Middleware(req: Request, url: Option<string>, key: Option<string>,
                    writes: seq<CookieWrite>, lookup: SessionLookup) returns (res: Response)
    modifies req
    ensures Unconfigured(url, key) ==> res == PlainNext && req.cookies == old(req.cookies)
    ensures !Unconfigured(url, key) ==> req.cookies == Applied(old(req.cookies), writes)
    ensures !Unconfigured(url, key) && lookup.Threw? ==> res == PlainNext
    ensures !Unconfigured(url, key) && lookup.Found? ==>
              res == Route(lookup.present, req.url, LastResponse(writes))
  {
    if !Truthy(url) || !Truthy(key) || url.value == PlaceholderUrl {
      return PlainNext;
    }
    var adapter := new CookieAdapter(req);
    var i := 0;
    while i < |writes|
      invariant i <= |writes|
      invariant adapter.req == req
      invariant req.cookies == Applied(old(req.cookies), writes[..i])
      invariant adapter.response == LastResponse(writes[..i])
      modifies req, adapter
    {
      match writes[i] {
        case SetCookie(name, value) => adapter.Set(name, value);
        case RemoveCookie(name) => adapter.Remove(name);
      }
      assert writes[..i + 1][..i] == writes[..i];
      i := i + 1;
    }
    assert writes[..i] == writes;
    if lookup.Threw? {
      return PlainNext;
    }
    res := Route(lookup.present, req.url, adapter.response);
  }

  /** A request as the framework serves it: the middleware runs only on gated paths. */
  method Serve(req: Request, url: Option<string>, key: Option<string>,
               writes: seq<CookieWrite>, lookup: SessionLookup) returns (res: Response)
    modifies req
    ensures !Gated(req.url.pathname) ==> res == PlainNext && req.cookies == old(req.cookies)
    ensures Gated(req.url.pathname) && Unconfigured(url, key) ==> res == PlainNext
    ensures Gated(req.url.pathname) && Unconfigured(url, key) ==> req.cookies == old(req.cookies)
    ensures Gated(req.url.pathname) && !Unconfigured(url, key) ==>
              req.cookies == Applied(old(req.cookies), writes)
    ensures Gated(req.url.pathname) && !Unconfigured(url, key) && lookup.Threw? ==> res == PlainNext
    ensures Gated(req.url.pathname) && !Unconfigured(url, key) && lookup.Found? ==>
              res == Route(lookup.present, req.url, LastResponse(writes))
  {
    if !Gated(req.url.pathname) {
      return PlainNext;
    }
    res := Middleware(req, url, key, writes, lookup);
  }
}
