/** The public host split and the whole redirect decision
    (app/(marketing)/public-origin.ts, proxy.ts). */
module PublicRedirect {
  import opened Wrappers

  const MARKETING := "tryzoen.com"
  const APP := "app.tryzoen.com"
  const WWW := "www.tryzoen.com"
  const LEGACY := "zoen.tironi.xyz"

  /** `search` is empty or starts with '?'. */
  datatype Url = Url(host: string, path: string, search: string)

  function Lower(s: string): string {
    seq(|s|, i requires 0 <= i < |s| => if 'A' <= s[i] <= 'Z' then (s[i] as int + 32) as char else s[i])
  }

  predicate Infrastructure(path: string) {
    || path in {"/api/health", "/eve/v1/health", "/icon", "/favicon.ico"}
    || "/eve/" <= path || "/_matrix/" <= path || "/internal/" <= path
    || "/api/channels/telegram" <= path || "/api/channels/kapso" <= path
  }

  predicate MarketingBelow(path: string) { "/docs/" <= path || "/pricing/" <= path || "/get-started/" <= path }

  predicate MarketingPath(path: string) {
    path in {"/", "/welcome", "/docs", "/pricing", "/get-started"} || MarketingBelow(path)
  }

  /** Lines 69-105 of public-origin.ts. */
  function PublicHostRedirect(u: Url): Option<Url> {
    var host := Lower(u.host);
    if Infrastructure(u.path) then None
    else if host == LEGACY || host == WWW then
      if u.path == "/" || u.path == "/welcome" then Some(Url(MARKETING, "/", u.search))
      else if MarketingPath(u.path) then Some(u.(host := MARKETING))
      else Some(u.(host := APP))
    else if host == MARKETING then
      if u.path == "/welcome" then Some(Url(MARKETING, "/", u.search))
      else if !MarketingPath(u.path) then Some(u.(host := APP))
      else None
    else if host == APP then
      if u.path == "/welcome" then Some(Url(MARKETING, "/", u.search))
      else if MarketingPath(u.path) && u.path != "/" then Some(u.(host := MARKETING))
      else None
    else None
  }

  lemma CanonicalHostsAreLower()
    ensures Lower(MARKETING) == MARKETING && Lower(APP) == APP && Lower(WWW) == WWW && Lower(LEGACY) == LEGACY
  {
  }

  predicate Plain(path: string) { !Infrastructure(path) && !MarketingBelow(path) }

  /** The three paths redirects lead to are neither infrastructure nor below a marketing section. */
  lemma RedirectPathsArePlain()
    ensures Plain("/") && Plain("/welcome") && Plain("/sign-in")
  {
    assert "/sign-in"[1] == 's' && "/welcome"[1] == 'w';
    assert "/eve/"[1] == 'e' && "/_matrix/"[1] == '_' && "/internal/"[1] == 'i' && "/api/channels/telegram"[1] == 'a'
           && "/api/channels/kapso"[1] == 'a' && "/docs/"[1] == 'd' && "/pricing/"[1] == 'p' && "/get-started/"[1] == 'g';
  }

  /** A target is never relocated again. */
  lemma RelocationSettles(u: Url)
    requires PublicHostRedirect(u).Some?
    ensures PublicHostRedirect(PublicHostRedirect(u).value).None?
    ensures PublicHostRedirect(u).value.host in {MARKETING, APP}
  {
    CanonicalHostsAreLower();
  }

  predicate OwnHost(host: string) { Lower(host) in {MARKETING, APP, WWW, LEGACY} }

  /** Where a page lives. Both the apex and the app have a front page. */
  function Home(u: Url): string {
    if u.path == "/" && Lower(u.host) == APP then APP else if MarketingPath(u.path) then MARKETING else APP
  }

  /** A request is relocated exactly if it comes to one of our hosts that is not the page's home, or asks for the preview
      page; never for infrastructure. It is relocated to the same page and search there, the preview page to the front page. */
  lemma RelocatedIffNotAtHome(u: Url)
    ensures PublicHostRedirect(u).Some? <==>
              !Infrastructure(u.path) && OwnHost(u.host) && (Lower(u.host) != Home(u) || u.path == "/welcome")
    ensures PublicHostRedirect(u).Some? ==>
              PublicHostRedirect(u).value == Url(Home(u), if u.path == "/welcome" then "/" else u.path, u.search)
  {
    CanonicalHostsAreLower();
  }

  // ---------------------------------------------------------------- the proxy

  /** What stays the same along one chain: the caller's session, its user agent, and URL encoding. */
  datatype Caller = Caller(session: bool, crawler: bool, encode: string -> string)

  datatype Decision = Next | Landing | Redirect(target: Url)

  const AGENT_CARD := "/.well-known/agent-card.json"

  predicate AgentPath(path: string) {
    "/agents/" <= path
    && var rest := path[8..];
       exists n | 3 <= n <= 30 ::
         n <= |rest| && (forall i | 0 <= i < n :: 'a' <= rest[i] <= 'z' || '0' <= rest[i] <= '9' || rest[i] == '_')
         && rest[n..] in {"", AGENT_CARD}
  }

  predicate PublicPath(path: string) {
    || path in {"/sign-in", "/sign-in/device", "/get-started", "/welcome", "/pricing", "/docs", "/icon", "/favicon.ico",
                "/api/health", "/api/channels/telegram", "/api/channels/kapso", "/internal/channel-input/respond",
                "/eve/v1/health", "/eve/v1/dev/schedules/dynamic"}
    || "/api/auth/" <= path || "/_matrix/app/v1/" <= path || "/internal/scheduled-run/" <= path || AgentPath(path)
  }

  function SignIn(c: Caller, u: Url, callback: string): Decision {
    Redirect(Url(u.host, "/sign-in", "?callbackUrl=" + c.encode(callback)))
  }

  /** Lines 63-122 of proxy.ts. */
  function Proxy(c: Caller, u: Url): Decision {
    var relocated := PublicHostRedirect(u);
    if u.path == "/welcome" && c.crawler then
      if Lower(u.host) == MARKETING || relocated.None? then Next else Redirect(Url(MARKETING, "/welcome", u.search))
    else if relocated.Some? then Redirect(relocated.value)
    else if u.path == "/welcome" then Redirect(u.(path := "/"))
    else if u.path == "/" && Lower(u.host) == MARKETING then Landing
    else if PublicPath(u.path) then Next
    else if c.session then Next
    else if u.path == "/" then
      if Lower(u.host) == APP then SignIn(c, u, "/" + u.search) else Landing
    else SignIn(c, u, u.path + u.search)
  }

  /** Still to be relocated, and how far the path is from sign-in. */
  function Measure(c: Caller, u: Url): nat {
    (if PublicHostRedirect(u).Some? && !(c.crawler && u.path == "/welcome" && Lower(u.host) == MARKETING) then 1 else 0)
    + (if u.path == "/sign-in" then 0 else if u.path == "/welcome" then 3 else 2)
  }

  lemma RedirectsGetCloser(c: Caller, u: Url)
    requires Proxy(c, u).Redirect?
    ensures Measure(c, Proxy(c, u).target) < Measure(c, u)
  {
    CanonicalHostsAreLower();
    RedirectPathsArePlain();
    if PublicHostRedirect(u).Some? {
      RelocationSettles(u);
    }
  }

  /** Every redirect a caller follows, in order. */
  function Chain(c: Caller, u: Url): seq<Url>
    decreases Measure(c, u)
  {
    match Proxy(c, u)
    case Redirect(target) => RedirectsGetCloser(c, u); [target] + Chain(c, target)
    case _ => []
  }

  function End(c: Caller, u: Url): Url {
    if Chain(c, u) == [] then u else Chain(c, u)[|Chain(c, u)| - 1]
  }

  /** The chain that takes three hops: onto the apex, to its sign-in, and from there to the app's. */
  predicate TakesThree(c: Caller, u: Url) {
    !c.session && Lower(u.host) in {WWW, LEGACY, APP} && MarketingBelow(u.path)
  }

  lemma SignInEnds(c: Caller, u: Url)
    requires u.path == "/sign-in"
    ensures Chain(c, u) == if Lower(u.host) in {WWW, LEGACY, MARKETING} then [u.(host := APP)] else []
  {
    CanonicalHostsAreLower();
    RedirectPathsArePlain();
    var app := u.(host := APP);
    assert Chain(c, app) == [];
  }

  /** From a URL that is not relocated: straight to the end, or by way of sign-in. */
  lemma SettledTakesAtMostTwo(c: Caller, u: Url)
    requires PublicHostRedirect(u).None? && u.path != "/welcome"
    ensures |Chain(c, u)| <= 2
    ensures |Chain(c, u)| == 2 ==> !c.session && u.path != "/" && !PublicPath(u.path) && Lower(u.host) != APP
    ensures !c.session && Lower(u.host) == MARKETING && MarketingBelow(u.path) && !PublicPath(u.path) ==> |Chain(c, u)| == 2
  {
    CanonicalHostsAreLower();
    match Proxy(c, u)
    case Redirect(target) =>
      assert Chain(c, u) == [target] + Chain(c, target);
      SignInEnds(c, target);
    case _ =>
  }

  lemma BelowIsNotPublic(path: string)
    requires MarketingBelow(path)
    ensures !PublicPath(path) && !Infrastructure(path) && MarketingPath(path)
    ensures path !in {"/", "/welcome", "/sign-in"}
  {
    BelowStarts(path);
    NoInfrastructure(path);
    NotAmongPublic(path);
  }

  /** How a path below a marketing section starts, and that it goes on past the section's name. */
  lemma BelowStarts(path: string)
    requires MarketingBelow(path)
    ensures |path| >= 6 && path[1] in {'d', 'p', 'g'}
    ensures path !in {"/", "/welcome", "/sign-in", "/sign-in/device", "/get-started", "/pricing", "/docs"}
  {
    assert "/docs/"[1] == 'd' && "/pricing/"[1] == 'p' && "/get-started/"[1] == 'g';
    assert "/docs/" <= path ==> path[5] == '/';
    assert "/pricing/" <= path ==> path[8] == '/';
    assert "/get-started/" <= path ==> path[12] == '/';
  }

  lemma NoInfrastructure(path: string)
    requires |path| >= 6 && path[1] in {'d', 'p', 'g'}
    ensures !Infrastructure(path)
  {
    assert "/eve/"[1] == 'e' && "/_matrix/"[1] == '_' && "/internal/"[1] == 'i' && "/api/channels/telegram"[1] == 'a'
           && "/api/channels/kapso"[1] == 'a';
  }

  lemma NotAmongPublic(path: string)
    requires |path| >= 6 && path[1] in {'d', 'p', 'g'}
    requires path !in {"/sign-in", "/sign-in/device", "/get-started", "/welcome", "/pricing", "/docs"}
    ensures !PublicPath(path)
  {
    assert "/agents/"[1] == 'a' && "/api/auth/"[1] == 'a' && "/_matrix/app/v1/"[1] == '_' && "/internal/scheduled-run/"[1] == 'i';
  }

  /** Every chain ends within three hops at a URL that redirects nowhere, and takes three exactly for a
      signed-out caller below /docs/, /pricing/ or /get-started/ on a host other than the apex. */
  lemma ChainsEndWithinThree(c: Caller, u: Url)
    ensures |Chain(c, u)| <= 3
    ensures |Chain(c, u)| == 3 <==> TakesThree(c, u)
    ensures !Proxy(c, End(c, u)).Redirect?
    decreases Measure(c, u)
  {
    CanonicalHostsAreLower();
    ChainEnds(c, u);
    if MarketingBelow(u.path) {
      BelowIsNotPublic(u.path);
    }
    if u.path == "/welcome" {
      WelcomeChains(c, u);
    } else if PublicHostRedirect(u).Some? {
      RelocatedChains(c, u);
    } else {
      SettledTakesAtMostTwo(c, u);
    }
  }

  lemma RelocatedChains(c: Caller, u: Url)
    requires PublicHostRedirect(u).Some? && u.path != "/welcome"
    requires MarketingBelow(u.path) ==> !PublicPath(u.path) && !Infrastructure(u.path)
    ensures |Chain(c, u)| <= 3 && (|Chain(c, u)| == 3 <==> TakesThree(c, u))
  {
    var target := PublicHostRedirect(u).value;
    CanonicalHostsAreLower();
    RelocationSettles(u);
    assert Chain(c, u) == [target] + Chain(c, target);
    SettledTakesAtMostTwo(c, target);
  }

  lemma WelcomeChains(c: Caller, u: Url)
    requires u.path == "/welcome"
    ensures |Chain(c, u)| <= 1 && !MarketingBelow(u.path)
  {
    CanonicalHostsAreLower();
    RedirectPathsArePlain();
    match Proxy(c, u)
    case Redirect(target) =>
      assert Chain(c, u) == [target] + Chain(c, target);
      assert !Proxy(c, target).Redirect?;
    case _ =>
  }

  lemma {:induction false} ChainEnds(c: Caller, u: Url)
    ensures !Proxy(c, End(c, u)).Redirect?
    decreases Measure(c, u)
  {
    match Proxy(c, u)
    case Redirect(target) =>
      RedirectsGetCloser(c, u);
      ChainEnds(c, target);
      assert Chain(c, u) == [target] + Chain(c, target);
      assert End(c, u) == End(c, target);
    case _ =>
  }

  // ---------------------------------------------------------------- who gets where

  /** Nothing but the landing page and the public paths is served without a session. */
  lemma OnlySessionsPass(c: Caller, u: Url)
    ensures Proxy(c, u) == Next ==> c.session || PublicPath(u.path)
    ensures Proxy(c, u) == Landing ==> u.path == "/"
  {
  }

  /** Wherever a signed-out caller asks for a protected page, the chain ends at a sign-in page that knows the way back:
      the app's if the host is one of ours, the host's own if not. */
  lemma SignedOutIsAskedToSignIn(c: Caller, u: Url)
    requires !c.session && u.path != "/" && !PublicPath(u.path)
    ensures var end := End(c, u);
            && end.path == "/sign-in" && end.search == "?callbackUrl=" + c.encode(u.path + u.search)
            && (if OwnHost(u.host) then Lower(end.host) == APP else end.host == u.host)
  {
    if PublicHostRedirect(u).Some? {
      var target := PublicHostRedirect(u).value;
      RelocationKeepsPage(u);
      RelocationSettles(u);
      SettledIsAskedToSignIn(c, target);
      EndAfter(c, u, target);
    } else {
      SettledIsAskedToSignIn(c, u);
    }
  }

  lemma EndAfter(c: Caller, u: Url, target: Url)
    requires Proxy(c, u) == Redirect(target)
    ensures Chain(c, u) == [target] + Chain(c, target) && End(c, u) == End(c, target)
  {
  }

  /** Only the preview page is moved to another path. */
  lemma RelocationKeepsPage(u: Url)
    requires PublicHostRedirect(u).Some? && u.path != "/welcome"
    ensures OwnHost(u.host) && OwnHost(PublicHostRedirect(u).value.host)
    ensures PublicHostRedirect(u).value.path == u.path && PublicHostRedirect(u).value.search == u.search
  {
    CanonicalHostsAreLower();
  }

  lemma SettledIsAskedToSignIn(c: Caller, u: Url)
    requires !c.session && u.path != "/" && !PublicPath(u.path) && PublicHostRedirect(u).None?
    ensures var end := End(c, u);
            && Chain(c, u) != []
            && end.path == "/sign-in" && end.search == "?callbackUrl=" + c.encode(u.path + u.search)
            && (if OwnHost(u.host) then Lower(end.host) == APP else end.host == u.host)
  {
    CanonicalHostsAreLower();
    var signIn := Url(u.host, "/sign-in", "?callbackUrl=" + c.encode(u.path + u.search));
    assert Proxy(c, u) == Redirect(signIn);
    assert Chain(c, u) == [signIn] + Chain(c, signIn);
    SignInEnds(c, signIn);
  }

  /** With a session, and on public paths, nobody is sent anywhere but to the page's canonical host. */
  lemma NoDetours(c: Caller, u: Url)
    requires u.path != "/welcome" && (c.session || PublicPath(u.path))
    ensures Chain(c, u) == if PublicHostRedirect(u).Some? then [PublicHostRedirect(u).value] else []
    ensures var end := End(c, u);
            && end.path == u.path && end.search == u.search
            && (Proxy(c, end) == if u.path == "/" && Lower(end.host) == MARKETING then Landing else Next)
  {
    CanonicalHostsAreLower();
    if PublicHostRedirect(u).Some? {
      var target := PublicHostRedirect(u).value;
      RelocationSettles(u);
      assert Chain(c, target) == [];
      assert Chain(c, u) == [target] + Chain(c, target);
    }
  }

  /** The front page of a signed-out caller: the app's host asks to sign in, any other shows the landing page, the legacy
      host and www by way of the apex. */
  lemma FrontPages(c: Caller, host: string, search: string)
    requires !c.session
    ensures var u := Url(host, "/", search);
            && (Lower(host) == APP ==> Chain(c, u) == [Url(host, "/sign-in", "?callbackUrl=" + c.encode("/" + search))])
            && (Lower(host) in {WWW, LEGACY} ==> Chain(c, u) == [Url(MARKETING, "/", search)])
            && (Lower(host) !in {APP, WWW, LEGACY} ==> Chain(c, u) == [])
            && (Lower(host) != APP ==> Proxy(c, End(c, u)) == Landing)
  {
    CanonicalHostsAreLower();
    RedirectPathsArePlain();
    var u := Url(host, "/", search);
    if Lower(host) == APP {
      var signIn := Url(host, "/sign-in", "?callbackUrl=" + c.encode("/" + search));
      SignInEnds(c, signIn);
      assert Chain(c, u) == [signIn] + Chain(c, signIn);
    } else if Lower(host) in {WWW, LEGACY} {
      var home := Url(MARKETING, "/", search);
      assert Chain(c, home) == [];
      assert Chain(c, u) == [home] + Chain(c, home);
    }
  }

  /** The preview page is for crawlers, on the apex as far as the host is ours; everybody else ends on the front page. */
  lemma WelcomePages(c: Caller, u: Url)
    requires u.path == "/welcome"
    ensures End(c, u) == if c.crawler then (if Lower(u.host) in {APP, WWW, LEGACY} then Url(MARKETING, "/welcome", u.search) else u)
                         else if OwnHost(u.host) then Url(MARKETING, "/", u.search) else u.(path := "/")
  {
    CanonicalHostsAreLower();
    RedirectPathsArePlain();
    match Proxy(c, u)
    case Redirect(target) =>
      assert !Proxy(c, target).Redirect?;
      assert Chain(c, target) == [];
      assert Chain(c, u) == [target] + Chain(c, target);
    case _ =>
  }

  /** Three hops, followed one by one. */
  lemma DocsOnWwwTakesThreeHops(c: Caller)
    requires !c.session
    ensures var u := Url(WWW, "/docs/intro", "");
            && |Chain(c, u)| == 3
            && Chain(c, u)[0] == Url(MARKETING, "/docs/intro", "")
            && Chain(c, u)[1] == Url(MARKETING, "/sign-in", "?callbackUrl=" + c.encode("/docs/intro"))
            && Chain(c, u)[2] == Url(APP, "/sign-in", "?callbackUrl=" + c.encode("/docs/intro"))
  {
    CanonicalHostsAreLower();
    var u := Url(WWW, "/docs/intro", "");
    BelowIsNotPublic(u.path);
    var apex := u.(host := MARKETING);
    var signIn := Url(MARKETING, "/sign-in", "?callbackUrl=" + c.encode("/docs/intro"));
    assert u.path + u.search == "/docs/intro";
    assert Proxy(c, u) == Redirect(apex) && Proxy(c, apex) == Redirect(signIn);
    SignInEnds(c, signIn);
    assert Chain(c, apex) == [signIn] + Chain(c, signIn);
    assert Chain(c, u) == [apex] + Chain(c, apex);
  }
}
