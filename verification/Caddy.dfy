/** Routes and their encoding as Caddy configuration. */
module Caddy {
  import opened Domain

  datatype Route = Route(hostname: string, upstreamUrl: string, instanceId: string)

  datatype CaddyHandler = CaddyHandler(handler: string, routes: seq<CaddySubroute>, upstreams: seq<string>)
  datatype CaddySubroute = CaddySubroute(handle: seq<CaddyHandler>)
  datatype CaddyRoute = CaddyRoute(id: string, hosts: seq<seq<string>>, handle: seq<CaddyHandler>, terminal: bool)

  const HTTP: string := "http://"
  const HTTPS: string := "https://"
  const ID_PREFIX: string := "demo-route-"

  // ---- the strings package ---------------------------------------------------------

  predicate HasSuffix(s: string, x: string) {
    |x| <= |s| && s[|s| - |x|..] == x
  }

  function TrimPrefix(s: string, p: string): string {
    if p <= s then s[|p|..] else s
  }

  function TrimSuffix(s: string, x: string): string {
    if HasSuffix(s, x) then s[..|s| - |x|] else s
  }

  /** strings.ReplaceAll(s, ".", "-"). */
  function Clean(s: string): string {
    if s == "" then "" else [if s[0] == '.' then '-' else s[0]] + Clean(s[1..])
  }

  // ---- encoding ---------------------------------------------------------------------

  function RouteId(hostname: string): string {
    ID_PREFIX + Clean(hostname)
  }

  function BuildCaddyRoute(r: Route, baseDomain: string): CaddyRoute {
    var full := if '.' in r.hostname then r.hostname else r.hostname + "." + baseDomain;
    var upstream := TrimPrefix(TrimPrefix(r.upstreamUrl, HTTP), HTTPS);
    var proxy := CaddyHandler("reverse_proxy", [], [upstream]);
    CaddyRoute(RouteId(r.hostname), [[full]], [CaddyHandler("subroute", [CaddySubroute([proxy])], [])], true)
  }

  // ---- decoding ---------------------------------------------------------------------

  predicate IsProxy(h: CaddyHandler) {
    h.handler == "reverse_proxy" && |h.upstreams| > 0
  }

  function FirstUpstream(hs: seq<CaddyHandler>): string {
    if hs == [] then "" else if IsProxy(hs[0]) then HTTP + hs[0].upstreams[0] else FirstUpstream(hs[1..])
  }

  function Decode(c: CaddyRoute, baseDomain: string): Option<Route> {
    if |c.hosts| == 0 || |c.hosts[0]| == 0 || |c.handle| == 0 then None
    else
      var upstream := if c.handle[0].handler == "subroute" && |c.handle[0].routes| > 0
                      then FirstUpstream(c.handle[0].routes[0].handle) else "";
      Some(Route(TrimSuffix(c.hosts[0][0], "." + baseDomain), upstream, TrimPrefix(c.id, ID_PREFIX)))
  }

  /** The handlers among which the decoder looks for a proxy. */
  function Inner(c: CaddyRoute): seq<CaddyHandler> {
    if |c.handle| > 0 && c.handle[0].handler == "subroute" && |c.handle[0].routes| > 0
    then c.handle[0].routes[0].handle else []
  }

  /** caddyRouteToRoute with its search loop. */
  method CaddyRouteToRoute(c: CaddyRoute, baseDomain: string) returns (r: Option<Route>)
    ensures r == Decode(c, baseDomain)
    ensures r.None? <==> |c.hosts| == 0 || |c.hosts[0]| == 0 || |c.handle| == 0
    ensures r.Some? ==>
              var h, suffix := c.hosts[0][0], "." + baseDomain;
              if |h| >= |suffix| && h[|h| - |suffix|..] == suffix then h == r.value.hostname + suffix
              else h == r.value.hostname
    ensures r.Some? ==>
              var hs, url := Inner(c), r.value.upstreamUrl;
              if forall h | h in hs :: h.handler != "reverse_proxy" || h.upstreams == [] then url == ""
              else exists n :: 0 <= n < |hs| && hs[n].handler == "reverse_proxy" && hs[n].upstreams != []
                               && url == "http://" + hs[n].upstreams[0]
                               && forall j | 0 <= j < n :: hs[j].handler != "reverse_proxy" || hs[j].upstreams == []
    ensures r.Some? ==>
              if "demo-route-" <= c.id then c.id == "demo-route-" + r.value.instanceId
              else c.id == r.value.instanceId
  {
    if |c.hosts| == 0 || |c.hosts[0]| == 0 || |c.handle| == 0 {
      return None;
    }
    var hostname := TrimSuffix(c.hosts[0][0], "." + baseDomain);
    var upstreamUrl := "";
    if c.handle[0].handler == "subroute" && |c.handle[0].routes| > 0 {
      var hs := c.handle[0].routes[0].handle;
      var i := 0;
      while i < |hs|
        invariant 0 <= i <= |hs|
        invariant upstreamUrl == "" && FirstUpstream(hs) == FirstUpstream(hs[i..])
        invariant forall j :: 0 <= j < i ==> !IsProxy(hs[j])
      {
        if IsProxy(hs[i]) {
          upstreamUrl := HTTP + hs[i].upstreams[0];
          break;
        }
        i := i + 1;
      }
    }
    var instanceId := "";
    if c.id != "" {
      instanceId := TrimPrefix(c.id, ID_PREFIX);
    }
    return Some(Route(hostname, upstreamUrl, instanceId));
  }

  // ---- round trip -------------------------------------------------------------------

  lemma {:induction false} CleanPointwise(s: string)
    ensures |Clean(s)| == |s|
    ensures forall i :: 0 <= i < |s| ==> Clean(s)[i] == if s[i] == '.' then '-' else s[i]
  {
    if s == "" {
    } else {
      CleanPointwise(s[1..]);
    }
  }

  lemma CleanIdentity(s: string)
    ensures Clean(s) == s <==> '.' !in s
  {
    CleanPointwise(s);
    if '.' in s {
      var i :| 0 <= i < |s| && s[i] == '.';
      assert Clean(s)[i] != s[i];
    }
  }

  predicate HostKept(h: string, baseDomain: string) {
    '.' !in h || !HasSuffix(h, "." + baseDomain)
  }

  predicate UpstreamKept(u: string) {
    HTTP <= u && !(HTTPS <= u[|HTTP|..])
  }

  /** Main theorem: for every route and base domain decoding succeeds, and each
      field survives exactly under its own condition. The instance id that comes
      back is the cleaned hostname, whatever id went in. */
  lemma RoundTrip(r: Route, baseDomain: string)
    ensures var d := Decode(BuildCaddyRoute(r, baseDomain), baseDomain);
            && d.Some?
            && (d.value.hostname == r.hostname <==> HostKept(r.hostname, baseDomain))
            && (d.value.upstreamUrl == r.upstreamUrl <==> UpstreamKept(r.upstreamUrl))
            && d.value.instanceId == Clean(r.hostname)
            && (d.value.instanceId == r.hostname <==> '.' !in r.hostname)
  {
    var c := BuildCaddyRoute(r, baseDomain);
    var suffix := "." + baseDomain;
    var full := c.hosts[0][0];
    if '.' !in r.hostname {
      assert full == r.hostname + suffix;
      assert full[|full| - |suffix|..] == suffix && full[..|full| - |suffix|] == r.hostname;
    }
    HostTrim(full, suffix);
    UpstreamTrim(r.upstreamUrl);
    assert TrimPrefix(RouteId(r.hostname), ID_PREFIX) == Clean(r.hostname);
    CleanIdentity(r.hostname);
  }

  lemma HostTrim(h: string, suffix: string)
    requires suffix != ""
    ensures TrimSuffix(h, suffix) == h <==> !HasSuffix(h, suffix)
  {
  }

  lemma UpstreamTrim(u: string)
    ensures HTTP + TrimPrefix(TrimPrefix(u, HTTP), HTTPS) == u <==> UpstreamKept(u)
  {
    var t := TrimPrefix(u, HTTP);
    var v := HTTP + TrimPrefix(t, HTTPS);
    assert v[..|HTTP|] == HTTP && v[|HTTP|..] == TrimPrefix(t, HTTPS);
    if HTTP <= u {
      assert u == HTTP + u[|HTTP|..];
    }
  }

  function Itoa(n: nat): string {
    if n < 10 then [['0', '1', '2', '3', '4', '5', '6', '7', '8', '9'][n]] else Itoa(n / 10) + Itoa(n % 10)
  }

  /** fmt.Sprintf("%d", port). */
  function Decimal(n: int): string {
    if n < 0 then "-" + Itoa(-n) else Itoa(n)
  }

  function UpstreamFor(port: int): string {
    HTTP + ("localhost:" + Decimal(port))
  }

  /** The routes Acquire installs come back unchanged, except that the instance id
      is replaced by the hostname. */
  lemma AcquireRouteRoundTrip(hostname: string, port: int, id: string, baseDomain: string)
    requires '.' !in hostname
    ensures Decode(BuildCaddyRoute(Route(hostname, UpstreamFor(port), id), baseDomain), baseDomain)
              == Some(Route(hostname, UpstreamFor(port), hostname))
  {
    LocalUpstreamKept(port);
    RoundTrip(Route(hostname, UpstreamFor(port), id), baseDomain);
  }

  lemma PlainUpstreamKept(rest: string)
    requires rest != "" && rest[0] != 'h'
    ensures UpstreamKept(HTTP + rest)
  {
    assert (HTTP + rest)[|HTTP|..] == rest;
    assert HTTPS[0] == 'h';
  }

  lemma LocalUpstreamKept(port: int)
    ensures UpstreamKept(UpstreamFor(port))
  {
    PlainUpstreamKept("localhost:" + Decimal(port));
  }

  // ---- what a built route does -------------------------------------------------------

  lemma SchemeCut(u: string, rest: string)
    ensures var dial := TrimPrefix(TrimPrefix(u, HTTP), HTTPS);
            && (u == "http://" + rest && !("https://" <= rest) ==> dial == rest)
            && (u == "https://" + rest ==> dial == rest)
            && (u == "http://" + ("https://" + rest) ==> dial == rest)
            && (!("http://" <= u) && !("https://" <= u) ==> dial == u)
  {
    if u == "http://" + rest {
      assert u[|HTTP|..] == rest;
    } else if u == "http://" + ("https://" + rest) {
      assert u[|HTTP|..] == HTTPS + rest;
      assert (HTTPS + rest)[|HTTPS|..] == rest;
    } else if u == "https://" + rest {
      assert u[4] == 's' && HTTP[4] == ':';
      assert u[|HTTPS|..] == rest;
    }
  }

  /** Main theorem: Caddy matches the full hostname and dials the upstream without its
      scheme; `rest` is what follows the scheme. */
  lemma BuiltRoute(r: Route, baseDomain: string, rest: string)
    ensures var c := BuildCaddyRoute(r, baseDomain);
            && ('.' !in r.hostname ==> c.hosts == [[r.hostname + ("." + baseDomain)]])
            && ('.' in r.hostname ==> c.hosts == [[r.hostname]])
            && c.terminal
            && |c.handle| == 1 && c.handle[0].handler == "subroute" && |c.handle[0].routes| == 1
            && |Inner(c)| == 1 && Inner(c)[0].handler == "reverse_proxy" && |Inner(c)[0].upstreams| == 1
            && var dial := Inner(c)[0].upstreams[0];
            && (r.upstreamUrl == "http://" + rest && !("https://" <= rest) ==> dial == rest)
            && (r.upstreamUrl == "https://" + rest ==> dial == rest)
            && (r.upstreamUrl == "http://" + ("https://" + rest) ==> dial == rest)
            && (!("http://" <= r.upstreamUrl) && !("https://" <= r.upstreamUrl) ==> dial == r.upstreamUrl)
  {
    assert r.hostname + "." + baseDomain == r.hostname + ("." + baseDomain);
    SchemeCut(r.upstreamUrl, rest);
  }

  /** The route of an instance answers on the host of the URL handed to the client and
      leads to the instance's port. */
  lemma InstanceRoute(i: Instance, baseDomain: string)
    requires '.' !in i.hostname
    ensures var c := BuildCaddyRoute(Route(i.hostname, UpstreamFor(i.port), i.id), baseDomain);
            && |c.hosts| == 1 && |c.hosts[0]| == 1
            && i.Url(baseDomain) == "https://" + c.hosts[0][0]
            && |Inner(c)| == 1 && Inner(c)[0].upstreams == ["localhost:" + Decimal(i.port)]
  {
    var local := "localhost:" + Decimal(i.port);
    BuiltRoute(Route(i.hostname, UpstreamFor(i.port), i.id), baseDomain, local);
    assert local[0] != HTTPS[0];
    assert i.Url(baseDomain) == "https://" + (i.hostname + ("." + baseDomain));
  }

  predicate Digits(s: string) {
    forall c | c in s :: '0' <= c <= '9'
  }

  /** The number that a string of digits stands for. */
  function NumberOf(s: string): int {
    if s == "" then 0 else 10 * NumberOf(s[..|s| - 1]) + (s[|s| - 1] as int - '0' as int)
  }

  /** Decimal writes the digits of a number, without a leading zero; a negative one gets
      a sign. */
  lemma {:induction false} DecimalReads(n: int)
    ensures var s := Decimal(n);
            if n < 0 then s == "-" + Decimal(-n)
            else s != "" && Digits(s) && NumberOf(s) == n && (s[0] == '0' ==> s == "0")
    decreases if n < 0 then 0 else n
  {
    if n < 0 {
    } else if n < 10 {
      assert Decimal(n)[..0] == "";
    } else {
      DecimalReads(n / 10);
      OneDigit(n % 10);
      AppendDigit(Decimal(n / 10), Decimal(n % 10)[0]);
      assert Decimal(n) == Decimal(n / 10) + [Decimal(n % 10)[0]];
    }
  }

  lemma OneDigit(n: nat)
    requires n < 10
    ensures Decimal(n) == [('0' as int + n) as char]
  {
  }

  lemma AppendDigit(s: string, c: char)
    ensures NumberOf(s + [c]) == 10 * NumberOf(s) + (c as int - '0' as int)
  {
    assert (s + [c])[..|s|] == s;
  }

  // ---- route ids ---------------------------------------------------------------------

  /** A route id is the prefix and the hostname with a dash for every dot. */
  lemma RouteIdPointwise(h: string)
    ensures |RouteId(h)| == 11 + |h| && RouteId(h)[..11] == "demo-route-"
    ensures forall i :: 0 <= i < |h| ==> RouteId(h)[11 + i] == if h[i] == '.' then '-' else h[i]
  {
    CleanPointwise(h);
  }

  /** Two hostnames share a route id exactly when they differ only in dots versus
      dashes; on dot-free hostnames the id is injective. */
  lemma RouteIdCollision(g: string, h: string)
    ensures RouteId(g) == RouteId(h) <==>
              |g| == |h| && forall i :: 0 <= i < |g| ==> g[i] == h[i] || (g[i] in {'.', '-'} && h[i] in {'.', '-'})
    ensures '.' !in g && '.' !in h ==> (RouteId(g) == RouteId(h) <==> g == h)
  {
    CleanPointwise(g);
    CleanPointwise(h);
    assert RouteId(g)[|ID_PREFIX|..] == Clean(g) && RouteId(h)[|ID_PREFIX|..] == Clean(h);
    if Clean(g) == Clean(h) {
      forall i | 0 <= i < |g| ensures g[i] == h[i] || (g[i] in {'.', '-'} && h[i] in {'.', '-'}) {
        assert Clean(g)[i] == Clean(h)[i];
      }
    }
    CleanIdentity(g);
    CleanIdentity(h);
  }

  lemma DottedHostsCollide()
    ensures "a.b" != "a-b" && RouteId("a.b") == RouteId("a-b")
  {
    RouteIdCollision("a.b", "a-b");
  }

  // ---- the proxy's route table ----------------------------------------------------------

  function AddRoute(routes: map<string, CaddyRoute>, r: Route, baseDomain: string): map<string, CaddyRoute> {
    routes[RouteId(r.hostname) := BuildCaddyRoute(r, baseDomain)]
  }

  function RemoveRoute(routes: map<string, CaddyRoute>, hostname: string): map<string, CaddyRoute> {
    routes - {RouteId(hostname)}
  }

  function GetRoute(routes: map<string, CaddyRoute>, hostname: string, baseDomain: string): Option<Route> {
    if RouteId(hostname) in routes then Decode(routes[RouteId(hostname)], baseDomain) else None
  }

  /** Adding and removing by hostname reaches that hostname's route and leaves the
      routes of all other dot-free hostnames alone. */
  lemma RoutesAreSeparate(routes: map<string, CaddyRoute>, r: Route, other: string, baseDomain: string)
    requires '.' !in r.hostname && '.' !in other && other != r.hostname
    ensures var added := AddRoute(routes, r, baseDomain);
            && GetRoute(added, r.hostname, baseDomain) == Decode(BuildCaddyRoute(r, baseDomain), baseDomain) != None
            && GetRoute(RemoveRoute(added, r.hostname), r.hostname, baseDomain) == None
            && GetRoute(added, other, baseDomain) == GetRoute(routes, other, baseDomain)
            && GetRoute(RemoveRoute(routes, r.hostname), other, baseDomain) == GetRoute(routes, other, baseDomain)
  {
    RouteIdCollision(r.hostname, other);
  }
}
