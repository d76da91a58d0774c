/** The setup logic of the service manager (main.go) that does not depend on
    the concurrent run group: the command's validate-then-start step, the
    port assignment of `Start`, the tunnel configuration `startPiko` derives
    from the settings, the address of the local web server, and the route
    prefix, authentication choice and page rewrite of `staticRouter`. */
module Service {
  import opened Wrappers
  import opened GoStrings
  import opened GoStrconv
  import opened PortSearch
  import Configuration

  /** `FindAvailablePort` of main.go: the first available port of
      `[8080, 8180)`, or 8080 when none is. */
  method FindAvailablePort(available: int -> bool) returns (port: int)
    ensures port == FirstAvailable(available)
    ensures InScanRange(port)
    ensures forall q :: StartPort <= q < port ==> !available(q)
    ensures available(port) || forall q :: InScanRange(q) ==> !available(q)
  {
    var startPort := StartPort;
    var p := startPort;
    while p < startPort + PortCount
      invariant startPort <= p <= startPort + PortCount
      invariant forall q :: startPort <= q < p ==> !available(q)
      invariant FirstAvailableFrom(available, p) == FirstAvailable(available)
    {
      if available(p) {
        return p;
      }
      p := p + 1;
    }
    return startPort;
  }

  /** The settings after `Start` has assigned the local port: the scan's
      port when none was set, otherwise the settings as they were. */
  ghost function StartedConfig(c: Configuration.Config, available: int -> bool): (r: Configuration.Config)
    ensures r == c.(serverPort := r.serverPort)
    ensures c.serverPort != 0 ==> r == c
    ensures c.serverPort == 0 ==>
              InScanRange(r.serverPort) && (available(r.serverPort) || forall q :: InScanRange(q) ==> !available(q))
  {
    FirstAvailableIsLeast(available);
    if c.serverPort == 0 then c.(serverPort := FirstAvailable(available)) else c
  }

  /** `Start` changes no field but the port, keeps a port that was set, and
      gives an unset port a value of the scan range; so a started
      configuration has a port and starting it again changes nothing. */
  lemma StartedConfigPort(c: Configuration.Config, available: int -> bool)
    ensures StartedConfig(c, available) == c.(serverPort := StartedConfig(c, available).serverPort)
    ensures c.serverPort != 0 ==> StartedConfig(c, available) == c
    ensures c.serverPort == 0 ==> InScanRange(StartedConfig(c, available).serverPort)
    ensures StartedConfig(c, available).serverPort != 0
    ensures StartedConfig(StartedConfig(c, available), available) == StartedConfig(c, available)
  {
    FirstAvailableIsLeast(available);
  }

  /** `ServiceManager`: the settings it runs with. The cancellable context it
      also holds belongs to the run group, which is not part of this model. */
  class ServiceManager {
    var config: Configuration.Config

    /** `NewServiceManager`. */
    constructor (cfg: Configuration.Config)
      ensures config == cfg
    {
      config := cfg;
    }

    /** The port assignment of `Start`: the port scan runs only when no
        port is set, and no other setting changes. */
    method Start(available: int -> bool)
      modifies this
      ensures config == StartedConfig(old(config), available)
    {
      if config.serverPort == 0 {
        var port := FindAvailablePort(available);
        config := config.(serverPort := port);
      }
    }
  }

  /** The command-line flags `RunE` builds the settings from. */
  datatype Flags = Flags(
    name: string,
    remote: string,
    savePass: bool,
    username: string,
    password: string,
    timeout: int)

  /** The settings `RunE` builds: the flags only, nothing from the
      environment, and every other field left at its zero value. */
  function ConfigFromFlags(f: Flags): (r: Configuration.Config)
    ensures r.name == f.name && r.remote == f.remote && r.savePass == f.savePass
    ensures r.username == f.username && r.password == f.password && r.timeout == f.timeout
    ensures r.serverPort == 0 && r.terminal == "" && r.authString == ""
    ensures Configuration.Validate(r).None? <==> f.name != "" && f.remote != ""
  {
    Configuration.Config(
      name := f.name,
      remote := f.remote,
      serverPort := 0,
      terminal := "",
      authString := "",
      savePass := f.savePass,
      username := f.username,
      password := f.password,
      timeout := f.timeout)
  }

  /** The error `RunE` returns when validation fails. */
  datatype RunError = ValidationFailed(cause: Configuration.ConfigError)

  /** `RunE` up to the run group: validate the settings built from the
      flags and stop with the validation error, or create a service manager
      and assign its port. No manager exists when validation fails. */
  method RunE(flags: Flags, available: int -> bool) returns (err: Option<RunError>, sm: ServiceManager?)
    ensures err.Some? <==> Configuration.Validate(ConfigFromFlags(flags)).Some?
    ensures err.Some? ==> err.value == ValidationFailed(Configuration.Validate(ConfigFromFlags(flags)).value) && sm == null
    ensures err.None? ==> sm != null && fresh(sm) && sm.config == StartedConfig(ConfigFromFlags(flags), available)
  {
    var cfg := ConfigFromFlags(flags);
    var e := Configuration.Validate(cfg);
    if e.Some? {
      return Some(ValidationFailed(e.value)), null;
    }
    sm := new ServiceManager(cfg);
    sm.Start(available);
    err := None;
  }

  /** The settings a service manager runs with after `RunE` has validated
      and started it: a name, a remote address, and a port of the scan
      range, since the flags never set a port. */
  lemma RunEStartedConfig(flags: Flags, available: int -> bool)
    requires Configuration.Validate(ConfigFromFlags(flags)).None?
    ensures StartedConfig(ConfigFromFlags(flags), available).name == flags.name != ""
    ensures StartedConfig(ConfigFromFlags(flags), available).remote == flags.remote != ""
    ensures InScanRange(StartedConfig(ConfigFromFlags(flags), available).serverPort)
  {
    StartedConfigPort(ConfigFromFlags(flags), available);
  }

  /** The connection URL of `startPiko`: the remote address as given when it
      starts with "http", otherwise with "http://" in front. */
  function NormalizeRemote(remote: string): (url: string)
    ensures HasPrefix(url, "http")
    ensures HasPrefix(remote, "http") ==> url == remote
    ensures !HasPrefix(remote, "http") ==> url == "http://" + remote
  {
    if HasPrefix(remote, "http") then remote else "http://" + remote
  }

  /** Normalising a URL a second time changes nothing. */
  lemma NormalizeRemoteIdempotent(remote: string)
    ensures NormalizeRemote(NormalizeRemote(remote)) == NormalizeRemote(remote)
  {
  }

  /** The only test is the prefix "http": "httpfoo:1" is kept as it is. */
  lemma NormalizeRemoteExamples()
    ensures NormalizeRemote("httpfoo:1") == "httpfoo:1"
    ensures NormalizeRemote("https://piko.example.com") == "https://piko.example.com"
    ensures NormalizeRemote("192.168.1.100:8088") == "http://192.168.1.100:8088"
  {
    assert "192.168.1.100:8088"[0] != "http"[0];
  }

  /** The protocol a tunnel listener speaks; the client only uses HTTP. */
  datatype ListenerProtocol = HTTP

  /** The one listener of the tunnel configuration. */
  datatype ListenerConfig = ListenerConfig(
    endpointID: string,
    protocol: ListenerProtocol,
    addr: string,
    accessLog: bool,
    timeoutSeconds: int)

  /** The tunnel configuration `startPiko` builds: where to connect, which
      endpoint to register and where its traffic goes. */
  datatype PikoConfig = PikoConfig(
    connectURL: string,
    connectTimeoutSeconds: int,
    listeners: seq<ListenerConfig>,
    logLevel: string,
    logSubsystems: seq<string>,
    gracePeriodSeconds: int)

  const TunnelTimeoutSeconds: int := 30

  /** `fmt.Sprintf("127.0.0.1:%d", port)`: the loopback address the tunnel
      forwards to. */
  function LoopbackAddr(port: int): (addr: string)
    ensures Before(addr, ':') == "127.0.0.1"
    ensures After(addr, ':') == Some(FormatInt(port))
  {
    BeforeAfterGlue("127.0.0.1", ':', FormatInt(port));
    assert "127.0.0.1:" + FormatInt(port) == "127.0.0.1" + [':'] + FormatInt(port);
    "127.0.0.1:" + FormatInt(port)
  }

  /** `fmt.Sprintf(":%d", port)`: the address the web server listens on,
      every interface at that port. */
  function WebServerAddr(port: int): (addr: string)
    ensures Before(addr, ':') == ""
    ensures After(addr, ':') == Some(FormatInt(port))
  {
    BeforeAfterGlue("", ':', FormatInt(port));
    assert ":" + FormatInt(port) == "" + [':'] + FormatInt(port);
    ":" + FormatInt(port)
  }

  /** The configuration `startPiko` builds from the settings: the
      normalised remote as the URL, and one listener registered under the
      client's name that forwards to the local port on the loopback
      interface. */
  function PikoConfigFor(c: Configuration.Config): (pc: PikoConfig)
    ensures pc.connectURL == NormalizeRemote(c.remote)
    ensures |pc.listeners| == 1
    ensures pc.listeners[0].endpointID == c.name
    ensures pc.listeners[0].addr == LoopbackAddr(c.serverPort)
    ensures pc.listeners[0].protocol == HTTP && !pc.listeners[0].accessLog
    ensures pc.connectTimeoutSeconds == pc.listeners[0].timeoutSeconds == pc.gracePeriodSeconds == TunnelTimeoutSeconds
    ensures pc.logLevel == "info" && pc.logSubsystems == []
  {
    PikoConfig(
      connectURL := NormalizeRemote(c.remote),
      connectTimeoutSeconds := TunnelTimeoutSeconds,
      listeners := [ListenerConfig(
        endpointID := c.name,
        protocol := HTTP,
        addr := LoopbackAddr(c.serverPort),
        accessLog := false,
        timeoutSeconds := TunnelTimeoutSeconds)],
      logLevel := "info",
      logSubsystems := [],
      gracePeriodSeconds := TunnelTimeoutSeconds)
  }

  /** The tunnel forwards to the port the web server listens on: both
      addresses name the local port, and the settings with either one as
      their remote address split it back into that port. */
  lemma ListenerReachesWebServer(c: Configuration.Config)
    requires IsGoInt(c.serverPort)
    ensures var listener := c.(remote := PikoConfigFor(c).listeners[0].addr);
            Configuration.GetRemoteHost(listener) == "127.0.0.1" && Configuration.GetRemotePort(listener) == c.serverPort
    ensures var server := c.(remote := WebServerAddr(c.serverPort));
            Configuration.GetRemoteHost(server) == "" && Configuration.GetRemotePort(server) == c.serverPort
  {
    var digits := FormatInt(c.serverPort);
    FormatIntHasNoColon(c.serverPort);
    BeforeAfterNone(digits, ':');
    AtoiFormatInt(c.serverPort);
  }

  /** `"/" + Name`: the prefix every route of the web server is grouped
      under. */
  function RoutePrefix(c: Configuration.Config): (prefix: string)
    ensures |prefix| == |c.name| + 1 && prefix[0] == '/' && prefix[1..] == c.name
  {
    "/" + c.name
  }

  /** How the index page is mounted: its path, and the accounts basic
      authentication admits, None when the page is open. */
  datatype IndexRoute = IndexRoute(path: string, accounts: Option<map<string, string>>)

  /** The index route `staticRouter` installs: behind basic authentication
      with the single account `Username -> Password` exactly when a password
      is set, open otherwise, at the group's root in both cases. */
  function IndexRouteFor(c: Configuration.Config): (route: IndexRoute)
    ensures route.accounts.Some? <==> c.password != ""
    ensures route.accounts.Some? ==> route.accounts.value == map[c.username := c.password]
    ensures route.path == RoutePrefix(c) + "/"
  {
    if c.password != "" then IndexRoute(RoutePrefix(c) + "/", Some(map[c.username := c.password]))
    else IndexRoute(RoutePrefix(c) + "/", None)
  }

  /** The accounts of a protected index page admit exactly the configured
      user name, with exactly the configured password. */
  lemma IndexRouteAdmits(c: Configuration.Config, user: string, pass: string)
    requires c.password != ""
    ensures var accounts := IndexRouteFor(c).accounts.value;
            (user in accounts && accounts[user] == pass) <==> (user == c.username && pass == c.password)
  {
  }

  /** The tag the page is rewritten at. */
  const HeadTag: string := "<head>"

  /** The `<head>` tag followed by the script that tells the page its
      sub-path. */
  function HeadWithScript(name: string): (r: string)
    ensures HasPrefix(r, HeadTag)
  {
    HeadTag + "<script>window.SUB_PATH = '" + name + "';</script>"
  }

  /** The page rewrite of both index handlers: the first `<head>` of the
      page becomes `<head>` followed by the sub-path script; later ones are
      kept, and a page without one is served unchanged. */
  function InjectSubPath(html: string, name: string): (r: string)
    ensures Index(html, HeadTag).None? ==> r == html
    ensures Index(html, HeadTag).Some? ==>
              var i := Index(html, HeadTag).value;
              r == html[..i] + HeadWithScript(name) + html[i + |HeadTag|..]
  {
    ReplaceFirst(html, HeadTag, HeadWithScript(name))
  }

  /** Two strings that agree up to `m` have the same occurrences of `pat`
      that end by `m`. */
  lemma SamePrefixSameOccurrences(s: string, t: string, pat: string, m: nat)
    requires m <= |s| && m <= |t| && s[..m] == t[..m]
    ensures forall j: nat :: j + |pat| <= m ==> (OccursAt(s, pat, j) <==> OccursAt(t, pat, j))
  {
    forall j: nat | j + |pat| <= m
      ensures OccursAt(s, pat, j) <==> OccursAt(t, pat, j)
    {
      assert s[j..j + |pat|] == s[..m][j..j + |pat|];
      assert t[j..j + |pat|] == t[..m][j..j + |pat|];
    }
  }

  /** The rewritten page still has its first `<head>` where the original had
      it, with the script right behind it. */
  lemma InjectSubPathKeepsFirstHead(html: string, name: string)
    ensures Index(InjectSubPath(html, name), HeadTag) == Index(html, HeadTag)
  {
    var r := InjectSubPath(html, name);
    var found := Index(html, HeadTag);
    if found.Some? {
      var i, n := found.value, |HeadTag|;
      var script := HeadWithScript(name);
      assert r == html[..i] + script + html[i + n..];
      assert r[..i + n] == html[..i + n] by {
        assert script[..n] == HeadTag;
        assert html[i..i + n] == HeadTag;
        assert r[..i + n] == html[..i] + HeadTag;
        assert html[..i + n] == html[..i] + html[i..i + n];
      }
      SamePrefixSameOccurrences(r, html, HeadTag, i + n);
      var k := Index(r, HeadTag);
      assert OccursAt(r, HeadTag, i);
      assert k.Some? && k.value <= i;
      assert !OccursAt(html, HeadTag, k.value) || k.value == i;
    }
  }

  /** Taking the script out again gives back the page as it was. */
  function StripSubPath(page: string, name: string): string
  {
    match Index(page, HeadTag)
    case None => page
    case Some(i) =>
      var script := HeadWithScript(name);
      if i + |script| <= |page| && page[i..i + |script|] == script
      then page[..i] + HeadTag + page[i + |script|..]
      else page
  }

  /** `StripSubPath` undoes `InjectSubPath` for every page and every name. */
  lemma InjectSubPathReversible(html: string, name: string)
    ensures StripSubPath(InjectSubPath(html, name), name) == html
  {
    var r := InjectSubPath(html, name);
    InjectSubPathKeepsFirstHead(html, name);
    match Index(html, HeadTag)
    case None =>
    case Some(i) =>
      var script := HeadWithScript(name);
      var n := |HeadTag|;
      assert r == html[..i] + script + html[i + n..];
      assert r[i..i + |script|] == script;
      assert r[..i] == html[..i];
      assert r[i + |script|..] == html[i + n..];
      assert html == html[..i] + HeadTag + html[i + n..] by {
        assert html[i..i + n] == HeadTag;
      }
  }
}
