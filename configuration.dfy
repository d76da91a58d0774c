/** The `config` package (config/config.go): the client's settings, the
    environment-based constructor, validation of the two mandatory fields,
    the split of the `host:port` remote address and the local port scan.
    The process environment is a map from variable names to values; a
    variable that is not set reads as the empty string, as `os.Getenv`
    reports it. */
module Configuration {
  import opened Wrappers
  import opened GoStrings
  import opened GoStrconv
  import opened PortSearch

  /** `config.Config`. */
  datatype Config = Config(
    name: string,
    remote: string,
    serverPort: int,
    terminal: string,
    authString: string,
    savePass: bool,
    username: string,
    password: string,
    timeout: int)

  /** The two errors `Validate` reports. */
  datatype ConfigError = EmptyName | EmptyRemote

  const DefaultRemotePort: int := 8088
  const DefaultTimeout: int := 30

  type Env = map<string, string>

  /** `os.Getenv(key)`: the value, or the empty string when it is not set. */
  function Getenv(env: Env, key: string): (v: string)
    ensures key in env ==> v == env[key]
    ensures key !in env ==> v == ""
  {
    if key in env then env[key] else ""
  }

  /** `Config.Validate`: an error exactly when the name or the remote address
      is empty, the name being checked first. */
  function Validate(c: Config): (err: Option<ConfigError>)
    ensures err.None? <==> c.name != "" && c.remote != ""
    ensures c.name == "" ==> err == Some(EmptyName)
    ensures c.name != "" && c.remote == "" ==> err == Some(EmptyRemote)
  {
    if c.name == "" then Some(EmptyName)
    else if c.remote == "" then Some(EmptyRemote)
    else None
  }

  /** `Config.GetRemoteHost`: the text of the remote address before its first
      colon, or the whole address when it has none. `strings.Split` always
      yields at least one piece, so the "localhost" fallback is never taken
      and an empty remote, or one that starts with a colon, gives "". */
  function GetRemoteHost(c: Config): (host: string)
    ensures host == Before(c.remote, ':')
  {
    var parts := Split(c.remote, ':');
    if |parts| >= 1 then parts[0] else "localhost"
  }

  /** The second colon-separated field of `s`: the text after the first colon
      up to the next colon or the end; None when `s` has no colon. */
  function SecondField(s: string): (f: Option<string>)
    ensures f.None? <==> ':' !in s
    ensures f.Some? ==> ':' !in f.value
  {
    match After(s, ':')
    case None => None
    case Some(rest) => Some(Before(rest, ':'))
  }

  /** `Config.GetRemotePort`: the integer the second colon-separated field
      of the remote address spells, or 8088 when there is no such field or
      it is not a valid `int`; any further fields are ignored. */
  function GetRemotePort(c: Config): (port: int)
    ensures SecondField(c.remote).None? ==> port == DefaultRemotePort
    ensures SecondField(c.remote).Some? ==>
              port == match Atoi(SecondField(c.remote).value)
                      case Some(n) => n
                      case None => DefaultRemotePort
  {
    var parts := Split(c.remote, ':');
    SplitSecond(c.remote, ':');
    if |parts| >= 2 then
      match Atoi(parts[1])
      case Some(port) => port
      case None => DefaultRemotePort
    else DefaultRemotePort
  }

  /** `getEnvOrDefault`: the variable's value when it is set and not empty,
      otherwise the default. */
  function GetEnvOrDefault(env: Env, key: string, default: string): (v: string)
    ensures key in env && env[key] != "" ==> v == env[key]
    ensures !(key in env && env[key] != "") ==> v == default
  {
    var value := Getenv(env, key);
    if value != "" then value else default
  }

  /** `getEnvIntOrDefault`: the integer the variable spells when it is set,
      not empty and a valid `int`, otherwise the default. */
  function GetEnvIntOrDefault(env: Env, key: string, default: int): (v: int)
    ensures Atoi(Getenv(env, key)).Some? ==> v == Atoi(Getenv(env, key)).value
    ensures Atoi(Getenv(env, key)).None? ==> v == default
  {
    var value := Getenv(env, key);
    if value != "" then
      match Atoi(value)
      case Some(n) => n
      case None => default
    else default
  }

  /** `getEnvBoolOrDefault`: the boolean the variable spells when it is one
      of `ParseBool`'s twelve spellings, otherwise the default. */
  function GetEnvBoolOrDefault(env: Env, key: string, default: bool): (v: bool)
    ensures Getenv(env, key) in TrueSpellings ==> v
    ensures Getenv(env, key) in FalseSpellings ==> !v
    ensures Getenv(env, key) !in TrueSpellings + FalseSpellings ==> v == default
  {
    var value := Getenv(env, key);
    if value != "" then
      match ParseBool(value)
      case Some(b) => b
      case None => default
    else default
  }

  /** `NewConfig`: the settings read from the environment. No port and no
      authentication string are set; the timeout is 30 seconds unless
      `TIMEOUT` spells an `int`. */
  function NewConfig(env: Env): (c: Config)
    ensures c.serverPort == 0 && c.authString == ""
    ensures c.name == Getenv(env, "NAME") && c.remote == Getenv(env, "REMOTE")
    ensures c.terminal == Getenv(env, "TERMINAL")
    ensures c.username == Getenv(env, "USERNAME") && c.password == Getenv(env, "PASSWORD")
    ensures c.savePass <==> Getenv(env, "SAVE_PASS") in TrueSpellings
    ensures c.timeout == match Atoi(Getenv(env, "TIMEOUT"))
                         case Some(n) => n
                         case None => DefaultTimeout
  {
    Config(
      name := GetEnvOrDefault(env, "NAME", ""),
      remote := GetEnvOrDefault(env, "REMOTE", ""),
      serverPort := 0,
      terminal := GetEnvOrDefault(env, "TERMINAL", ""),
      authString := "",
      savePass := GetEnvBoolOrDefault(env, "SAVE_PASS", false),
      username := GetEnvOrDefault(env, "USERNAME", ""),
      password := GetEnvOrDefault(env, "PASSWORD", ""),
      timeout := GetEnvIntOrDefault(env, "TIMEOUT", DefaultTimeout))
  }

  /** `Config.FindAvailablePort` (the receiver is not used): the first
      available port of `[8080, 8180)`, or 8080 when none is. */
  method FindAvailablePort(available: int -> bool) returns (port: int)
    ensures port == FirstAvailable(available)
    ensures InScanRange(port)
    ensures forall q :: StartPort <= q < port ==> !available(q)
    ensures available(port) || forall q :: InScanRange(q) ==> !available(q)
  {
    var startPort := StartPort;
    var p := startPort;
    while p < startPort + PortCount
      invariant startPort <= p <= startPort + PortCount
      invariant forall q :: startPort <= q < p ==> !available(q)
      invariant FirstAvailableFrom(available, p) == FirstAvailable(available)
    {
      if available(p) {
        return p;
      }
      p := p + 1;
    }
    return startPort;
  }

  /** An address `host:port`, with a host that has no colon and a 64-bit
      port, possibly followed by further colon-separated fields, resolves to
      that host and that port. */
  lemma RemoteRoundTrip(c: Config, host: string, port: int, rest: string)
    requires ':' !in host && IsGoInt(port)
    requires |rest| == 0 || rest[0] == ':'
    requires c.remote == host + ":" + FormatInt(port) + rest
    ensures GetRemoteHost(c) == host
    ensures GetRemotePort(c) == port
  {
    var digits := FormatInt(port);
    FormatIntHasNoColon(port);
    RemoteFields(c, host, digits, rest);
    AtoiFormatInt(port);
  }

  /** An address whose second field `Atoi` rejects (an empty field, a word)
      still resolves to its host, and to the default port 8088. */
  lemma RemoteInvalidPort(c: Config, host: string, field: string, rest: string)
    requires ':' !in host && ':' !in field && Atoi(field).None?
    requires |rest| == 0 || rest[0] == ':'
    requires c.remote == host + ":" + field + rest
    ensures GetRemoteHost(c) == host
    ensures GetRemotePort(c) == DefaultRemotePort
  {
    RemoteFields(c, host, field, rest);
  }

  /** An address whose port field is the decimal form of a number outside
      the 64-bit range, such as "host:99999999999999999999", falls back to
      port 8088, because `Atoi` rejects it. */
  lemma RemoteOutOfRangePort(c: Config, host: string, n: int)
    requires ':' !in host && !IsGoInt(n)
    requires c.remote == host + ":" + FormatInt(n)
    ensures GetRemoteHost(c) == host
    ensures GetRemotePort(c) == DefaultRemotePort
  {
    var digits := FormatInt(n);
    FormatIntHasNoColon(n);
    AtoiOutOfRange(n);
    assert c.remote == host + ":" + digits + "";
    RemoteInvalidPort(c, host, digits, "");
  }

  /** An address without a colon is all host, and its port is 8088; this
      covers the empty address, whose host is "" rather than "localhost". */
  lemma RemoteWithoutColon(c: Config)
    requires ':' !in c.remote
    ensures GetRemoteHost(c) == c.remote
    ensures GetRemotePort(c) == DefaultRemotePort
  {
    BeforeAfterNone(c.remote, ':');
  }

  /** A remote address made of a host, a colon, a field without a colon and
      either nothing or the rest of the address from a further colon on
      resolves to that host and has that field as its second one. */
  lemma RemoteFields(c: Config, host: string, field: string, rest: string)
    requires ':' !in host && ':' !in field
    requires |rest| == 0 || rest[0] == ':'
    requires c.remote == host + ":" + field + rest
    ensures GetRemoteHost(c) == host
    ensures SecondField(c.remote) == Some(field)
  {
    var r := c.remote;
    assert r[..|host|] == host;
    assert r[|host|] == ':';
    BeforeAfterAt(r, ':', |host|);
    var after := r[|host| + 1..];
    assert after == field + rest;
    assert after[..|field|] == field;
    BeforeIs(after, ':', |field|);
  }

  /** A non-empty value is what `getEnvOrDefault` reads back, and a variable
      set to the empty string reads like one that is not set. */
  lemma GetEnvOrDefaultSet(env: Env, key: string, value: string, default: string)
    ensures value != "" ==> GetEnvOrDefault(env[key := value], key, default) == value
    ensures GetEnvOrDefault(env[key := ""], key, default) == GetEnvOrDefault(env - {key}, key, default) == default
  {
  }

  /** A variable holding the decimal form of a 64-bit `int` reads back as
      that `int`; one that does not spell an `int` yields the default. */
  lemma GetEnvIntOrDefaultSet(env: Env, key: string, n: int, default: int)
    requires IsGoInt(n)
    ensures GetEnvIntOrDefault(env[key := FormatInt(n)], key, default) == n
    ensures GetEnvIntOrDefault(env[key := "abc"], key, default) == default
  {
    AtoiFormatInt(n);
  }

  /** A variable holding `strconv.FormatBool(b)` reads back as `b`. */
  lemma GetEnvBoolOrDefaultSet(env: Env, key: string, b: bool, default: bool)
    ensures GetEnvBoolOrDefault(env[key := FormatBool(b)], key, default) == b
    ensures GetEnvBoolOrDefault(env[key := "yes"], key, default) == default
  {
  }

  /** The settings `NewConfig` reads pass validation exactly when `NAME` and
      `REMOTE` are both set to non-empty values. */
  lemma NewConfigValidates(env: Env)
    ensures Validate(NewConfig(env)).None? <==> Getenv(env, "NAME") != "" && Getenv(env, "REMOTE") != ""
  {
  }

  /** The timeout `NewConfig` reads: `TIMEOUT="abc"` gives the default 30
      seconds, and the decimal form of an `int` gives that `int`. */
  lemma NewConfigTimeout(env: Env, n: int)
    requires IsGoInt(n)
    ensures NewConfig(env["TIMEOUT" := "abc"]).timeout == DefaultTimeout
    ensures NewConfig(env["TIMEOUT" := FormatInt(n)]).timeout == n
    ensures "TIMEOUT" !in env ==> NewConfig(env).timeout == DefaultTimeout
  {
    AtoiFormatInt(n);
  }
}
