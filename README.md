# webssh-piko client setup logic, modelled in Dafny

webssh-piko is a client that makes a local web terminal reachable through a
remote piko tunnel server. This project models the client's sequential setup
logic and proves properties about it:

- the `config` package: the `Config` record, reading it from the environment,
  validating the name and remote address, splitting the `host:port` remote,
  and scanning for a free local port;
- the service manager in `main.go`: the command's validate-then-start step,
  the port assignment in `Start`, the tunnel configuration `startPiko` builds,
  the web server's listen address, and in `staticRouter` the route prefix, the
  choice of basic authentication and the rewrite that adds the `SUB_PATH`
  script to the index page.

Files and modules:

- `wrappers.dfy` (`Wrappers`): `Option`, used for Go's `(value, err)` results.
- `gostrings.dfy` (`GoStrings`): the Go `strings` functions the code calls:
  `Split` with a one-character separator, `HasPrefix`, and `Replace` with a
  count of 1. Beside them are `IndexByte` and `Index`, the searches those
  functions perform, and `Join`, defined here as the inverse of `Split`.
- `gostrconv.dfy` (`GoStrconv`): `strconv.Atoi`, decimal `%d` formatting,
  `strconv.ParseBool`, and `FormatBool` as its inverse.
- `portsearch.dfy` (`PortSearch`): the specification of the port scan that
  both `FindAvailablePort` functions perform.
- `configuration.dfy` (`Configuration`): config/config.go.
- `service.dfy` (`Service`): main.go.

Modelling choices:

- The process environment is a `map<string, string>`. A missing key reads as
  `""`, as `os.Getenv` returns.
- Go's `int` is taken to be 64 bits. `Atoi` fails on values outside
  `[-2^63, 2^63 - 1]`, as Go's does on 64-bit platforms.
- Whether a port is free is a socket probe in the program. Here it is a
  parameter `available: int -> bool`.
- `Config` is a value. `ServiceManager` is a class whose `config` field is
  reassigned by `Start`.
- `GetRemoteHost` follows the code: `strings.Split` always returns at least
  one piece, so the `"localhost"` fallback (config/config.go:56) cannot be
  reached. A remote that is empty or starts with `:` gives the host `""`.
- `RunE` builds its settings from the command-line flags only. The program
  never combines flags with environment values, so no flag-over-environment
  precedence is modelled.

## Model

| member | source | states |
|---|---|---|
| `GoStrings.Split` | config/config.go:52 | `strings.Split` returns at least one piece, and the first piece is the text before the first separator |
| `GoStrings.SplitPiecesFree` | config/config.go:52 | no piece `Split` returns contains the separator |
| `GoStrings.SplitSecond` | config/config.go:62-63 | `Split` yields a second piece exactly when the string has the separator; that piece is the text between the first separator and the next one |
| `GoStrings.JoinSplit` | config/config.go:52 | joining the pieces of `Split` with the separator gives back the original string |
| `GoStrings.SplitJoin` | config/config.go:52 | splitting the join of separator-free pieces gives back those pieces |
| `GoStrings.Before` | config/config.go:52-54 | the text before the first separator: a prefix of the string, free of the separator, and followed by the separator or the end |
| `GoStrings.After` | config/config.go:62-63 | the text after the first separator, absent exactly when there is no separator; the string is the text before, the separator, and this text |
| `GoStrings.IndexByte` | config/config.go:52 | the position of the first separator: it holds the separator and none comes before it; absent exactly when the string has none |
| `GoStrings.BeforeAfterAt` | config/config.go:52 | when the first separator is at position i, the text before is `s[..i]` and the text after is `s[i+1..]` |
| `GoStrings.BeforeAfterNone` | config/config.go:53-54 | with no separator, all of the string comes before and nothing after |
| `GoStrings.BeforeIs` | config/config.go:52-54 | a prefix with no separator, followed by a separator or by the end, is exactly the text before the first separator |
| `GoStrings.HasPrefix` | main.go:250 | `strings.HasPrefix` holds exactly when the string begins with the prefix |
| `GoStrings.ReplaceFirst` | main.go:375-378 | `strings.Replace` with count 1: unchanged when the pattern does not occur; otherwise the text before the first occurrence, the replacement, and the text after that occurrence, with the matching length |
| `GoStrings.BeforeAfterGlue` | main.go:264 | in text without the separator, followed by the separator and anything, the first part comes before the first separator and the last part after it |
| `GoStrings.Index` | main.go:375-378 | the first position where the pattern occurs, with no earlier occurrence; absent exactly when it occurs nowhere |
| `GoStrconv.Atoi` | config/config.go:64 | a parsed value fits in a 64-bit int and comes from a string that starts with a digit or a sign, ends in a digit and has only digits after its first character; a negative value needs a `-` |
| `GoStrconv.AtoiOutOfRange` | config/config.go:64-68 | the decimal form of any number outside the 64-bit range is rejected |
| `GoStrconv.AtoiDigits` | config/config.go:103 | a non-empty digit string whose value fits is read as that value, with or without a leading `+` |
| `GoStrconv.AtoiNegative` | config/config.go:103 | a `-` followed by a non-empty digit string, leading zeros allowed, is read as the negated value whenever that is at least -2^63 |
| `GoStrconv.AtoiDigitsOutOfRange` | config/config.go:103-105 | a digit string whose value exceeds 2^63 - 1 is rejected bare or after `+`, and one whose value exceeds 2^63 is rejected after `-`, whatever leading zeros it has |
| `GoStrconv.AtoiSignAndZeros` | config/config.go:103 | the digits of a number with a leading `+` or leading zeros are read as that number |
| `GoStrconv.DecimalValueLeadingZeros` | config/config.go:103 | leading zeros do not change the value of a digit string |
| `GoStrconv.AtoiExamples` | config/config.go:103 | `""`, `"+"`, `"-"`, `"abc"` and `"1-2"` are rejected; `"+7"`, `"-7"` and `"007"` are accepted |
| `GoStrconv.FormatNat` | main.go:264 | `%d` of a non-negative number is a non-empty digit string with no leading zero |
| `GoStrconv.FormatInt` | main.go:264 | `%d` of an int is digits, preceded by `-` exactly for negative numbers |
| `GoStrconv.DecimalValueFormatNat` | main.go:264 | the digits `%d` prints denote the number printed |
| `GoStrconv.AtoiFormatInt` | config/config.go:103 | `Atoi` reads back every 64-bit int that `%d` prints |
| `GoStrconv.ParseBool` | config/config.go:113 | true for exactly "1", "t", "T", "TRUE", "true", "True"; false for exactly "0", "f", "F", "FALSE", "false", "False"; an error for every other string |
| `GoStrconv.ParseBoolFormatBool` | config/config.go:113 | `ParseBool` reads back what `FormatBool` prints |
| `PortSearch.FirstAvailableFromIsLeast` | config/config.go:74-79 | the scan from a given port: in `[8080, 8180)`; none of the ports it skipped is available; available if any later port is; 8080 if none is |
| `PortSearch.FirstAvailableIsLeast` | main.go:36-44 | the scan's port lies in `[8080, 8180)`; every port below it in the range is taken; it is available unless all 100 are taken, and then it is 8080 |
| `PortSearch.FirstAvailableUnique` | config/config.go:72-80 | any port that meets the scan's contract is the scan's port, so the contract fixes the result |
| `Configuration.Validate` | config/config.go:39-47 | an error exactly when the name or the remote is empty; an empty name is reported first |
| `Configuration.GetRemoteHost` | config/config.go:50-57 | the host is the text of the remote before its first colon, or the whole remote if it has no colon |
| `Configuration.SecondField` | config/config.go:63-64 | the second field is absent exactly when the remote has no colon, and it never contains a colon |
| `Configuration.GetRemotePort` | config/config.go:60-69 | the port is `Atoi` of the second colon-separated field when that field exists and parses, otherwise 8088; later fields are ignored |
| `Configuration.RemoteFields` | config/config.go:50-64 | an address `host:field`, with colon-free host and field and optionally more fields after a further colon, has that host and that second field |
| `Configuration.RemoteRoundTrip` | config/config.go:50-69 | an address `host + ":" + %d(port)`, with a colon-free host and a 64-bit port and optionally more fields, resolves to that host and that port; later fields are ignored |
| `Configuration.RemoteInvalidPort` | config/config.go:62-68 | an address whose second field `Atoi` rejects, such as an empty field or a word, has port 8088 and still its host |
| `Configuration.RemoteOutOfRangePort` | config/config.go:62-68 | a port field that is the decimal form of a number outside the 64-bit range, such as `"host:99999999999999999999"`, gives port 8088 and keeps the host |
| `Configuration.RemoteWithoutColon` | config/config.go:50-68 | an address without a colon is all host and has port 8088; the empty address has host `""`, never `"localhost"` |
| `Configuration.Getenv` | config/config.go:94 | `os.Getenv`: the variable's value when it is set, otherwise `""` |
| `Configuration.GetEnvOrDefault` | config/config.go:93-98 | the variable's value when it is set and non-empty, otherwise the default |
| `Configuration.GetEnvOrDefaultSet` | config/config.go:93-98 | a non-empty value reads back as itself; a variable set to `""` reads like an unset one and gives the default |
| `Configuration.GetEnvIntOrDefault` | config/config.go:101-108 | the parsed integer when the value parses with `Atoi`, otherwise the default |
| `Configuration.GetEnvIntOrDefaultSet` | config/config.go:101-108 | a variable holding the decimal form of a 64-bit int reads back as that int; `"abc"` gives the default |
| `Configuration.GetEnvBoolOrDefault` | config/config.go:111-118 | true for ParseBool's true spellings, false for its false spellings, the default for anything else, including unset |
| `Configuration.GetEnvBoolOrDefaultSet` | config/config.go:111-118 | a variable holding `FormatBool(b)` reads back as `b`; `"yes"` gives the default |
| `Configuration.NewConfig` | config/config.go:25-36 | port 0 and an empty auth string; the string fields are the environment values; save-pass holds only for a true spelling; the timeout is the parsed `TIMEOUT`, or 30 |
| `Configuration.NewConfigValidates` | config/config.go:25-47 | the settings read from the environment pass validation exactly when `NAME` and `REMOTE` are both non-empty |
| `Configuration.NewConfigTimeout` | config/config.go:34 | `TIMEOUT="abc"` and an unset `TIMEOUT` give 30; the decimal form of an int gives that int |
| `Configuration.FindAvailablePort` | config/config.go:72-80 | the loop returns the scan's port: in `[8080, 8180)`, every lower port in the range taken, and available unless all are taken |
| `Service.FindAvailablePort` | main.go:36-44 | the same scan, main.go's copy: the least available port of `[8080, 8180)`, or 8080 when none is |
| `Service.StartedConfig` | main.go:167-169 | the settings after the port assignment: only the port can change; a set port is kept; an unset port gets a port of the scan range that is available, unless all 100 are taken |
| `Service.StartedConfigPort` | main.go:167-169 | assigning the port changes no other field; it keeps a non-zero port; it gives port 0 a port in the scan range; a second assignment changes nothing |
| `Service.ServiceManager.constructor` | main.go:151-158 | a new manager holds the given settings |
| `Service.ServiceManager.Start` | main.go:161-169 | afterwards the settings are the old ones, with the scan's port written only if the port was 0 |
| `Service.ConfigFromFlags` | main.go:93-100 | the settings hold the six flag values, port 0, and empty terminal and auth string; they pass validation exactly when the name and remote flags are non-empty |
| `Service.RunE` | main.go:90-110 | a validation error is returned exactly when the flag settings fail validation, and then no manager is created; otherwise a fresh manager holds the settings with the port assigned |
| `Service.RunEStartedConfig` | main.go:93-109 | after validation passes and `Start` runs, the manager's settings have a non-empty name and remote and a port in `[8080, 8180)` |
| `Service.NormalizeRemote` | main.go:249-254 | the connection URL always starts with "http"; a remote already starting with "http" is kept as given; any other remote gets "http://" in front |
| `Service.NormalizeRemoteIdempotent` | main.go:250-254 | normalising twice gives the same URL as normalising once |
| `Service.NormalizeRemoteExamples` | main.go:250-253 | `"httpfoo:1"` and an https URL are kept as given; `"192.168.1.100:8088"` gets "http://" in front |
| `Service.PikoConfigFor` | main.go:255-275 | the tunnel connects to the normalised remote and registers one HTTP listener without access log; its endpoint is the client name and its address is `"127.0.0.1:" + %d(port)`; all three timeouts are 30 seconds; logging is at "info" with no subsystems |
| `Service.LoopbackAddr` | main.go:264 | the listener address has host `"127.0.0.1"` before its first colon and `%d(port)` after it |
| `Service.WebServerAddr` | main.go:361 | the web server's address has an empty host before its first colon and `%d(port)` after it |
| `Service.ListenerReachesWebServer` | main.go:264 | the settings with the listener address, or with the web server's `":" + %d(port)` address (main.go line 361), as their remote read back the local port as their port |
| `Service.RoutePrefix` | main.go:333 | routes are grouped under `"/"` followed by the client name |
| `Service.IndexRouteFor` | main.go:365-392 | the index page is behind basic auth exactly when a password is set, with the single account username to password; it sits at the group root either way. Only the index page is protected: `/term`, `/check`, `/file/*` and `/static` are on the unprotected group (main.go:336-361, 394) |
| `Service.IndexRouteAdmits` | main.go:366-370 | a protected index page accepts exactly the configured username with exactly the configured password |
| `Service.HeadWithScript` | main.go:377 | the replacement text starts with `<head>` |
| `Service.InjectSubPath` | main.go:374-378 | a page with no `<head>` is returned unchanged; otherwise only the first `<head>` is replaced by `<head>` plus the `SUB_PATH` script, and the rest is unchanged |
| `Service.InjectSubPathKeepsFirstHead` | main.go:375-378 | the rewritten page has its first `<head>` at the same position as the original page |
| `Service.SamePrefixSameOccurrences` | main.go:375-378 | two strings with the same first m characters have the same occurrences of a pattern ending within those characters |
| `Service.InjectSubPathReversible` | main.go:386-389 | taking the inserted script out again gives back the original page |

## Left out

- The `oklog/run` group in `startServices` (main.go:177-237): its four actors, their interrupt functions, and the claim that the first actor to return decides the result. This is concurrency handled by an external library.
- Signal handling and the 24-hour `context.WithTimeout` watchdog (main.go:199-231): these depend on OS signals and wall-clock time.
- The rest of `startPiko` (main.go:277-325): the logger, `pikoconfig.Validate`, `url.Parse`, `upstream.Listen` and the reverse proxy. These are network code and calls into the piko library. The model stops at the configuration value `startPiko` builds.
- The gin server, gzip middleware, the `/term`, `/check` and `/file/*` handlers, and the `/static` file system (main.go:330-361, 393-394). These are HTTP plumbing and embedded assets. The page rewrite takes the index file's contents as an input string.
- `Service.IndexRouteFor`: gin's `BasicAuth` rejects an empty user name when the route is set up. With a password set and no user name, the program therefore fails while installing the index route. The model instead gives the account map `"" -> password`, and `IndexRouteAdmits` states what that map admits. gin's own code is not part of this model.
- `Service.IndexRouteFor`: gin's path cleaning when route groups are joined is not modelled. The index path is the prefix plus `/`. This matches gin whenever the name has no `.` or `/` segments.
- `isPortAvailable` (config/config.go:83-90, main.go:47-54): the real `net.Listen` probe. It is replaced by the `available` predicate, which is treated as fixed for the duration of one scan. The probe's race with other processes is therefore not modelled.
- `os.Getenv` (replaced by a map), cobra flag parsing, the short flag names, the required-flag marks, the `version` subcommand, and all `fmt.Printf` output.
- `Configuration.Validate`: the Chinese error message texts are not modelled. The two errors are the constructors `EmptyName` and `EmptyRemote`, and `RunE` wraps them in `ValidationFailed`.
- `Service.RunE`: the error returned by the run group after `Start` is not modelled. `None` means validation passed and the service manager reached its run group.
- `Service.ServiceManager.Start`: `Config` is a value here. In Go, `RunE` and the manager share one `*Config`. `RunE` never reads it after `Start`, so neither aliasing nor the later use of the pointer is modelled.
- `Configuration.FindAvailablePort`: the Go method has a `*Config` receiver it never uses, so the model drops the receiver.
- `Configuration.GetRemotePort`: the port is any 64-bit int `Atoi` accepts, including negative ones or ones above 65535, as in the code. No port-range check is added.
- `Service.PikoConfigFor`: the listener's `TLS` field is left out. It is the zero `pikoconfig.TLSConfig{}` (main.go:267), whose meaning is defined by the piko library.
- Go strings are byte sequences; here a string is a sequence of characters. The separators and patterns the code uses (`:`, `"http"`, `"<head>"`) are ASCII, so no behaviour is lost for them, but byte strings that are not valid UTF-8 cannot be represented.
- web/src/api/common.js and web/src/api/file.js: browser-side request wrappers. They are not part of this model.
