/**
 * The handful of Language Server Protocol values the two analysers use:
 * positions, ranges, locations, document symbols in their flat and nested
 * forms, call-hierarchy items and incoming calls, and the server's answer
 * to one request. URIs and paths are plain strings.
 */
module LspTypes {
  import opened Wrappers
  import opened Text
  import opened Utf8
  import opened RpcClient

  datatype Position = Position(line: nat, character: nat)

  datatype Range = Range(start: Position, end: Position)

  datatype Location = Location(uri: string, range: Range)

  /** `SymbolKind::METHOD` and `SymbolKind::FUNCTION` in the protocol's numbering. */
  const MethodKind: int := 6
  const FunctionKind: int := 12

  predicate IsCallable(kind: int) {
    kind == FunctionKind || kind == MethodKind
  }

  /**
   * A symbol of the hierarchical `textDocument/documentSymbol` answer. An
   * absent `children` list is the empty list.
   */
  datatype DocumentSymbol = DocumentSymbol(
    name: string,
    kind: int,
    range: Range,
    selectionRange: Range,
    children: seq<DocumentSymbol>)

  /** A symbol of the flat `textDocument/documentSymbol` answer. */
  datatype SymbolInformation = SymbolInformation(name: string, kind: int, location: Location)

  datatype DocumentSymbolResponse =
    | Flat(flat: seq<SymbolInformation>)
    | Nested(nested: seq<DocumentSymbol>)

  datatype CallHierarchyItem = CallHierarchyItem(
    name: string,
    kind: int,
    uri: string,
    range: Range,
    selectionRange: Range)

  /** An incoming call: the calling item (`from`). */
  datatype IncomingCall = IncomingCall(from: CallHierarchyItem)

  /**
   * What one awaited request gives the caller: the decoded result, or the
   * client's error (a transport failure or the server's JSON-RPC error).
   */
  datatype Reply<T> = Answered(value: T) | Refused(error: ClientError)

  /** `file://` in front of an absolute path's text. */
  function PathToUri(path: string): (uri: string)
    ensures StripPrefix(uri, "file://") == Some(path)
  {
    "file://" + path
  }

  /** The characters that end a URI's authority, and those of them that end its path. */
  const AuthorityEnd: set<char> := {'/', '?', '#'}
  const PathEnd: set<char> := {'?', '#'}

  const PercentSign: byte := 37

  /** Where the part of `s` from `i` ends: at the first character of `stops` at or after `i`, or at the end. */
  function FirstOf(s: string, i: nat, stops: set<char>): (e: nat)
    requires i <= |s|
    ensures i <= e <= |s|
    ensures e < |s| ==> s[e] in stops
    ensures forall j :: i <= j < e ==> s[j] !in stops
    decreases |s| - i
  {
    if i == |s| || s[i] in stops then i else FirstOf(s, i + 1, stops)
  }

  /** The value of an ASCII hexadecimal digit, either case. */
  function HexDigit(b: byte): (v: Option<nat>)
    ensures v.Some? ==> v.value < 16
  {
    if '0' as int <= b <= '9' as int then Some(b - '0' as int)
    else if 'a' as int <= b <= 'f' as int then Some(b - 'a' as int + 10)
    else if 'A' as int <= b <= 'F' as int then Some(b - 'A' as int + 10)
    else None
  }

  /**
   * `percent_decode`: a `%` followed by two hexadecimal digits becomes the
   * byte they spell; every other byte, a lone `%` included, is kept.
   */
  function PercentDecode(bs: seq<byte>): (r: seq<byte>)
    ensures |r| <= |bs|
    ensures PercentSign !in bs ==> r == bs
    decreases |bs|
  {
    if bs == [] then []
    else if bs[0] == PercentSign && |bs| >= 3 && HexDigit(bs[1]).Some? && HexDigit(bs[2]).Some? then
      [16 * HexDigit(bs[1]).value + HexDigit(bs[2]).value] + PercentDecode(bs[3..])
    else
      assert bs == [bs[0]] + bs[1..];
      [bs[0]] + PercentDecode(bs[1..])
  }

  /** The characters that end a URI's scheme, and the schemes the URL standard calls special. */
  const SchemeEnd: set<char> := {':', '/', '?', '#'}
  const SpecialSchemes: set<string> := {"ftp", "file", "http", "https", "ws", "wss"}

  /** A scheme as it stands before the first `:`: not empty, and none of `:`, `/`, `?` or `#`. */
  predicate ValidScheme(scheme: string) {
    scheme != [] && forall j :: 0 <= j < |scheme| ==> scheme[j] !in SchemeEnd
  }

  /** The text without its leading slashes, which a special scheme other than `file` skips. */
  function DropSlashes(s: string): (r: string)
    ensures r == [] || r[0] != '/'
    ensures |r| <= |s| && s[|s| - |r|..] == r
    decreases |s|
  {
    if s != [] && s[0] == '/' then DropSlashes(s[1..]) else s
  }

  /** A path part, percent-decoded; the result must be UTF-8, as `to_str` requires. */
  function DecodedPath(p: string): (r: Option<string>)
    requires p != [] && p[0] == '/'
    ensures r.Some? ==> r.value != [] && r.value[0] == '/'
  {
    SlashFirst(p);
    FromUtf8(PercentDecode(ToUtf8(p)))
  }

  /**
   * The host of an authority: what follows the user part's last `@`, up to
   * the `:` of the port.
   */
  function HostOf(auth: string): (host: string)
    ensures forall j :: 0 <= j < |host| ==> host[j] != '@' && host[j] != ':'
    ensures (forall j :: 0 <= j < |auth| ==> auth[j] != '@' && auth[j] != ':') ==> host == auth
  {
    var start := match LastOf(auth, '@') case None => 0 case Some(i) => i + 1;
    var hostPort := auth[start..];
    var end := FirstOf(hostPort, 0, {':'});
    assert forall j :: 0 <= j < end ==> hostPort[j] == auth[start + j];
    hostPort[..end]
  }

  /**
   * The path an authority and path (what follows `//`) name: the host, with
   * any user part and port set aside, must be empty or `localhost`; the path
   * part runs to the query or fragment. An empty path is `/` for a special
   * scheme and no path otherwise.
   */
  function AuthorityPath(special: bool, rest: string): (path: Option<string>)
    ensures path.Some? ==> path.value != [] && path.value[0] == '/'
  {
    var h := FirstOf(rest, 0, AuthorityEnd);
    var e := FirstOf(rest, h, PathEnd);
    var host := HostOf(rest[..h]);
    if host != "" && host != "localhost" then None
    else if h == e then (if special then DecodedPath("/") else None)
    else DecodedPath(rest[h..e])
  }

  /** The path named by what follows `scheme:`. */
  function PathAfterScheme(scheme: string, rest: string): (path: Option<string>)
    ensures path.Some? ==> path.value != [] && path.value[0] == '/'
  {
    if scheme in SpecialSchemes && scheme != "file" then AuthorityPath(true, DropSlashes(rest))
    else if "//" <= rest then AuthorityPath(scheme == "file", rest[2..])
    else if rest != [] && rest[0] == '/' then DecodedPath(rest[..FirstOf(rest, 0, PathEnd)])
    else None
  }

  /**
   * `Url::to_file_path` followed by `to_str`, on a Unix host. The scheme is
   * not checked. A URI with an authority names a path only when its host is
   * empty or `localhost`; a URI without one only when its path is absolute.
   * The path is the URI's path part without the query or fragment,
   * percent-decoded, and it must be UTF-8. The path is always absolute.
   */
  function UriToPath(uri: string): (path: Option<string>)
    ensures path.Some? ==> path.value != [] && path.value[0] == '/'
  {
    var c := FirstOf(uri, 0, SchemeEnd);
    if c == 0 || c == |uri| || uri[c] != ':' then None
    else PathAfterScheme(uri[..c], uri[c + 1..])
  }

  /** The encoded path starts with the byte of `/`, and so does its decoding. */
  lemma SlashFirst(p: string)
    requires p != [] && p[0] == '/'
    ensures FromUtf8(PercentDecode(ToUtf8(p))).Some? ==>
      var r := FromUtf8(PercentDecode(ToUtf8(p))).value; r != [] && r[0] == '/'
  {
    var t := ToUtf8(p[1..]);
    assert EncodeChar('/') == [47];
    assert ToUtf8(p) == [47] + t;
    var d := PercentDecode(t);
    assert PercentDecode([47] + t) == [47] + d by {
      assert ([47] + t)[1..] == t;
    }
    DecodeFirstOfEncodeChar('/', d);
    assert ([47] + d)[1..] == d;
  }

  /** A URI splits at the `:` after its scheme. */
  lemma SchemeUri(scheme: string, rest: string)
    requires ValidScheme(scheme)
    ensures UriToPath(scheme + ":" + rest) == PathAfterScheme(scheme, rest)
  {
    var uri := scheme + ":" + rest;
    assert forall j :: 0 <= j < |scheme| ==> uri[j] == scheme[j];
    assert uri[|scheme|] == ':';
    var c := FirstOf(uri, 0, SchemeEnd);
    assert c == |scheme|;
    assert uri[..c] == scheme && uri[c + 1..] == rest;
  }

  /** A `file://` URI names the path its authority and path name. */
  lemma FileUri(x: string)
    ensures UriToPath("file://" + x) == AuthorityPath(true, x)
  {
    assert ValidScheme("file");
    assert "file://" + x == "file" + ":" + ("//" + x);
    SchemeUri("file", "//" + x);
    assert ("//" + x)[2..] == x;
  }

  /** A path without `%`, `?` or `#` is its own path part and decodes to itself. */
  lemma PlainPath(path: string)
    requires path != [] && path[0] == '/'
    requires '%' !in path && '?' !in path && '#' !in path
    ensures FirstOf(path, 0, PathEnd) == |path|
    ensures DecodedPath(path) == Some(path)
  {
    FirstOfNone(path, 0, PathEnd);
    NoPercentByte(path);
    Utf8RoundTrip(path);
  }

  /** A text without `%` is written without the byte of `%`. */
  lemma {:induction false} NoPercentByte(s: string)
    requires '%' !in s
    ensures PercentSign !in ToUtf8(s)
  {
    if s != [] {
      NoPercentByte(s[1..]);
    }
  }

  /**
   * The URI of an absolute path that has no `%`, `?` or `#` names that path
   * again: `to_file_path` undoes `from_file_path` on such paths.
   */
  lemma UriToPathOfPathToUri(path: string)
    requires path != [] && path[0] == '/'
    requires '%' !in path && '?' !in path && '#' !in path
    ensures UriToPath(PathToUri(path)) == Some(path)
  {
    FileUri(path);
    PlainPath(path);
    assert path[0..|path|] == path;
  }

  /**
   * The scheme is not checked: `scheme:/path` with any scheme that is not
   * special names `/path`, as `foo:/p/a.rs` names `/p/a.rs`.
   */
  lemma OtherSchemeNamesPath(scheme: string, path: string)
    requires ValidScheme(scheme) && scheme !in SpecialSchemes
    requires path != [] && path[0] == '/' && (|path| == 1 || path[1] != '/')
    requires '%' !in path && '?' !in path && '#' !in path
    ensures UriToPath(scheme + ":" + path) == Some(path)
  {
    SchemeUri(scheme, path);
    PlainPath(path);
    assert path[..|path|] == path;
  }

  /** Any scheme with the host `localhost` names the path, as `http://localhost/p/a.rs` names `/p/a.rs`. */
  lemma {:induction false} LocalhostNamesPath(scheme: string, path: string)
    requires ValidScheme(scheme)
    requires path != [] && path[0] == '/'
    requires '%' !in path && '?' !in path && '#' !in path
    ensures UriToPath(scheme + "://localhost" + path) == Some(path)
  {
    LocalhostIsHost();
    LocalhostUri(scheme, path);
    AuthorityNamesPath(scheme, "localhost", path);
  }

  /** The URI with the host `localhost`, as its scheme, authority and path. */
  lemma LocalhostUri(scheme: string, path: string)
    ensures scheme + "://localhost" + path == scheme + "://" + "localhost" + path
  {
  }

  /** A port is set aside: `http://localhost:8080/p/a.rs` names `/p/a.rs`. */
  lemma {:induction false} PortIgnored(scheme: string, port: string, path: string)
    requires ValidScheme(scheme)
    requires forall j :: 0 <= j < |port| ==> port[j] !in AuthorityEnd && port[j] != '@'
    requires path != [] && path[0] == '/'
    requires '%' !in path && '?' !in path && '#' !in path
    ensures UriToPath(scheme + "://localhost:" + port + path) == Some(path)
  {
    var auth := PortAuthority(port);
    PortUri(scheme, port, path);
    AuthorityNamesPath(scheme, auth, path);
  }

  /** The URI with a port, as its scheme, authority and path. */
  lemma PortUri(scheme: string, port: string, path: string)
    ensures scheme + "://localhost:" + port + path == scheme + "://" + ("localhost:" + port) + path
  {
  }

  /** `localhost:` and a port form an authority whose host is `localhost`. */
  lemma PortAuthority(port: string) returns (auth: string)
    requires forall j :: 0 <= j < |port| ==> port[j] !in AuthorityEnd && port[j] != '@'
    ensures auth == "localhost:" + port && auth != [] && HostOf(auth) == "localhost"
    ensures forall j :: 0 <= j < |auth| ==> auth[j] !in AuthorityEnd && auth[j] != '@'
  {
    LocalhostIsHost();
    var local := "localhost";
    HostBeforePort(local, port);
    JoinedAuthority(local, ":", port);
    auth := local + ":" + port;
    assert forall j :: 0 <= j < |local| ==> auth[j] == local[j];
    assert forall j :: |local| < j < |auth| ==> auth[j] == port[j - |local| - 1];
  }

  /** A user part is set aside: `foo://u@localhost/p/a.rs` names `/p/a.rs`. */
  lemma {:induction false} UserIgnored(scheme: string, user: string, path: string)
    requires ValidScheme(scheme)
    requires forall j :: 0 <= j < |user| ==> user[j] !in AuthorityEnd
    requires path != [] && path[0] == '/'
    requires '%' !in path && '?' !in path && '#' !in path
    ensures UriToPath(scheme + "://" + user + "@localhost" + path) == Some(path)
  {
    LocalhostIsHost();
    var local := "localhost";
    assert forall j :: 0 <= j < |local| ==> local[j] != '@';
    var auth := UserAuthority(user, local);
    UserUri(scheme, user, path);
    AuthorityNamesPath(scheme, auth, path);
  }

  /** A user part and a port together are set aside: `foo://u@localhost:1/p` names `/p`. */
  lemma {:induction false} UserAndPortIgnored(scheme: string, user: string, port: string, path: string)
    requires ValidScheme(scheme)
    requires forall j :: 0 <= j < |user| ==> user[j] !in AuthorityEnd
    requires forall j :: 0 <= j < |port| ==> port[j] !in AuthorityEnd && port[j] != '@'
    requires path != [] && path[0] == '/'
    requires '%' !in path && '?' !in path && '#' !in path
    ensures UriToPath(scheme + "://" + user + "@localhost:" + port + path) == Some(path)
  {
    var hostPort := PortAuthority(port);
    var auth := UserAuthority(user, hostPort);
    UserPortUri(scheme, user, port, path);
    AuthorityNamesPath(scheme, auth, path);
  }

  /** The URI with a user part, as its scheme, authority and path. */
  lemma UserUri(scheme: string, user: string, path: string)
    ensures scheme + "://" + user + "@localhost" + path == scheme + "://" + (user + "@" + "localhost") + path
  {
  }

  /** The URI with a user part and a port, as its scheme, authority and path. */
  lemma UserPortUri(scheme: string, user: string, port: string, path: string)
    ensures scheme + "://" + user + "@localhost:" + port + path
      == scheme + "://" + (user + "@" + ("localhost:" + port)) + path
  {
  }

  /** A user part, `@` and an authority whose host is `localhost` form an authority whose host is `localhost`. */
  lemma UserAuthority(user: string, hostPort: string) returns (auth: string)
    requires forall j :: 0 <= j < |user| ==> user[j] !in AuthorityEnd
    requires forall j :: 0 <= j < |hostPort| ==> hostPort[j] !in AuthorityEnd && hostPort[j] != '@'
    requires HostOf(hostPort) == "localhost"
    ensures auth == user + "@" + hostPort && auth != [] && HostOf(auth) == "localhost"
    ensures forall j :: 0 <= j < |auth| ==> auth[j] !in AuthorityEnd
  {
    HostAfterUserOf(user, hostPort);
    JoinedAuthority(user, "@", hostPort);
    auth := user + "@" + hostPort;
  }

  /** Joining two authority parts with `:` or `@` keeps out the characters that end an authority. */
  lemma {:induction false} JoinedAuthority(a: string, sep: string, b: string)
    requires sep == ":" || sep == "@"
    requires forall j :: 0 <= j < |a| ==> a[j] !in AuthorityEnd
    requires forall j :: 0 <= j < |b| ==> b[j] !in AuthorityEnd
    ensures forall j :: 0 <= j < |a + sep + b| ==> (a + sep + b)[j] !in AuthorityEnd
  {
    var s := a + sep + b;
    assert forall j :: 0 <= j < |a| ==> s[j] == a[j];
    assert s[|a|] == sep[0];
    assert forall j :: |a| < j < |s| ==> s[j] == b[j - |a| - 1];
  }

  /** After a user part, the host is that of what follows its `@`. */
  lemma {:induction false} HostAfterUserOf(user: string, rest: string)
    requires forall j :: 0 <= j < |rest| ==> rest[j] != '@'
    ensures HostOf(user + "@" + rest) == HostOf(rest)
  {
    LastAtAfter(user, rest);
    assert LastOf(rest, '@').None?;
    assert rest[0..] == rest;
  }

  /** The host of `localhost` is `localhost`. */
  lemma LocalhostIsHost()
    ensures HostOf("localhost") == "localhost"
    ensures forall j :: 0 <= j < |"localhost"| ==> "localhost"[j] !in AuthorityEnd
  {
    var local := "localhost";
    assert forall j :: 0 <= j < |local| ==> local[j] != '@' && local[j] != ':' && local[j] !in AuthorityEnd;
  }

  /** The last `@` of `user + "@" + rest`, when `rest` has none, is the one before `rest`. */
  lemma {:induction false} LastAtAfter(user: string, rest: string)
    requires forall j :: 0 <= j < |rest| ==> rest[j] != '@'
    ensures LastOf(user + "@" + rest, '@') == Some(|user|)
    ensures (user + "@" + rest)[|user| + 1..] == rest
  {
    LastOfAfter(user + "@", rest, '@');
    assert (user + "@" + rest)[|user| + 1..] == rest;
  }

  /** Without a user part, the host runs to the port's `:`. */
  lemma HostBeforePort(host: string, port: string)
    requires forall j :: 0 <= j < |host| ==> host[j] != '@' && host[j] != ':'
    requires forall j :: 0 <= j < |port| ==> port[j] != '@'
    ensures HostOf(host + ":" + port) == host
  {
    var a := host + ":" + port;
    assert forall j :: 0 <= j < |host| ==> a[j] == host[j];
    assert a[|host|] == ':';
    assert forall j :: |host| < j < |a| ==> a[j] == port[j - |host| - 1];
    assert LastOf(a, '@').None?;
    assert a[0..] == a;
    assert FirstOf(a, 0, {':'}) == |host|;
    assert a[..|host|] == host;
  }

  /** Any scheme whose authority has the host `localhost` names the path after it. */
  lemma {:induction false} AuthorityNamesPath(scheme: string, auth: string, path: string)
    requires ValidScheme(scheme)
    requires auth != [] && HostOf(auth) == "localhost"
    requires forall j :: 0 <= j < |auth| ==> auth[j] !in AuthorityEnd
    requires path != [] && path[0] == '/'
    requires '%' !in path && '?' !in path && '#' !in path
    ensures UriToPath(scheme + "://" + auth + path) == Some(path)
  {
    var rest := "//" + (auth + path);
    assert scheme + "://" + auth + path == scheme + ":" + rest;
    SchemeUri(scheme, rest);
    assert (auth + path)[0] == auth[0];
    SlashesRest(scheme, auth + path);
    LocalAuthority(auth, path);
    NoAuthority(path);
  }

  /** After `scheme://`, the authority and path decide the path, the scheme only whether it is special. */
  lemma {:induction false} SlashesRest(scheme: string, x: string)
    requires x == [] || x[0] != '/'
    ensures PathAfterScheme(scheme, "//" + x) == AuthorityPath(scheme in SpecialSchemes, x)
  {
    var rest := "//" + x;
    if scheme in SpecialSchemes && scheme != "file" {
      DropTwoSlashes(x);
    } else {
      assert "//" <= rest && rest[2..] == x;
    }
  }

  /** With no authority, a plain absolute path names itself. */
  lemma NoAuthority(path: string)
    requires path != [] && path[0] == '/'
    requires '%' !in path && '?' !in path && '#' !in path
    ensures forall special :: AuthorityPath(special, path) == Some(path)
  {
    assert FirstOf(path, 0, AuthorityEnd) == 0;
    assert HostOf(path[..0]) == "";
    PlainPath(path);
    assert path[0..|path|] == path;
  }

  /** Two slashes before a text that does not start with one are dropped. */
  lemma DropTwoSlashes(x: string)
    requires x == [] || x[0] != '/'
    ensures DropSlashes("//" + x) == x
  {
    var once := "/" + x;
    assert ("//" + x)[0] == '/' && ("//" + x)[1..] == once;
    assert once[0] == '/' && once[1..] == x;
    assert DropSlashes(once) == DropSlashes(x);
  }

  /** The host `localhost` is skipped: the path after it is found as if there were no host. */
  lemma LocalhostHost(rest: string)
    requires rest != [] && rest[0] == '/'
    ensures forall special :: AuthorityPath(special, "localhost" + rest) == AuthorityPath(special, rest)
  {
    LocalhostIsHost();
    LocalAuthority("localhost", rest);
  }

  /** An authority whose host is `localhost` is skipped: the path after it is found as if there were none. */
  lemma LocalAuthority(auth: string, rest: string)
    requires HostOf(auth) == "localhost"
    requires forall j :: 0 <= j < |auth| ==> auth[j] !in AuthorityEnd
    requires rest != [] && rest[0] == '/'
    ensures forall special :: AuthorityPath(special, auth + rest) == AuthorityPath(special, rest)
  {
    var withHost := auth + rest;
    assert forall j :: 0 <= j < |auth| ==> withHost[j] == auth[j];
    assert withHost[|auth|] == '/';
    var h := FirstOf(withHost, 0, AuthorityEnd);
    assert h == |auth|;
    assert withHost[..h] == auth;
    assert withHost[h..] == rest;
    var e := FirstOf(withHost, h, PathEnd);
    var e0 := FirstOf(rest, 0, PathEnd);
    FirstOfShift(auth, rest, 0, PathEnd);
    assert e == |auth| + e0;
    assert withHost[h..e] == rest[0..e0];
    assert FirstOf(rest, 0, AuthorityEnd) == 0;
    assert HostOf(rest[..0]) == "";
  }

  /** A `file:` URI whose host is other than empty or `localhost` names no local path, so its `unwrap` panics. */
  lemma RemoteHostRefused(host: string, rest: string)
    requires HostOf(host) != "" && HostOf(host) != "localhost"
    requires forall j :: 0 <= j < |host| ==> host[j] !in AuthorityEnd
    requires rest == [] || rest[0] in AuthorityEnd
    ensures UriToPath("file://" + host + rest).None?
  {
    assert "file://" + host + rest == "file://" + (host + rest);
    FileUri(host + rest);
    var h := FirstOf(host + rest, 0, AuthorityEnd);
    assert forall j :: 0 <= j < |host| ==> (host + rest)[j] == host[j];
    assert rest != [] ==> (host + rest)[|host|] == rest[0];
    assert (host + rest)[..h] == host;
  }

  /** `localhost` names the local machine: its `file:` URIs name the same paths as URIs with no host. */
  lemma LocalhostIsLocal(rest: string)
    requires rest != [] && rest[0] == '/'
    ensures UriToPath("file://localhost" + rest) == UriToPath("file://" + rest)
  {
    assert "file://localhost" + rest == "file://" + ("localhost" + rest);
    FileUri("localhost" + rest);
    FileUri(rest);
    LocalhostHost(rest);
  }

  /** Searching in `prefix + s` from past the prefix is searching in `s`. */
  lemma {:induction false} FirstOfShift(prefix: string, s: string, i: nat, stops: set<char>)
    requires i <= |s|
    ensures FirstOf(prefix + s, |prefix| + i, stops) == |prefix| + FirstOf(s, i, stops)
    decreases |s| - i
  {
    assert |prefix| + i == |prefix + s| || (prefix + s)[|prefix| + i] == s[i];
    if i < |s| && s[i] !in stops {
      FirstOfShift(prefix, s, i + 1, stops);
    }
  }

  /** Decoding bytes with no `%` in front of others keeps them and decodes the rest. */
  lemma {:induction false} PercentDecodeKeeps(x: seq<byte>, y: seq<byte>)
    requires PercentSign !in x
    ensures PercentDecode(x + y) == x + PercentDecode(y)
    decreases |x|
  {
    if x != [] {
      var z: seq<byte> := x + y;
      assert z[0] == x[0];
      assert x[0] != PercentSign;
      assert z[1..] == x[1..] + y;
      PercentDecodeKeeps(x[1..], y);
      calc {
        PercentDecode(z);
        { DecodePlainFirst(z); }
        [x[0]] + PercentDecode(z[1..]);
        [x[0]] + (x[1..] + PercentDecode(y));
        { BytesAssoc([x[0]], x[1..], PercentDecode(y)); assert x == [x[0]] + x[1..]; }
        x + PercentDecode(y);
      }
    } else {
      assert x + y == y;
    }
  }

  /** A first byte other than `%` is kept as it is. */
  lemma DecodePlainFirst(z: seq<byte>)
    requires z != [] && z[0] != PercentSign
    ensures PercentDecode(z) == [z[0]] + PercentDecode(z[1..])
  {
  }

  /**
   * A space written as `%20` is decoded: `file:///a%20b/x.rs` names the path
   * `/a b/x.rs`, which starts with the root `/a b`.
   */
  lemma EncodedSpaceDecoded(a: string, b: string)
    requires a != [] && a[0] == '/'
    requires '%' !in a && '?' !in a && '#' !in a
    requires '%' !in b && '?' !in b && '#' !in b
    ensures UriToPath("file://" + a + "%20" + b) == Some(a + " " + b)
  {
    var rest := a + "%20" + b;
    assert "file://" + a + "%20" + b == "file://" + rest;
    FileUri(rest);
    assert rest[0] == '/';
    NoPathEnd(a, b);
    FirstOfNone(rest, 0, PathEnd);
    assert rest[0..|rest|] == rest;
    SpaceBytesDecoded(a, b);
    Utf8RoundTrip(a + " " + b);
  }

  lemma NoPathEnd(a: string, b: string)
    requires '?' !in a && '#' !in a && '?' !in b && '#' !in b
    ensures forall j :: 0 <= j < |a + "%20" + b| ==> (a + "%20" + b)[j] !in PathEnd
  {
    var rest := a + "%20" + b;
    forall j | 0 <= j < |rest|
      ensures rest[j] !in PathEnd
    {
      if j < |a| {
        assert rest[j] == a[j];
      } else if j < |a| + 3 {
        assert rest[j] == "%20"[j - |a|];
      } else {
        assert rest[j] == b[j - |a| - 3];
      }
    }
  }

  lemma SpaceBytesDecoded(a: string, b: string)
    requires '%' !in a && '%' !in b
    ensures PercentDecode(ToUtf8(a + "%20" + b)) == ToUtf8(a + " " + b)
  {
    var encoded := EscapedBytes(a, "%20", b);
    var decoded := EscapedBytes(a, " ", b);
    EscapeBytes();
    NoPercentByte(a);
    PercentDecodeKeeps(ToUtf8(a), [37, 50, 48] + ToUtf8(b));
    DecodeEscape(ToUtf8(b));
    NoPercentByte(b);
  }

  /** The bytes of `a + m + b`, piece by piece. */
  lemma {:induction false} EscapedBytes(a: string, m: string, b: string) returns (bs: seq<byte>)
    ensures bs == ToUtf8(a + m + b) == ToUtf8(a) + (ToUtf8(m) + ToUtf8(b))
  {
    var am := a + m;
    ToUtf8Append(am, b);
    ToUtf8Append(a, m);
    bs := ToUtf8(am + b);
    BytesAssoc(ToUtf8(a), ToUtf8(m), ToUtf8(b));
  }

  /** Joining byte strings is associative. */
  lemma BytesAssoc(x: seq<byte>, y: seq<byte>, z: seq<byte>)
    ensures (x + y) + z == x + (y + z)
  {
  }

  lemma EscapeBytes()
    ensures ToUtf8("%20") == [37, 50, 48] && ToUtf8(" ") == [32]
  {
    assert "%20"[1..] == "20" && "20"[1..] == "0" && "0"[1..] == [];
  }

  lemma DecodeEscape(t: seq<byte>)
    ensures PercentDecode([37, 50, 48] + t) == [32] + PercentDecode(t)
  {
    var z: seq<byte> := [37, 50, 48] + t;
    assert HexDigit(50) == Some(2) && HexDigit(48) == Some(0);
    assert z[3..] == t;
  }

  /** With no stop character from `i` on, the part runs to the end. */
  lemma FirstOfNone(s: string, i: nat, stops: set<char>)
    requires i <= |s|
    requires forall j :: i <= j < |s| ==> s[j] !in stops
    ensures FirstOf(s, i, stops) == |s|
  {
  }

  /** Below the URI of a directory lie the URIs of the paths below it: stripping the first leaves the relative path. */
  lemma UriBelowRoot(root: string, rest: string)
    ensures StripPrefix(PathToUri(root + rest), PathToUri(root)) == Some(rest)
  {
    assert PathToUri(root + rest) == PathToUri(root) + rest;
  }
}
