/**
 * `get_connections` of the code-graph tool: after the `initialize`
 * handshake and its capability checks, every source file below the base
 * path is opened and asked for its document symbols; every top-level symbol
 * is asked for its references, and each reference from another file becomes
 * an edge from that file to the symbol's file. Finally the root URI is
 * stripped from every node and edge, dropping those outside the root.
 *
 * The server is a value: its answers to `initialize`, `documentSymbol` and
 * `references`, and whether notifications reach it. The walk of the
 * directory tree is the list of entries it yields.
 */
module CodeGraph {
  import opened Wrappers
  import opened Text
  import opened RpcClient
  import opened LspTypes

  // ---------------------------------------------------------------- the file filter

  /** The last component of a path: what follows its last `/`. */
  function FileName(path: string): (r: string)
    ensures |r| <= |path| && path[|path| - |r|..] == r
    ensures forall j :: 0 <= j < |r| ==> r[j] != '/'
    ensures |r| < |path| ==> path[|path| - |r| - 1] == '/'
  {
    match LastOf(path, '/')
    case None => path
    case Some(i) => path[i + 1..]
  }

  /**
   * `Path::extension`: the part of the file name after its last `.`, unless
   * that dot starts the name (a hidden file) or the name is `..`.
   */
  function Extension(path: string): (r: Option<string>)
    ensures r.Some? ==> |r.value| < |path| && path[|path| - |r.value| - 1..] == "." + r.value
    ensures r.Some? ==> forall j :: 0 <= j < |r.value| ==> r.value[j] != '.' && r.value[j] != '/'
  {
    var name := FileName(path);
    match LastOf(name, '.')
    case None => None
    case Some(i) =>
      if i == 0 || (|name| == 2 && name[0] == '.' && name[1] == '.') then None
      else
        ExtensionAt(path, name, i);
        Some(name[i + 1..])
  }

  /** The text after the last dot of a path's last component is a suffix of the path, after that dot. */
  lemma ExtensionAt(path: string, name: string, i: nat)
    requires |name| <= |path| && path[|path| - |name|..] == name
    requires forall j :: 0 <= j < |name| ==> name[j] != '/'
    requires 0 < i < |name| && name[i] == '.'
    requires forall j :: i < j < |name| ==> name[j] != '.'
    ensures var ext := name[i + 1..];
      && |ext| < |path| && path[|path| - |ext| - 1..] == "." + ext
      && forall j :: 0 <= j < |ext| ==> ext[j] != '.' && ext[j] != '/'
  {
    assert name[i..] == "." + name[i + 1..];
    assert path[|path| - |name| + i..] == name[i..];
  }

  /** A path made of a directory, a stem and an extension has that extension. */
  lemma ExtensionOfName(dir: string, stem: string, ext: string)
    requires dir == [] || dir[|dir| - 1] == '/'
    requires stem != [] && stem + "." + ext != ".."
    requires forall j :: 0 <= j < |stem| ==> stem[j] != '/'
    requires forall j :: 0 <= j < |ext| ==> ext[j] != '/' && ext[j] != '.'
    ensures Extension(dir + stem + "." + ext) == Some(ext)
  {
    NameOfStem(dir, stem, ext);
    LastDotOfName(stem, ext);
    NotDotDot(stem, ext);
    assert (stem + "." + ext)[|stem| + 1..] == ext;
    ExtensionFrom(dir + stem + "." + ext, stem + "." + ext, |stem|);
  }

  /** In `stem.ext` with no dot in `ext`, the last dot is the one after the stem. */
  lemma LastDotOfName(stem: string, ext: string)
    requires stem != []
    requires forall j :: 0 <= j < |ext| ==> ext[j] != '.'
    ensures LastOf(stem + "." + ext, '.') == Some(|stem|)
  {
    var name, prefix := stem + "." + ext, stem + ".";
    assert name == prefix + ext;
    LastOfAfter(prefix, ext, '.');
  }

  /** A stem and an extension without `/` after a directory are the path's last component. */
  lemma NameOfStem(dir: string, stem: string, ext: string)
    requires dir == [] || dir[|dir| - 1] == '/'
    requires forall j :: 0 <= j < |stem| ==> stem[j] != '/'
    requires forall j :: 0 <= j < |ext| ==> ext[j] != '/'
    ensures FileName(dir + stem + "." + ext) == stem + "." + ext
  {
    var name := stem + "." + ext;
    assert dir + stem + "." + ext == dir + name;
    forall j | 0 <= j < |name| ensures name[j] != '/' {
      if j > |stem| {
        assert name[j] == ext[j - |stem| - 1];
      }
    }
    FileNameOf(dir, name);
  }

  /** The name `stem.ext` is `..` only for the stem `.` and no extension. */
  lemma NotDotDot(stem: string, ext: string)
    requires stem + "." + ext != ".."
    ensures var name := stem + "." + ext; !(|name| == 2 && name[0] == '.' && name[1] == '.')
  {
    TwoDots(stem + "." + ext);
  }

  /** A two-character name of two dots is `..`. */
  lemma TwoDots(name: string)
    ensures |name| == 2 && name[0] == '.' && name[1] == '.' ==> name == ".."
  {
  }

  /** A path whose last component has its last dot at `i > 0`, and is not `..`, has the extension after that dot. */
  lemma ExtensionFrom(path: string, name: string, i: nat)
    requires FileName(path) == name
    requires LastOf(name, '.') == Some(i) && i > 0
    requires !(|name| == 2 && name[0] == '.' && name[1] == '.')
    ensures Extension(path) == Some(name[i + 1..])
  {
  }

  lemma FileNameOf(dir: string, name: string)
    requires dir == [] || dir[|dir| - 1] == '/'
    requires forall j :: 0 <= j < |name| ==> name[j] != '/'
    ensures FileName(dir + name) == name
  {
    if dir == [] {
      assert dir + name == name;
    } else {
      LastOfAfter(dir, name, '/');
      assert (dir + name)[|dir|..] == name;
    }
  }

  /** `ignore.iter().any(|i| path.contains(i))` */
  function AnyContained(path: string, ignore: seq<string>): bool
  {
    if ignore == [] then false else Contains(path, ignore[0]) || AnyContained(path, ignore[1..])
  }

  /** `suffixes.iter().any(|s| extension == Some(s))` */
  function AnySuffix(ext: Option<string>, suffixes: seq<string>): bool
  {
    if suffixes == [] then false else ext == Some(suffixes[0]) || AnySuffix(ext, suffixes[1..])
  }

  /** The walk's filter, branch for branch. */
  function KeepFile(path: string, suffixes: seq<string>, ignore: seq<string>): bool
  {
    if |ignore| > 0 && AnyContained(path, ignore) then false
    else if !AnySuffix(Extension(path), suffixes) then false
    else true
  }

  lemma {:induction false} AnyContainedIff(path: string, ignore: seq<string>)
    ensures AnyContained(path, ignore) <==> exists i, k: nat :: 0 <= i < |ignore| && OccursAt(path, ignore[i], k)
    decreases |ignore|
  {
    if ignore != [] {
      ContainsIff(path, ignore[0]);
      AnyContainedIff(path, ignore[1..]);
      if exists i, k: nat :: 1 <= i < |ignore| && OccursAt(path, ignore[i], k) {
        var i, k: nat :| 1 <= i < |ignore| && OccursAt(path, ignore[i], k);
        assert ignore[1..][i - 1] == ignore[i];
      }
      if exists i, k: nat :: 0 <= i < |ignore| - 1 && OccursAt(path, ignore[1..][i], k) {
        var i, k: nat :| 0 <= i < |ignore| - 1 && OccursAt(path, ignore[1..][i], k);
        assert ignore[1..][i] == ignore[i + 1];
      }
    }
  }

  lemma {:induction false} AnySuffixIff(ext: Option<string>, suffixes: seq<string>)
    ensures AnySuffix(ext, suffixes) <==> ext.Some? && ext.value in suffixes
    decreases |suffixes|
  {
    if suffixes != [] {
      AnySuffixIff(ext, suffixes[1..]);
      assert suffixes == [suffixes[0]] + suffixes[1..];
    }
  }

  /**
   * A path is kept exactly when none of the ignore strings occurs in it and
   * its extension is one of the suffixes; the `ignore.len() > 0` guard
   * changes nothing.
   */
  lemma KeepFileIff(path: string, suffixes: seq<string>, ignore: seq<string>)
    ensures KeepFile(path, suffixes, ignore)
      <==> ((forall i, k: nat :: 0 <= i < |ignore| ==> !OccursAt(path, ignore[i], k))
            && Extension(path).Some? && Extension(path).value in suffixes)
  {
    AnyContainedIff(path, ignore);
    AnySuffixIff(Extension(path), suffixes);
  }

  /** The walk's entries that the filter keeps, in walk order. */
  function KeptFiles(entries: seq<string>, suffixes: seq<string>, ignore: seq<string>): seq<string>
  {
    if entries == [] then []
    else
      var e := entries[|entries| - 1];
      KeptFiles(entries[..|entries| - 1], suffixes, ignore) + (if KeepFile(e, suffixes, ignore) then [e] else [])
  }

  /** A file is collected exactly when the walk yields it and the filter keeps it. */
  lemma {:induction false} KeptFilesIff(entries: seq<string>, suffixes: seq<string>, ignore: seq<string>)
    ensures forall f :: f in KeptFiles(entries, suffixes, ignore) <==> f in entries && KeepFile(f, suffixes, ignore)
    decreases |entries|
  {
    if entries != [] {
      var init := entries[..|entries| - 1];
      KeptFilesIff(init, suffixes, ignore);
      assert forall f :: f in entries <==> f in init || f == entries[|entries| - 1];
    }
  }

  method CollectFiles(entries: seq<string>, suffixes: seq<string>, ignore: seq<string>) returns (files: seq<string>)
    ensures files == KeptFiles(entries, suffixes, ignore)
  {
    files := [];
    for i := 0 to |entries|
      invariant files == KeptFiles(entries[..i], suffixes, ignore)
    {
      assert entries[..i + 1][..i] == entries[..i];
      if KeepFile(entries[i], suffixes, ignore) {
        files := files + [entries[i]];
      }
    }
    assert entries[..|entries|] == entries;
  }

  // ---------------------------------------------------------------- the server and the run

  datatype Connection = Connection(src: string, dst: string)

  /** A provider field of the `initialize` result when present: a flag or an options object. */
  datatype Provider = Flag(enabled: bool) | WithOptions

  /**
   * The two provider fields the run looks at, each `None` when the server
   * leaves it out. The run only tests whether a field is present, so an
   * announced `false` passes.
   */
  datatype Capabilities = Capabilities(documentSymbolProvider: Option<Provider>, referencesProvider: Option<Provider>)

  /**
   * The language server, as its answers to the requests the run makes, and
   * the transport, as whether it takes the write of each notification.
   */
  datatype Server = Server(
    initialize: Reply<Capabilities>,
    accepts: Sent -> bool,
    documentSymbols: string -> Reply<Option<DocumentSymbolResponse>>,
    references: (string, Position) -> Reply<Option<seq<Location>>>)

  /** One request or notification the run issues, in order. */
  datatype Sent =
    | Initialize
    | Initialized
    | DidOpen(uri: string)
    | DocumentSymbolRequest(uri: string)
    | References(uri: string, position: Position)

  datatype GraphError =
    | InitializeFailed(error: ClientError)
    | NoDocumentSymbolProvider
    | NoReferencesProvider
    | NotifyFailed(error: ClientError)
    | RequestFailed(error: ClientError)

  /** The graph, the error the run bails out with, or the `todo!()` panic on a flat symbol list. */
  datatype Outcome =
    | Graph(nodes: set<string>, connections: set<Connection>)
    | Failure(error: GraphError)
    | Unimplemented(uri: string)

  /** The two hash sets and the requests issued so far. */
  datatype Acc = Acc(nodes: set<string>, connections: set<Connection>, sent: seq<Sent>)

  datatype Scan = Scanned(acc: Acc) | Stopped(outcome: Outcome, sent: seq<Sent>)

  /** The files of every reference: all of them become nodes. */
  function ReferenceUris(refs: seq<Location>): set<string>
  {
    set l | l in refs :: l.uri
  }

  /** The edges the references of a symbol in `symbolUri` contribute: one from every other file. */
  function ReferenceEdges(symbolUri: string, refs: seq<Location>): set<Connection>
  {
    set l | l in refs && l.uri != symbolUri :: Connection(l.uri, symbolUri)
  }

  /** The references loop of the top-level symbols in `symbols`, one symbol after another. */
  function ScanSymbols(server: Server, fileUri: string, symbols: seq<DocumentSymbol>, acc: Acc): (r: Scan)
    ensures r.Stopped? ==> r.outcome.Failure? && r.outcome.error.RequestFailed?
    ensures r.Stopped? ==> acc.sent <= r.sent
    ensures r.Scanned? ==> acc.sent <= r.acc.sent
    decreases |symbols|
  {
    if symbols == [] then Scanned(acc)
    else
      var position := symbols[0].selectionRange.start;
      var acc1 := acc.(nodes := acc.nodes + {fileUri}, sent := acc.sent + [References(fileUri, position)]);
      match server.references(fileUri, position)
      case Refused(e) => Stopped(Failure(RequestFailed(e)), acc1.sent)
      case Answered(None) => ScanSymbols(server, fileUri, symbols[1..], acc1)
      case Answered(Some(refs)) =>
        ScanSymbols(server, fileUri, symbols[1..],
          acc1.(nodes := acc1.nodes + ReferenceUris(refs),
                connections := acc1.connections + ReferenceEdges(fileUri, refs)))
  }

  /** The files loop: open, ask for the symbols, scan the top-level ones. */
  function ScanFiles(server: Server, files: seq<string>, acc: Acc): (r: Scan)
    ensures r.Stopped? ==> r.outcome.Unimplemented?
                           || (r.outcome.Failure? && (r.outcome.error.NotifyFailed? || r.outcome.error.RequestFailed?))
    ensures r.Stopped? ==> acc.sent <= r.sent
    ensures r.Scanned? ==> acc.sent <= r.acc.sent
    decreases |files|
  {
    if files == [] then Scanned(acc)
    else
      var uri := PathToUri(files[0]);
      var openSent := acc.sent + [DidOpen(uri)];
      if !server.accepts(DidOpen(uri)) then Stopped(Failure(NotifyFailed(SendFailed)), openSent)
      else
        var asked := openSent + [DocumentSymbolRequest(uri)];
        match server.documentSymbols(uri)
        case Refused(e) => Stopped(Failure(RequestFailed(e)), asked)
        case Answered(None) => ScanFiles(server, files[1..], acc.(sent := asked))
        case Answered(Some(Flat(_))) => Stopped(Unimplemented(uri), asked)
        case Answered(Some(Nested(symbols))) =>
          (match ScanSymbols(server, uri, symbols, acc.(sent := asked))
           case Stopped(o, s) => Stopped(o, s)
           case Scanned(next) => ScanFiles(server, files[1..], next))
  }

  /** The kept nodes without the root prefix: `n` is a result exactly when `root + n` was a node. */
  function StripNodes(root: string, nodes: set<string>): (r: set<string>)
    ensures forall n :: n in r <==> root + n in nodes
  {
    var r := set m | m in nodes && StripPrefix(m, root).Some? :: StripPrefix(m, root).value;
    assert forall n :: root + n in nodes ==> n in r by {
      forall n | root + n in nodes ensures n in r {
        assert StripPrefix(root + n, root).value == n;
      }
    }
    r
  }

  /** The kept edges with both ends stripped of the root prefix. */
  function StripConnections(root: string, connections: set<Connection>): (r: set<Connection>)
    ensures forall c :: c in r <==> Connection(root + c.src, root + c.dst) in connections
  {
    var r := set c | c in connections && StripPrefix(c.src, root).Some? && StripPrefix(c.dst, root).Some?
                 :: Connection(StripPrefix(c.src, root).value, StripPrefix(c.dst, root).value);
    assert forall c: Connection :: Connection(root + c.src, root + c.dst) in connections ==> c in r by {
      forall c: Connection | Connection(root + c.src, root + c.dst) in connections ensures c in r {
        var full := Connection(root + c.src, root + c.dst);
        assert StripPrefix(full.src, root).value == c.src;
        assert StripPrefix(full.dst, root).value == c.dst;
      }
    }
    r
  }

  /** The whole of `get_connections` after the walk has produced `files`. */
  function Connections(server: Server, basePath: string, files: seq<string>): (Outcome, seq<Sent>)
  {
    var sent := [Initialize];
    match server.initialize
    case Refused(e) => (Failure(InitializeFailed(e)), sent)
    case Answered(caps) =>
      if caps.documentSymbolProvider.None? then (Failure(NoDocumentSymbolProvider), sent)
      else if caps.referencesProvider.None? then (Failure(NoReferencesProvider), sent)
      else if !server.accepts(Initialized) then (Failure(NotifyFailed(SendFailed)), sent + [Initialized])
      else match ScanFiles(server, files, Acc({}, {}, sent + [Initialized]))
        case Stopped(o, s) => (o, s)
        case Scanned(acc) =>
          var root := PathToUri(basePath);
          (Graph(StripNodes(root, acc.nodes), StripConnections(root, acc.connections)), acc.sent)
  }

  // ---------------------------------------------------------------- the loops

  /** The loop over one symbol's references. */
  method AddReferences(symbolUri: string, refs: seq<Location>, nodes: set<string>, connections: set<Connection>)
    returns (nodes': set<string>, connections': set<Connection>)
    ensures nodes' == nodes + ReferenceUris(refs)
    ensures connections' == connections + ReferenceEdges(symbolUri, refs)
  {
    nodes', connections' := nodes, connections;
    for k := 0 to |refs|
      invariant nodes' == nodes + ReferenceUris(refs[..k])
      invariant connections' == connections + ReferenceEdges(symbolUri, refs[..k])
    {
      var referenceUri := refs[k].uri;
      assert refs[..k + 1] == refs[..k] + [refs[k]];
      nodes' := nodes' + {referenceUri};
      if referenceUri != symbolUri {
        connections' := connections' + {Connection(referenceUri, symbolUri)};
      }
    }
    assert refs[..|refs|] == refs;
  }

  /** The loop over one file's top-level symbols. */
  method ScanSymbolsLoop(server: Server, fileUri: string, symbols: seq<DocumentSymbol>, acc: Acc) returns (r: Scan)
    ensures r == ScanSymbols(server, fileUri, symbols, acc)
  {
    var nodes, connections, sent := acc.nodes, acc.connections, acc.sent;
    var j := 0;
    while j < |symbols|
      invariant j <= |symbols|
      invariant ScanSymbols(server, fileUri, symbols, acc)
             == ScanSymbols(server, fileUri, symbols[j..], Acc(nodes, connections, sent))
    {
      var symbol := symbols[j];
      assert symbols[j..][0] == symbol && symbols[j..][1..] == symbols[j + 1..];
      nodes := nodes + {fileUri};
      var position := symbol.selectionRange.start;
      sent := sent + [References(fileUri, position)];
      match server.references(fileUri, position) {
        case Refused(e) =>
          return Stopped(Failure(RequestFailed(e)), sent);
        case Answered(None) =>
        case Answered(Some(refs)) =>
          nodes, connections := AddReferences(fileUri, refs, nodes, connections);
      }
      j := j + 1;
    }
    return Scanned(Acc(nodes, connections, sent));
  }

  /** The loop over the files. */
  method ScanFilesLoop(server: Server, files: seq<string>, acc: Acc) returns (r: Scan)
    ensures r == ScanFiles(server, files, acc)
  {
    var current := acc;
    var i := 0;
    while i < |files|
      invariant i <= |files|
      invariant ScanFiles(server, files, acc) == ScanFiles(server, files[i..], current)
    {
      assert files[i..][0] == files[i] && files[i..][1..] == files[i + 1..];
      var fileUri := PathToUri(files[i]);
      var sent := current.sent + [DidOpen(fileUri)];
      if !server.accepts(DidOpen(fileUri)) {
        return Stopped(Failure(NotifyFailed(SendFailed)), sent);
      }
      sent := sent + [DocumentSymbolRequest(fileUri)];
      match server.documentSymbols(fileUri) {
        case Refused(e) =>
          return Stopped(Failure(RequestFailed(e)), sent);
        case Answered(None) =>
          current := current.(sent := sent);
        case Answered(Some(Flat(_))) =>
          return Stopped(Unimplemented(fileUri), sent);
        case Answered(Some(Nested(symbols))) =>
          var scanned := ScanSymbolsLoop(server, fileUri, symbols, current.(sent := sent));
          if scanned.Stopped? {
            return scanned;
          }
          current := scanned.acc;
      }
      i := i + 1;
    }
    return Scanned(current);
  }

  /**
   * `get_connections`: the handshake and its checks, the walk's filter, the
   * scan of every kept file and the stripping of the root URI. Also returns
   * the requests and notifications issued, in order.
   */
  method GetConnections(server: Server, basePath: string, suffixes: seq<string>, ignore: seq<string>,
                        entries: seq<string>)
    returns (outcome: Outcome, sent: seq<Sent>)
    ensures (outcome, sent) == Connections(server, basePath, KeptFiles(entries, suffixes, ignore))
  {
    var root := PathToUri(basePath);
    sent := [Initialize];
    if server.initialize.Refused? {
      return Failure(InitializeFailed(server.initialize.error)), sent;
    }
    var caps := server.initialize.value;
    if caps.documentSymbolProvider.None? {
      return Failure(NoDocumentSymbolProvider), sent;
    }
    if caps.referencesProvider.None? {
      return Failure(NoReferencesProvider), sent;
    }
    sent := sent + [Initialized];
    if !server.accepts(Initialized) {
      return Failure(NotifyFailed(SendFailed)), sent;
    }
    var files := CollectFiles(entries, suffixes, ignore);
    var scanned := ScanFilesLoop(server, files, Acc({}, {}, sent));
    if scanned.Stopped? {
      return scanned.outcome, scanned.sent;
    }
    var nodes := StripNodes(root, scanned.acc.nodes);
    var connections := StripConnections(root, scanned.acc.connections);
    return Graph(nodes, connections), scanned.acc.sent;
  }

  // ---------------------------------------------------------------- properties

  /**
   * Without a document-symbol provider field or a references provider field
   * the run fails right after `initialize`: no notification, no file opened,
   * no per-file request.
   */
  lemma CapabilityGate(server: Server, basePath: string, files: seq<string>)
    requires server.initialize.Answered?
    requires server.initialize.value.documentSymbolProvider.None? || server.initialize.value.referencesProvider.None?
    ensures Connections(server, basePath, files).1 == [Initialize]
    ensures Connections(server, basePath, files).0
      == Failure(if server.initialize.value.documentSymbolProvider.None? then NoDocumentSymbolProvider else NoReferencesProvider)
  {
  }

  /**
   * With both provider fields present the run gets past the gate and sends
   * `initialized`, whatever the fields hold: a server announcing `false`
   * for both is not refused.
   */
  lemma PresentProvidersPass(server: Server, basePath: string, files: seq<string>)
    requires server.initialize.Answered?
    requires server.initialize.value.documentSymbolProvider.Some? && server.initialize.value.referencesProvider.Some?
    ensures Connections(server, basePath, files).0 != Failure(NoDocumentSymbolProvider)
    ensures Connections(server, basePath, files).0 != Failure(NoReferencesProvider)
    ensures |Connections(server, basePath, files).1| >= 2 && Connections(server, basePath, files).1[..2] == [Initialize, Initialized]
  {
  }

  /** The references requested for one file: one per top-level symbol, in order. */
  function Queries(fileUri: string, symbols: seq<DocumentSymbol>): (r: seq<Sent>)
    ensures |r| == |symbols|
    ensures forall j :: 0 <= j < |symbols| ==> r[j] == References(fileUri, symbols[j].selectionRange.start)
  {
    if symbols == [] then []
    else [References(fileUri, symbols[0].selectionRange.start)] + Queries(fileUri, symbols[1..])
  }

  /** The accumulator after the first symbol of a non-empty list and its references. */
  function AfterFirst(server: Server, fileUri: string, symbol: DocumentSymbol, acc: Acc): Acc
  {
    var position := symbol.selectionRange.start;
    var acc1 := acc.(nodes := acc.nodes + {fileUri}, sent := acc.sent + [References(fileUri, position)]);
    match server.references(fileUri, position)
    case Answered(Some(refs)) =>
      acc1.(nodes := acc1.nodes + ReferenceUris(refs),
            connections := acc1.connections + ReferenceEdges(fileUri, refs))
    case _ => acc1
  }

  lemma ScanSymbolsStep(server: Server, fileUri: string, symbols: seq<DocumentSymbol>, acc: Acc)
    requires symbols != [] && ScanSymbols(server, fileUri, symbols, acc).Scanned?
    ensures ScanSymbols(server, fileUri, symbols, acc)
      == ScanSymbols(server, fileUri, symbols[1..], AfterFirst(server, fileUri, symbols[0], acc))
  {
  }

  /**
   * Scanning a file's symbols asks for the references of its top-level
   * symbols and of nothing else: exactly one request per symbol, in order;
   * nested children are never queried. An empty list changes nothing.
   */
  lemma {:induction false} ScanSymbolsQueries(server: Server, fileUri: string, symbols: seq<DocumentSymbol>, acc: Acc)
    requires ScanSymbols(server, fileUri, symbols, acc).Scanned?
    ensures ScanSymbols(server, fileUri, symbols, acc).acc.sent == acc.sent + Queries(fileUri, symbols)
    ensures symbols == [] ==> ScanSymbols(server, fileUri, symbols, acc).acc == acc
    decreases |symbols|
  {
    if symbols != [] {
      var next := AfterFirst(server, fileUri, symbols[0], acc);
      ScanSymbolsStep(server, fileUri, symbols, acc);
      ScanSymbolsQueries(server, fileUri, symbols[1..], next);
      FirstQuery(server, fileUri, symbols, acc);
    }
  }

  /** The first symbol's request comes before the rest's. */
  lemma FirstQuery(server: Server, fileUri: string, symbols: seq<DocumentSymbol>, acc: Acc)
    requires symbols != []
    ensures AfterFirst(server, fileUri, symbols[0], acc).sent + Queries(fileUri, symbols[1..])
      == acc.sent + Queries(fileUri, symbols)
  {
    var query := [References(fileUri, symbols[0].selectionRange.start)];
    assert AfterFirst(server, fileUri, symbols[0], acc).sent == acc.sent + query;
    assert acc.sent + query + Queries(fileUri, symbols[1..]) == acc.sent + (query + Queries(fileUri, symbols[1..]));
  }

  /**
   * The file becomes a node when it has at least one symbol, the nodes and
   * edges only grow, every file an answered reference names is a node, and
   * every answered reference from another file is an edge to this file.
   */
  lemma {:induction false} ScanSymbolsGrows(server: Server, fileUri: string, symbols: seq<DocumentSymbol>, acc: Acc)
    requires ScanSymbols(server, fileUri, symbols, acc).Scanned?
    ensures var next := ScanSymbols(server, fileUri, symbols, acc).acc;
      && acc.nodes <= next.nodes && acc.connections <= next.connections
      && (symbols != [] ==> fileUri in next.nodes)
      && (forall j, refs :: 0 <= j < |symbols|
            && server.references(fileUri, symbols[j].selectionRange.start) == Answered(Some(refs))
            ==> ReferenceUris(refs) <= next.nodes && ReferenceEdges(fileUri, refs) <= next.connections)
    decreases |symbols|
  {
    if symbols != [] {
      var next := AfterFirst(server, fileUri, symbols[0], acc);
      ScanSymbolsStep(server, fileUri, symbols, acc);
      ScanSymbolsGrows(server, fileUri, symbols[1..], next);
      var last := ScanSymbols(server, fileUri, symbols[1..], next).acc;
      forall j, refs | 0 <= j < |symbols|
          && server.references(fileUri, symbols[j].selectionRange.start) == Answered(Some(refs))
        ensures ReferenceUris(refs) <= last.nodes && ReferenceEdges(fileUri, refs) <= last.connections
      {
        if j > 0 {
          assert symbols[1..][j - 1] == symbols[j];
        }
      }
    }
  }

  /** No edge joins a file to itself, and every edge ends at one of the files scanned. */
  ghost predicate EdgesWellFormed(connections: set<Connection>, targets: set<string>) {
    forall c :: c in connections ==> c.src != c.dst && c.dst in targets
  }

  lemma {:induction false} ScanSymbolsKeepsEdges(server: Server, fileUri: string, symbols: seq<DocumentSymbol>,
                                                 acc: Acc, targets: set<string>)
    requires fileUri in targets
    requires EdgesWellFormed(acc.connections, targets)
    requires ScanSymbols(server, fileUri, symbols, acc).Scanned?
    ensures EdgesWellFormed(ScanSymbols(server, fileUri, symbols, acc).acc.connections, targets)
    decreases |symbols|
  {
    if symbols != [] {
      var position := symbols[0].selectionRange.start;
      var acc1 := acc.(nodes := acc.nodes + {fileUri}, sent := acc.sent + [References(fileUri, position)]);
      match server.references(fileUri, position)
      case Refused(_) =>
      case Answered(None) =>
        ScanSymbolsKeepsEdges(server, fileUri, symbols[1..], acc1, targets);
      case Answered(Some(refs)) =>
        var acc2 := acc1.(nodes := acc1.nodes + ReferenceUris(refs),
                          connections := acc1.connections + ReferenceEdges(fileUri, refs));
        ScanSymbolsKeepsEdges(server, fileUri, symbols[1..], acc2, targets);
    }
  }

  lemma {:induction false} ScanFilesKeepsEdges(server: Server, files: seq<string>, acc: Acc, targets: set<string>)
    requires forall f :: f in files ==> PathToUri(f) in targets
    requires EdgesWellFormed(acc.connections, targets)
    requires ScanFiles(server, files, acc).Scanned?
    ensures EdgesWellFormed(ScanFiles(server, files, acc).acc.connections, targets)
    decreases |files|
  {
    if files != [] {
      var uri := PathToUri(files[0]);
      var asked := acc.sent + [DidOpen(uri)] + [DocumentSymbolRequest(uri)];
      assert forall f :: f in files[1..] ==> f in files;
      match server.documentSymbols(uri)
      case Refused(_) =>
      case Answered(None) =>
        ScanFilesKeepsEdges(server, files[1..], acc.(sent := asked), targets);
      case Answered(Some(Flat(_))) =>
      case Answered(Some(Nested(symbols))) =>
        ScanSymbolsKeepsEdges(server, uri, symbols, acc.(sent := asked), targets);
        var next := ScanSymbols(server, uri, symbols, acc.(sent := asked)).acc;
        ScanFilesKeepsEdges(server, files[1..], next, targets);
    }
  }

  /** The URIs of the files scanned. */
  function FileUris(files: seq<string>): set<string>
  {
    set f | f in files :: PathToUri(f)
  }

  /**
   * In the graph `get_connections` returns, no edge is a self-loop and every
   * edge ends at a scanned file's path below the root.
   */
  lemma GraphEdgesWellFormed(server: Server, basePath: string, files: seq<string>)
    requires Connections(server, basePath, files).0.Graph?
    ensures forall c :: c in Connections(server, basePath, files).0.connections ==>
      c.src != c.dst && PathToUri(basePath) + c.dst in FileUris(files)
  {
    var acc0 := Acc({}, {}, [Initialize] + [Initialized]);
    match ScanFiles(server, files, acc0) {
      case Stopped(_, _) =>
      case Scanned(_) =>
        ScanFilesKeepsEdges(server, files, acc0, FileUris(files));
    }
  }

  /** The edges the answered references of a file's top-level symbols contribute. */
  function AnsweredEdges(server: Server, fileUri: string, symbols: seq<DocumentSymbol>): set<Connection>
    decreases |symbols|
  {
    if symbols == [] then {}
    else
      (match server.references(fileUri, symbols[0].selectionRange.start)
       case Answered(Some(refs)) => ReferenceEdges(fileUri, refs)
       case _ => {})
      + AnsweredEdges(server, fileUri, symbols[1..])
  }

  /** The edges every file with a nested symbol answer contributes. */
  function FileEdges(server: Server, files: seq<string>): set<Connection>
    decreases |files|
  {
    if files == [] then {}
    else
      (match server.documentSymbols(PathToUri(files[0]))
       case Answered(Some(Nested(symbols))) => AnsweredEdges(server, PathToUri(files[0]), symbols)
       case _ => {})
      + FileEdges(server, files[1..])
  }

  /** An edge comes from a file's symbols exactly when an answered reference of one of them makes it. */
  lemma {:induction false} AnsweredEdgesIff(server: Server, fileUri: string, symbols: seq<DocumentSymbol>, c: Connection)
    ensures c in AnsweredEdges(server, fileUri, symbols) <==>
      exists j, refs :: 0 <= j < |symbols|
        && server.references(fileUri, symbols[j].selectionRange.start) == Answered(Some(refs))
        && c in ReferenceEdges(fileUri, refs)
    decreases |symbols|
  {
    if symbols != [] {
      AnsweredEdgesIff(server, fileUri, symbols[1..], c);
      if exists j, refs :: 0 <= j < |symbols|
          && server.references(fileUri, symbols[j].selectionRange.start) == Answered(Some(refs))
          && c in ReferenceEdges(fileUri, refs)
      {
        var j, refs :| 0 <= j < |symbols|
          && server.references(fileUri, symbols[j].selectionRange.start) == Answered(Some(refs))
          && c in ReferenceEdges(fileUri, refs);
        if j > 0 {
          assert symbols[1..][j - 1] == symbols[j];
        }
      }
      if c in AnsweredEdges(server, fileUri, symbols[1..]) {
        var j, refs :| 0 <= j < |symbols[1..]|
          && server.references(fileUri, symbols[1..][j].selectionRange.start) == Answered(Some(refs))
          && c in ReferenceEdges(fileUri, refs);
        assert symbols[1..][j] == symbols[j + 1];
      }
    }
  }

  /** An edge comes from the files exactly when one of them, answered with nested symbols, makes it. */
  lemma {:induction false} FileEdgesIff(server: Server, files: seq<string>, c: Connection)
    ensures c in FileEdges(server, files) <==>
      exists k, symbols :: 0 <= k < |files|
        && server.documentSymbols(PathToUri(files[k])) == Answered(Some(Nested(symbols)))
        && c in AnsweredEdges(server, PathToUri(files[k]), symbols)
    decreases |files|
  {
    if files != [] {
      FileEdgesIff(server, files[1..], c);
      if exists k, symbols :: 0 <= k < |files|
          && server.documentSymbols(PathToUri(files[k])) == Answered(Some(Nested(symbols)))
          && c in AnsweredEdges(server, PathToUri(files[k]), symbols)
      {
        var k, symbols :| 0 <= k < |files|
          && server.documentSymbols(PathToUri(files[k])) == Answered(Some(Nested(symbols)))
          && c in AnsweredEdges(server, PathToUri(files[k]), symbols);
        if k > 0 {
          assert files[1..][k - 1] == files[k];
        }
      }
      if c in FileEdges(server, files[1..]) {
        var k, symbols :| 0 <= k < |files[1..]|
          && server.documentSymbols(PathToUri(files[1..][k])) == Answered(Some(Nested(symbols)))
          && c in AnsweredEdges(server, PathToUri(files[1..][k]), symbols);
        assert files[1..][k] == files[k + 1];
      }
    }
  }

  /** The symbols loop adds exactly the edges of the answered references. */
  lemma {:induction false} ScanSymbolsEdges(server: Server, fileUri: string, symbols: seq<DocumentSymbol>, acc: Acc)
    requires ScanSymbols(server, fileUri, symbols, acc).Scanned?
    ensures ScanSymbols(server, fileUri, symbols, acc).acc.connections
      == acc.connections + AnsweredEdges(server, fileUri, symbols)
    decreases |symbols|
  {
    if symbols != [] {
      ScanSymbolsStep(server, fileUri, symbols, acc);
      ScanSymbolsEdges(server, fileUri, symbols[1..], AfterFirst(server, fileUri, symbols[0], acc));
    }
  }

  /** The files loop adds exactly the edges of the answered references of every file. */
  lemma {:induction false} ScanFilesEdges(server: Server, files: seq<string>, acc: Acc)
    requires ScanFiles(server, files, acc).Scanned?
    ensures ScanFiles(server, files, acc).acc.connections == acc.connections + FileEdges(server, files)
    decreases |files|
  {
    if files != [] {
      var uri := PathToUri(files[0]);
      var asked := acc.sent + [DidOpen(uri)] + [DocumentSymbolRequest(uri)];
      match server.documentSymbols(uri)
      case Answered(None) =>
        ScanFilesEdges(server, files[1..], acc.(sent := asked));
      case Answered(Some(Nested(symbols))) =>
        ScanSymbolsEdges(server, uri, symbols, acc.(sent := asked));
        ScanFilesEdges(server, files[1..], ScanSymbols(server, uri, symbols, acc.(sent := asked)).acc);
      case _ =>
    }
  }

  /**
   * The edges of the graph `get_connections` returns are exactly the answered
   * references from one file to another, both ends stripped of the root: with
   * `FileEdgesIff` and `AnsweredEdgesIff`, `(a, b)` is an edge exactly when
   * some top-level symbol of the scanned file `root + b` has a reference in
   * `root + a`, and `a` differs from `b`.
   */
  lemma GraphEdgesExact(server: Server, basePath: string, files: seq<string>)
    requires Connections(server, basePath, files).0.Graph?
    ensures forall a, b ::
              Connection(a, b) in Connections(server, basePath, files).0.connections
              <==> Connection(PathToUri(basePath) + a, PathToUri(basePath) + b) in FileEdges(server, files)
  {
    ScanFilesEdges(server, files, Acc({}, {}, [Initialize] + [Initialized]));
  }

  /** The nodes a file's top-level symbols contribute: the file itself, once it has a symbol, and every answered reference's file. */
  function AnsweredNodes(server: Server, fileUri: string, symbols: seq<DocumentSymbol>): set<string>
    decreases |symbols|
  {
    if symbols == [] then {}
    else
      {fileUri}
      + (match server.references(fileUri, symbols[0].selectionRange.start)
         case Answered(Some(refs)) => ReferenceUris(refs)
         case _ => {})
      + AnsweredNodes(server, fileUri, symbols[1..])
  }

  /** The nodes every file with a nested symbol answer contributes. */
  function FileNodes(server: Server, files: seq<string>): set<string>
    decreases |files|
  {
    if files == [] then {}
    else
      (match server.documentSymbols(PathToUri(files[0]))
       case Answered(Some(Nested(symbols))) => AnsweredNodes(server, PathToUri(files[0]), symbols)
       case _ => {})
      + FileNodes(server, files[1..])
  }

  /**
   * A node comes from a file's symbols exactly when it is the file itself and
   * the file has a top-level symbol, or an answered reference of one of them
   * lies in it.
   */
  lemma {:induction false} AnsweredNodesIff(server: Server, fileUri: string, symbols: seq<DocumentSymbol>, n: string)
    ensures n in AnsweredNodes(server, fileUri, symbols) <==>
      (symbols != [] && n == fileUri)
      || exists j, refs :: 0 <= j < |symbols|
           && server.references(fileUri, symbols[j].selectionRange.start) == Answered(Some(refs))
           && n in ReferenceUris(refs)
    decreases |symbols|
  {
    if symbols != [] {
      AnsweredNodesIff(server, fileUri, symbols[1..], n);
      if exists j, refs :: 0 <= j < |symbols|
          && server.references(fileUri, symbols[j].selectionRange.start) == Answered(Some(refs))
          && n in ReferenceUris(refs)
      {
        var j, refs :| 0 <= j < |symbols|
          && server.references(fileUri, symbols[j].selectionRange.start) == Answered(Some(refs))
          && n in ReferenceUris(refs);
        if j > 0 {
          assert symbols[1..][j - 1] == symbols[j];
        }
      }
      if n in AnsweredNodes(server, fileUri, symbols[1..]) && n != fileUri {
        var j, refs :| 0 <= j < |symbols[1..]|
          && server.references(fileUri, symbols[1..][j].selectionRange.start) == Answered(Some(refs))
          && n in ReferenceUris(refs);
        assert symbols[1..][j] == symbols[j + 1];
      }
    }
  }

  /** A node comes from the files exactly when one of them, answered with nested symbols, contributes it. */
  lemma {:induction false} FileNodesIff(server: Server, files: seq<string>, n: string)
    ensures n in FileNodes(server, files) <==>
      exists k, symbols :: 0 <= k < |files|
        && server.documentSymbols(PathToUri(files[k])) == Answered(Some(Nested(symbols)))
        && n in AnsweredNodes(server, PathToUri(files[k]), symbols)
    decreases |files|
  {
    if files != [] {
      FileNodesIff(server, files[1..], n);
      if exists k, symbols :: 0 <= k < |files|
          && server.documentSymbols(PathToUri(files[k])) == Answered(Some(Nested(symbols)))
          && n in AnsweredNodes(server, PathToUri(files[k]), symbols)
      {
        var k, symbols :| 0 <= k < |files|
          && server.documentSymbols(PathToUri(files[k])) == Answered(Some(Nested(symbols)))
          && n in AnsweredNodes(server, PathToUri(files[k]), symbols);
        if k > 0 {
          assert files[1..][k - 1] == files[k];
        }
      }
      if n in FileNodes(server, files[1..]) {
        var k, symbols :| 0 <= k < |files[1..]|
          && server.documentSymbols(PathToUri(files[1..][k])) == Answered(Some(Nested(symbols)))
          && n in AnsweredNodes(server, PathToUri(files[1..][k]), symbols);
        assert files[1..][k] == files[k + 1];
      }
    }
  }

  /** The symbols loop adds exactly the file and the files of the answered references. */
  lemma {:induction false} ScanSymbolsNodes(server: Server, fileUri: string, symbols: seq<DocumentSymbol>, acc: Acc)
    requires ScanSymbols(server, fileUri, symbols, acc).Scanned?
    ensures ScanSymbols(server, fileUri, symbols, acc).acc.nodes
      == acc.nodes + AnsweredNodes(server, fileUri, symbols)
    decreases |symbols|
  {
    if symbols != [] {
      ScanSymbolsStep(server, fileUri, symbols, acc);
      ScanSymbolsNodes(server, fileUri, symbols[1..], AfterFirst(server, fileUri, symbols[0], acc));
    }
  }

  /** The files loop adds exactly the nodes of every file answered with nested symbols. */
  lemma {:induction false} ScanFilesNodes(server: Server, files: seq<string>, acc: Acc)
    requires ScanFiles(server, files, acc).Scanned?
    ensures ScanFiles(server, files, acc).acc.nodes == acc.nodes + FileNodes(server, files)
    decreases |files|
  {
    if files != [] {
      var uri := PathToUri(files[0]);
      var asked := acc.sent + [DidOpen(uri)] + [DocumentSymbolRequest(uri)];
      match server.documentSymbols(uri)
      case Answered(None) =>
        ScanFilesNodes(server, files[1..], acc.(sent := asked));
      case Answered(Some(Nested(symbols))) =>
        ScanSymbolsNodes(server, uri, symbols, acc.(sent := asked));
        ScanFilesNodes(server, files[1..], ScanSymbols(server, uri, symbols, acc.(sent := asked)).acc);
      case _ =>
    }
  }

  /**
   * The nodes of the graph `get_connections` returns are exactly the
   * contributed nodes below the root, stripped of it: with `FileNodesIff` and
   * `AnsweredNodesIff`, `n` is a node exactly when `root + n` is a scanned
   * file with a top-level symbol or the file of an answered reference.
   */
  lemma GraphNodesExact(server: Server, basePath: string, files: seq<string>)
    requires Connections(server, basePath, files).0.Graph?
    ensures forall n ::
              n in Connections(server, basePath, files).0.nodes
              <==> PathToUri(basePath) + n in FileNodes(server, files)
  {
    ScanFilesNodes(server, files, Acc({}, {}, [Initialize] + [Initialized]));
  }

  /**
   * The worked two-file project under `/r`: `a.rs` declares `f`, `b.rs`
   * declares `g`, and the only reference from another file is `g`'s call of
   * `f` in `b.rs`. The references of `f` include its own declaration.
   */
  function ScenarioServer(f: DocumentSymbol, g: DocumentSymbol, call: Range): Server
  {
    var aUri := "file:///r/a.rs";
    var bUri := "file:///r/b.rs";
    Server(
      Answered(Capabilities(Some(Flag(true)), Some(Flag(true)))),
      notification => true,
      uri => if uri == aUri then Answered(Some(Nested([f])))
             else if uri == bUri then Answered(Some(Nested([g])))
             else Answered(None),
      (uri, position) =>
        if uri == aUri && position == f.selectionRange.start
        then Answered(Some([Location(aUri, f.selectionRange), Location(bUri, call)]))
        else if uri == bUri && position == g.selectionRange.start
        then Answered(Some([Location(bUri, g.selectionRange)]))
        else Answered(None))
  }

  /**
   * In the worked project the graph has the nodes `/a.rs` and `/b.rs` and the
   * one edge from `/b.rs` to `/a.rs`: the base path is a canonical path, which
   * has no trailing slash, so each name keeps the slash that follows the root.
   */
  lemma ScenarioGraph(f: DocumentSymbol, g: DocumentSymbol, call: Range)
    ensures Connections(ScenarioServer(f, g, call), "/r", ["/r/a.rs", "/r/b.rs"]).0
      == Graph({"/a.rs", "/b.rs"}, {Connection("/b.rs", "/a.rs")})
  {
    var root, scanned := ScenarioRun(f, g, call);
    StripPair(root, "/a.rs", "/b.rs");
    StripEdge(root, "/b.rs", "/a.rs");
  }

  /** Stripping the root from two files' URIs gives their names. */
  lemma StripPair(root: string, x: string, y: string)
    ensures StripNodes(root, {root + x, root + y}) == {x, y}
  {
    forall n ensures n in StripNodes(root, {root + x, root + y}) <==> n in {x, y} {
      StripOne(root, n, x);
      StripOne(root, n, y);
    }
  }

  /** Stripping the root from an edge's two ends gives the edge between the names. */
  lemma StripEdge(root: string, x: string, y: string)
    ensures StripConnections(root, {Connection(root + x, root + y)}) == {Connection(x, y)}
  {
    forall c ensures c in StripConnections(root, {Connection(root + x, root + y)}) <==> c == Connection(x, y) {
      StripOne(root, c.src, x);
      StripOne(root, c.dst, y);
    }
  }

  /** The run over the worked project gets past the gate and returns the scan's sets, stripped. */
  lemma ScenarioRun(f: DocumentSymbol, g: DocumentSymbol, call: Range) returns (root: string, scanned: Acc)
    ensures Connections(ScenarioServer(f, g, call), "/r", ["/r/a.rs", "/r/b.rs"]).0
      == Graph(StripNodes(root, scanned.nodes), StripConnections(root, scanned.connections))
    ensures scanned.nodes == {root + "/a.rs", root + "/b.rs"}
    ensures scanned.connections == {Connection(root + "/b.rs", root + "/a.rs")}
  {
    root := ScenarioUris();
    scanned := ScenarioScan(f, g, call);
  }

  /** Two URIs below one root are equal exactly when their names are. */
  lemma StripOne(root: string, n: string, m: string)
    ensures root + n == root + m <==> n == m
  {
    if root + n == root + m {
      assert (root + n)[|root|..] == n && (root + m)[|root|..] == m;
    }
  }

  /** The URIs of the worked project: the root and the two files below it. */
  lemma ScenarioUris() returns (root: string)
    ensures root == PathToUri("/r")
    ensures PathToUri("/r/a.rs") == "file:///r/a.rs" == root + "/a.rs"
    ensures PathToUri("/r/b.rs") == "file:///r/b.rs" == root + "/b.rs"
    ensures "file:///r/a.rs" != "file:///r/b.rs"
  {
    root := PathToUri("/r");
    assert "file:///r/a.rs"[10] != "file:///r/b.rs"[10];
  }

  /** Scanning the worked project's two files. */
  lemma ScenarioScan(f: DocumentSymbol, g: DocumentSymbol, call: Range) returns (scanned: Acc)
    ensures ScanFiles(ScenarioServer(f, g, call), ["/r/a.rs", "/r/b.rs"], Acc({}, {}, [Initialize] + [Initialized]))
      == Scanned(scanned)
    ensures scanned.nodes == {"file:///r/a.rs", "file:///r/b.rs"}
    ensures scanned.connections == {Connection("file:///r/b.rs", "file:///r/a.rs")}
  {
    var _ := ScenarioUris();
    var server := ScenarioServer(f, g, call);
    var aUri, bUri := "file:///r/a.rs", "file:///r/b.rs";
    var acc0 := Acc({}, {}, [Initialize] + [Initialized]);
    var askedA := acc0.sent + [DidOpen(aUri)] + [DocumentSymbolRequest(aUri)];
    var afterA := ScenarioFileA(f, g, call, acc0.(sent := askedA));
    assert ["/r/a.rs", "/r/b.rs"][1..] == ["/r/b.rs"];
    assert ScanFiles(server, ["/r/a.rs", "/r/b.rs"], acc0) == ScanFiles(server, ["/r/b.rs"], afterA);
    var askedB := afterA.sent + [DidOpen(bUri)] + [DocumentSymbolRequest(bUri)];
    scanned := ScenarioFileB(f, g, call, afterA.(sent := askedB));
    assert ["/r/b.rs"][1..] == [];
  }

  /** The file `a.rs` of the worked project: its symbol `f` is referenced from itself and from `b.rs`. */
  lemma ScenarioFileA(f: DocumentSymbol, g: DocumentSymbol, call: Range, acc: Acc) returns (next: Acc)
    ensures ScanSymbols(ScenarioServer(f, g, call), "file:///r/a.rs", [f], acc) == Scanned(next)
    ensures ScenarioServer(f, g, call).documentSymbols("file:///r/a.rs") == Answered(Some(Nested([f])))
    ensures next.nodes == acc.nodes + {"file:///r/a.rs", "file:///r/b.rs"}
    ensures next.connections == acc.connections + {Connection("file:///r/b.rs", "file:///r/a.rs")}
  {
    var server := ScenarioServer(f, g, call);
    var aUri, bUri := "file:///r/a.rs", "file:///r/b.rs";
    ScanSymbolsStep(server, aUri, [f], acc);
    next := AfterFirst(server, aUri, f, acc);
    assert [f][1..] == [];
    var refs := [Location(aUri, f.selectionRange), Location(bUri, call)];
    assert server.references(aUri, f.selectionRange.start) == Answered(Some(refs));
    assert ReferenceUris(refs) == {aUri, bUri};
    assert aUri != bUri by {
      assert aUri[10] != bUri[10];
    }
    assert ReferenceEdges(aUri, refs) == {Connection(bUri, aUri)};
  }

  /** The file `b.rs` of the worked project: its symbol `g` is referenced only from itself. */
  lemma ScenarioFileB(f: DocumentSymbol, g: DocumentSymbol, call: Range, acc: Acc) returns (next: Acc)
    requires "file:///r/b.rs" in acc.nodes
    ensures ScanSymbols(ScenarioServer(f, g, call), "file:///r/b.rs", [g], acc) == Scanned(next)
    ensures ScenarioServer(f, g, call).documentSymbols("file:///r/b.rs") == Answered(Some(Nested([g])))
    ensures next.nodes == acc.nodes && next.connections == acc.connections
  {
    var server := ScenarioServer(f, g, call);
    var aUri, bUri := "file:///r/a.rs", "file:///r/b.rs";
    assert aUri != bUri by {
      assert aUri[10] != bUri[10];
    }
    ScanSymbolsStep(server, bUri, [g], acc);
    next := AfterFirst(server, bUri, g, acc);
    assert [g][1..] == [];
    var refs := [Location(bUri, g.selectionRange)];
    assert server.references(bUri, g.selectionRange.start) == Answered(Some(refs));
    assert ReferenceUris(refs) == {bUri};
    assert ReferenceEdges(bUri, refs) == {};
  }

  /** A file whose symbol request answers nothing adds no node and no edge. */
  lemma FileWithoutSymbolsSkipped(server: Server, files: seq<string>, acc: Acc)
    requires files != [] && server.accepts(DidOpen(PathToUri(files[0])))
    requires server.documentSymbols(PathToUri(files[0])) == Answered(None)
    ensures ScanFiles(server, files, acc)
      == ScanFiles(server, files[1..], acc.(sent := acc.sent + [DidOpen(PathToUri(files[0])), DocumentSymbolRequest(PathToUri(files[0]))]))
  {
    assert acc.sent + [DidOpen(PathToUri(files[0]))] + [DocumentSymbolRequest(PathToUri(files[0]))]
        == acc.sent + [DidOpen(PathToUri(files[0])), DocumentSymbolRequest(PathToUri(files[0]))];
  }

  /** A flat symbol list stops the run at that file, with no graph. */
  lemma FlatSymbolsUnimplemented(server: Server, files: seq<string>, acc: Acc, flat: seq<SymbolInformation>)
    requires files != [] && server.accepts(DidOpen(PathToUri(files[0])))
    requires server.documentSymbols(PathToUri(files[0])) == Answered(Some(Flat(flat)))
    ensures ScanFiles(server, files, acc).Stopped?
    ensures ScanFiles(server, files, acc).outcome == Unimplemented(PathToUri(files[0]))
  {
  }

  /**
   * A `didOpen` the transport does not take stops the run at that file with
   * the notify error: nothing is requested for it and no graph is returned.
   */
  lemma DidOpenFailureStops(server: Server, files: seq<string>, acc: Acc)
    requires files != [] && !server.accepts(DidOpen(PathToUri(files[0])))
    ensures ScanFiles(server, files, acc) == Stopped(Failure(NotifyFailed(SendFailed)), acc.sent + [DidOpen(PathToUri(files[0]))])
  {
  }

  /**
   * Past the gate, a file whose `didOpen` fails ends the whole run with the
   * notify error, after the files before it were scanned.
   */
  lemma {:induction false} LaterDidOpenFails(server: Server, files: seq<string>, acc: Acc)
    requires |files| >= 2 && server.accepts(DidOpen(PathToUri(files[0])))
    requires server.documentSymbols(PathToUri(files[0])) == Answered(None)
    requires !server.accepts(DidOpen(PathToUri(files[1])))
    ensures ScanFiles(server, files, acc).Stopped?
    ensures ScanFiles(server, files, acc).outcome == Failure(NotifyFailed(SendFailed))
    ensures ScanFiles(server, files, acc).sent
         == acc.sent + [DidOpen(PathToUri(files[0])), DocumentSymbolRequest(PathToUri(files[0])), DidOpen(PathToUri(files[1]))]
  {
    FileWithoutSymbolsSkipped(server, files, acc);
    var acc1 := acc.(sent := acc.sent + [DidOpen(PathToUri(files[0])), DocumentSymbolRequest(PathToUri(files[0]))]);
    assert files[1..][0] == files[1];
    DidOpenFailureStops(server, files[1..], acc1);
  }
}
