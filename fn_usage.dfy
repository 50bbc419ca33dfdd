/**
 * The function-usage analyser: collect the functions and methods of every
 * project file from its document symbols, ask the server for their call
 * hierarchy items and incoming calls, keep the calls made from below the
 * project root, and score every function by how many functions reach it.
 *
 * The server is a value: its answers to `documentSymbol`,
 * `prepareCallHierarchy` and `incomingCalls`. Every answer the analyser
 * cannot use (an error, an empty result, a caller outside the items) is a
 * panic in the source and `None` here.
 */
module FnUsage {
  import opened Wrappers
  import opened LspTypes
  import opened Reach

  /** `(Url, Position)`: a function's document and the start of its name. */
  datatype Entry = Entry(uri: string, position: Position)

  datatype Server = Server(
    documentSymbols: string -> Reply<Option<DocumentSymbolResponse>>,
    prepare: (string, Position) -> Reply<Option<seq<CallHierarchyItem>>>,
    incomingCalls: CallHierarchyItem -> Reply<Option<seq<IncomingCall>>>)

  // ---------------------------------------------------------------- get_project_functions

  /** The entry a symbol contributes itself: one when it is a function or a method. */
  function OwnEntry(uri: string, s: DocumentSymbol): seq<Entry> {
    if IsCallable(s.kind) then [Entry(uri, s.selectionRange.start)] else []
  }

  /** The entries of a symbol and of everything below it, the symbol first. */
  function SymbolFunctions(uri: string, s: DocumentSymbol): seq<Entry>
    decreases s, 1
  {
    OwnEntry(uri, s) + ChildFunctions(uri, s, |s.children|)
  }

  /** The entries of the first `k` children of `s` and of everything below them. */
  function ChildFunctions(uri: string, s: DocumentSymbol, k: nat): seq<Entry>
    requires k <= |s.children|
    decreases s, 0, k
  {
    if k == 0 then []
    else
      ChildFunctions(uri, s, k - 1) + SymbolFunctions(uri, s.children[k - 1])
  }

  /** The entries `walk_nested_symbols` pushes for a list of sibling symbols. */
  function NestedFunctions(uri: string, nested: seq<DocumentSymbol>): seq<Entry>
  {
    if nested == [] then []
    else NestedFunctions(uri, nested[..|nested| - 1]) + SymbolFunctions(uri, nested[|nested| - 1])
  }

  lemma {:induction false} ChildFunctionsAreNested(uri: string, s: DocumentSymbol, k: nat)
    requires k <= |s.children|
    ensures ChildFunctions(uri, s, k) == NestedFunctions(uri, s.children[..k])
    decreases k
  {
    if k > 0 {
      ChildFunctionsAreNested(uri, s, k - 1);
      assert s.children[..k][..k - 1] == s.children[..k - 1];
    }
  }

  /**
   * `walk_nested_symbols`: pushes the entry of every function or method in
   * `nested`, at any depth. `owner` is a symbol whose children are `nested`;
   * it only measures the depth of the recursion.
   */
  method WalkNestedSymbols(uri: string, nested: seq<DocumentSymbol>, symbols: seq<Entry>, ghost owner: DocumentSymbol)
    returns (out: seq<Entry>)
    requires owner.children == nested
    ensures out == symbols + NestedFunctions(uri, nested)
    decreases owner
  {
    out := symbols;
    for k := 0 to |nested|
      invariant out == symbols + NestedFunctions(uri, nested[..k])
    {
      var s := nested[k];
      WalkStep(uri, nested, k, symbols);
      if IsCallable(s.kind) {
        out := out + [Entry(uri, s.selectionRange.start)];
      }
      assert s in owner.children;
      out := WalkNestedSymbols(uri, s.children, out, s);
    }
    assert nested[..|nested|] == nested;
  }

  /** Walking one more sibling adds its own entry, then its children's. */
  lemma NestedStep(uri: string, nested: seq<DocumentSymbol>, k: nat)
    requires k < |nested|
    ensures NestedFunctions(uri, nested[..k + 1])
      == NestedFunctions(uri, nested[..k]) + OwnEntry(uri, nested[k]) + NestedFunctions(uri, nested[k].children)
  {
    assert nested[..k + 1][..k] == nested[..k];
    ChildFunctionsAreNested(uri, nested[k], |nested[k].children|);
    assert nested[k].children[..|nested[k].children|] == nested[k].children;
  }

  /** The loop step of `WalkNestedSymbols`: what it has pushed after one more sibling. */
  lemma {:induction false} WalkStep(uri: string, nested: seq<DocumentSymbol>, k: nat, symbols: seq<Entry>)
    requires k < |nested|
    ensures symbols + NestedFunctions(uri, nested[..k]) + OwnEntry(uri, nested[k]) + NestedFunctions(uri, nested[k].children)
      == symbols + NestedFunctions(uri, nested[..k + 1])
  {
    NestedStep(uri, nested, k);
    var p, q, r := NestedFunctions(uri, nested[..k]), OwnEntry(uri, nested[k]), NestedFunctions(uri, nested[k].children);
    assert symbols + p + q + r == symbols + (p + q + r);
  }

  /** Sibling lists are walked one after the other. */
  lemma {:induction false} NestedFunctionsAppend(uri: string, a: seq<DocumentSymbol>, b: seq<DocumentSymbol>)
    ensures NestedFunctions(uri, a + b) == NestedFunctions(uri, a) + NestedFunctions(uri, b)
    decreases |b|
  {
    if b == [] {
      assert a + b == a;
    } else {
      var init, last := b[..|b| - 1], b[|b| - 1];
      assert (a + b)[..|a + b| - 1] == a + init;
      assert (a + b)[|a + b| - 1] == last;
      assert NestedFunctions(uri, a + b) == NestedFunctions(uri, a + init) + SymbolFunctions(uri, last);
      assert NestedFunctions(uri, b) == NestedFunctions(uri, init) + SymbolFunctions(uri, last);
      NestedFunctionsAppend(uri, a, init);
    }
  }

  /**
   * Pre-order: a symbol's own entry, when it is a function or a method,
   * comes before the entries of its children; a symbol of another kind adds
   * nothing itself but its children are still walked.
   */
  lemma SymbolBeforeChildren(uri: string, s: DocumentSymbol)
    ensures NestedFunctions(uri, [s]) == OwnEntry(uri, s) + NestedFunctions(uri, s.children)
    ensures !IsCallable(s.kind) ==> NestedFunctions(uri, [s]) == NestedFunctions(uri, s.children)
  {
    assert [s][..0] == [];
    ChildFunctionsAreNested(uri, s, |s.children|);
    assert s.children[..|s.children|] == s.children;
  }

  /** The entries of a flat answer: `location.range.start` of every function or method, in order. */
  function FlatFunctions(uri: string, flat: seq<SymbolInformation>): seq<Entry>
  {
    if flat == [] then []
    else
      var s := flat[|flat| - 1];
      FlatFunctions(uri, flat[..|flat| - 1])
        + (if IsCallable(s.kind) then [Entry(uri, s.location.range.start)] else [])
  }

  /** A flat answer yields exactly the starts of its functions and methods. */
  lemma {:induction false} FlatFunctionsIff(uri: string, flat: seq<SymbolInformation>)
    ensures forall e :: e in FlatFunctions(uri, flat) <==>
      exists i :: 0 <= i < |flat| && IsCallable(flat[i].kind) && e == Entry(uri, flat[i].location.range.start)
    decreases |flat|
  {
    if flat != [] {
      var init := flat[..|flat| - 1];
      FlatFunctionsIff(uri, init);
      forall e ensures e in FlatFunctions(uri, flat) <==>
        exists i :: 0 <= i < |flat| && IsCallable(flat[i].kind) && e == Entry(uri, flat[i].location.range.start)
      {
        if exists i :: 0 <= i < |init| && IsCallable(init[i].kind) && e == Entry(uri, init[i].location.range.start) {
          var i :| 0 <= i < |init| && IsCallable(init[i].kind) && e == Entry(uri, init[i].location.range.start);
          assert flat[i] == init[i];
        }
        if exists i :: 0 <= i < |flat| && IsCallable(flat[i].kind) && e == Entry(uri, flat[i].location.range.start) {
          var i :| 0 <= i < |flat| && IsCallable(flat[i].kind) && e == Entry(uri, flat[i].location.range.start);
          if i < |init| {
            assert flat[i] == init[i];
          }
        }
      }
    }
  }

  function ResponseFunctions(uri: string, response: DocumentSymbolResponse): seq<Entry>
  {
    match response
    case Flat(flat) => FlatFunctions(uri, flat)
    case Nested(nested) => NestedFunctions(uri, nested)
  }

  /** `get_project_functions`: the entries of every file in order, or `None` for the panic on an unusable answer. */
  function ProjectFunctions(server: Server, files: seq<string>): Option<seq<Entry>>
  {
    if files == [] then Some([])
    else match ProjectFunctions(server, files[..|files| - 1])
      case None => None
      case Some(symbols) =>
        var uri := PathToUri(files[|files| - 1]);
        match server.documentSymbols(uri)
        case Answered(Some(response)) => Some(symbols + ResponseFunctions(uri, response))
        case _ => None
  }

  lemma ProjectFunctionsStopsAtPanic(server: Server, files: seq<string>, k: nat)
    requires k <= |files| && ProjectFunctions(server, files[..k]).None?
    ensures ProjectFunctions(server, files).None?
    decreases |files| - k
  {
    if k < |files| {
      assert files[..k + 1][..k] == files[..k];
      ProjectFunctionsStopsAtPanic(server, files, k + 1);
    } else {
      assert files[..k] == files;
    }
  }

  method GetProjectFunctions(server: Server, files: seq<string>) returns (r: Option<seq<Entry>>)
    ensures r == ProjectFunctions(server, files)
  {
    var symbols: seq<Entry> := [];
    for i := 0 to |files|
      invariant ProjectFunctions(server, files[..i]) == Some(symbols)
    {
      assert files[..i + 1][..i] == files[..i];
      var uri := PathToUri(files[i]);
      var reply := server.documentSymbols(uri);
      if !(reply.Answered? && reply.value.Some?) {
        ProjectFunctionsStopsAtPanic(server, files, i + 1);
        return None;
      }
      assert ProjectFunctions(server, files[..i + 1]) == Some(symbols + ResponseFunctions(uri, reply.value.value));
      ghost var before := symbols;
      match reply.value.value {
        case Flat(flat) =>
          for j := 0 to |flat|
            invariant symbols == before + FlatFunctions(uri, flat[..j])
          {
            assert flat[..j + 1][..j] == flat[..j];
            if IsCallable(flat[j].kind) {
              symbols := symbols + [Entry(uri, flat[j].location.range.start)];
            }
          }
          assert flat[..|flat|] == flat;
        case Nested(nested) =>
          ghost var root := DocumentSymbol("", 0, Range(Position(0, 0), Position(0, 0)),
                                           Range(Position(0, 0), Position(0, 0)), nested);
          symbols := WalkNestedSymbols(uri, nested, symbols, root);
      }
    }
    assert files[..|files|] == files;
    return Some(symbols);
  }

  // ---------------------------------------------------------------- get_function_calls

  /** The prepared items that are functions or methods, in order. */
  function Callable(items: seq<CallHierarchyItem>): (r: seq<CallHierarchyItem>)
    ensures forall x :: x in r <==> x in items && IsCallable(x.kind)
  {
    if items == [] then []
    else
      var init := items[..|items| - 1];
      assert forall x :: x in items <==> x in init || x == items[|items| - 1];
      Callable(init) + (if IsCallable(items[|items| - 1].kind) then [items[|items| - 1]] else [])
  }

  /** The items prepared at every entry, kept when they are functions or methods. */
  function KeptItems(server: Server, symbols: seq<Entry>): Option<seq<CallHierarchyItem>>
  {
    if symbols == [] then Some([])
    else match KeptItems(server, symbols[..|symbols| - 1])
      case None => None
      case Some(items) =>
        var e := symbols[|symbols| - 1];
        match server.prepare(e.uri, e.position)
        case Answered(Some(prepared)) => Some(items + Callable(prepared))
        case _ => None
  }

  /**
   * Whether the path a caller's document URI names starts with the root
   * path's text; `None` when the URI names no local path (the `unwrap` panic).
   */
  function UnderRoot(uri: string, rootPath: string): Option<bool>
  {
    match UriToPath(uri)
    case None => None
    case Some(path) => Some(rootPath <= path)
  }

  /** The kept incoming calls of one item, each as (caller, item). */
  function CallsTo(item: CallHierarchyItem, calls: seq<IncomingCall>, rootPath: string)
    : Option<seq<(CallHierarchyItem, CallHierarchyItem)>>
  {
    if calls == [] then Some([])
    else match CallsTo(item, calls[..|calls| - 1], rootPath)
      case None => None
      case Some(kept) =>
        var call := calls[|calls| - 1];
        match UnderRoot(call.from.uri, rootPath)
        case None => None
        case Some(under) => Some(kept + (if under then [(call.from, item)] else []))
  }

  /** The kept incoming calls of every item, item by item. */
  function IncomingFor(server: Server, items: seq<CallHierarchyItem>, rootPath: string)
    : Option<seq<(CallHierarchyItem, CallHierarchyItem)>>
  {
    if items == [] then Some([])
    else match IncomingFor(server, items[..|items| - 1], rootPath)
      case None => None
      case Some(calls) =>
        var item := items[|items| - 1];
        match server.incomingCalls(item)
        case Answered(Some(incoming)) =>
          (match CallsTo(item, incoming, rootPath)
           case None => None
           case Some(kept) => Some(calls + kept))
        case _ => None
  }

  /** `get_function_calls`: the kept items and the kept calls between them, or `None` for a panic. */
  function FunctionCalls(server: Server, symbols: seq<Entry>, rootPath: string)
    : Option<(seq<CallHierarchyItem>, seq<(CallHierarchyItem, CallHierarchyItem)>)>
  {
    match KeptItems(server, symbols)
    case None => None
    case Some(items) =>
      match IncomingFor(server, items, rootPath)
      case None => None
      case Some(calls) => Some((items, calls))
  }

  lemma KeptItemsStopsAtPanic(server: Server, symbols: seq<Entry>, k: nat)
    requires k <= |symbols| && KeptItems(server, symbols[..k]).None?
    ensures KeptItems(server, symbols).None?
    decreases |symbols| - k
  {
    if k < |symbols| {
      assert symbols[..k + 1][..k] == symbols[..k];
      KeptItemsStopsAtPanic(server, symbols, k + 1);
    } else {
      assert symbols[..k] == symbols;
    }
  }

  lemma CallsToStopsAtPanic(item: CallHierarchyItem, calls: seq<IncomingCall>, rootPath: string, k: nat)
    requires k <= |calls| && CallsTo(item, calls[..k], rootPath).None?
    ensures CallsTo(item, calls, rootPath).None?
    decreases |calls| - k
  {
    if k < |calls| {
      assert calls[..k + 1][..k] == calls[..k];
      CallsToStopsAtPanic(item, calls, rootPath, k + 1);
    } else {
      assert calls[..k] == calls;
    }
  }

  lemma IncomingForStopsAtPanic(server: Server, items: seq<CallHierarchyItem>, rootPath: string, k: nat)
    requires k <= |items| && IncomingFor(server, items[..k], rootPath).None?
    ensures IncomingFor(server, items, rootPath).None?
    decreases |items| - k
  {
    if k < |items| {
      assert items[..k + 1][..k] == items[..k];
      IncomingForStopsAtPanic(server, items, rootPath, k + 1);
    } else {
      assert items[..k] == items;
    }
  }

  /** The items of one preparation that are functions or methods, in order. */
  method CallableItems(items: seq<CallHierarchyItem>) returns (kept: seq<CallHierarchyItem>)
    ensures kept == Callable(items)
  {
    kept := [];
    for j := 0 to |items|
      invariant kept == Callable(items[..j])
    {
      assert items[..j + 1][..j] == items[..j];
      if IsCallable(items[j].kind) {
        kept := kept + [items[j]];
      }
    }
    assert items[..|items|] == items;
  }

  /** The first loop: prepare every entry and keep its function and method items. */
  method PrepareItems(server: Server, symbols: seq<Entry>) returns (r: Option<seq<CallHierarchyItem>>)
    ensures r == KeptItems(server, symbols)
  {
    var fnCallItems: seq<CallHierarchyItem> := [];
    for i := 0 to |symbols|
      invariant KeptItems(server, symbols[..i]) == Some(fnCallItems)
    {
      assert symbols[..i + 1][..i] == symbols[..i];
      var reply := server.prepare(symbols[i].uri, symbols[i].position);
      if !(reply.Answered? && reply.value.Some?) {
        KeptItemsStopsAtPanic(server, symbols, i + 1);
        return None;
      }
      var kept := CallableItems(reply.value.value);
      fnCallItems := fnCallItems + kept;
    }
    assert symbols[..|symbols|] == symbols;
    return Some(fnCallItems);
  }

  /** The calls of one item from below the root. */
  method KeepCalls(item: CallHierarchyItem, incoming: seq<IncomingCall>, rootPath: string)
    returns (r: Option<seq<(CallHierarchyItem, CallHierarchyItem)>>)
    ensures r == CallsTo(item, incoming, rootPath)
  {
    var kept: seq<(CallHierarchyItem, CallHierarchyItem)> := [];
    for j := 0 to |incoming|
      invariant CallsTo(item, incoming[..j], rootPath) == Some(kept)
    {
      assert incoming[..j + 1][..j] == incoming[..j];
      var call := incoming[j];
      assert incoming[..j + 1][j] == call;
      var path := UriToPath(call.from.uri);
      if path.None? {
        CallsToStopsAtPanic(item, incoming, rootPath, j + 1);
        return None;
      }
      assert UnderRoot(call.from.uri, rootPath) == Some(rootPath <= path.value);
      ghost var step := if rootPath <= path.value then [(call.from, item)] else [];
      assert CallsTo(item, incoming[..j + 1], rootPath) == Some(kept + step);
      if rootPath <= path.value {
        kept := kept + [(call.from, item)];
      } else {
        assert kept + step == kept;
      }
    }
    assert incoming[..|incoming|] == incoming;
    return Some(kept);
  }

  /** The second loop: the kept calls of every item, item by item. */
  method CollectCalls(server: Server, items: seq<CallHierarchyItem>, rootPath: string)
    returns (r: Option<seq<(CallHierarchyItem, CallHierarchyItem)>>)
    ensures r == IncomingFor(server, items, rootPath)
  {
    var fnCalls: seq<(CallHierarchyItem, CallHierarchyItem)> := [];
    for i := 0 to |items|
      invariant IncomingFor(server, items[..i], rootPath) == Some(fnCalls)
    {
      assert items[..i + 1][..i] == items[..i];
      var item := items[i];
      var reply := server.incomingCalls(item);
      if !(reply.Answered? && reply.value.Some?) {
        IncomingForStopsAtPanic(server, items, rootPath, i + 1);
        return None;
      }
      var kept := KeepCalls(item, reply.value.value, rootPath);
      if kept.None? {
        IncomingForStopsAtPanic(server, items, rootPath, i + 1);
        return None;
      }
      fnCalls := fnCalls + kept.value;
    }
    assert items[..|items|] == items;
    return Some(fnCalls);
  }

  /** `get_function_calls`: the two loops, the second over the items the first kept. */
  method GetFunctionCalls(server: Server, symbols: seq<Entry>, rootPath: string)
    returns (r: Option<(seq<CallHierarchyItem>, seq<(CallHierarchyItem, CallHierarchyItem)>)>)
    ensures r == FunctionCalls(server, symbols, rootPath)
  {
    var prepared := PrepareItems(server, symbols);
    if prepared.None? {
      return None;
    }
    var fnCalls := CollectCalls(server, prepared.value, rootPath);
    if fnCalls.None? {
      return None;
    }
    return Some((prepared.value, fnCalls.value));
  }

  /** Every kept item is a function or a method that some entry's preparation returned. */
  lemma {:induction false} KeptItemsAreCallable(server: Server, symbols: seq<Entry>)
    requires KeptItems(server, symbols).Some?
    ensures forall x :: x in KeptItems(server, symbols).value ==>
      IsCallable(x.kind)
      && exists i :: 0 <= i < |symbols|
           && server.prepare(symbols[i].uri, symbols[i].position).Answered?
           && server.prepare(symbols[i].uri, symbols[i].position).value.Some?
           && x in server.prepare(symbols[i].uri, symbols[i].position).value.value
    decreases |symbols|
  {
    if symbols != [] {
      var init := symbols[..|symbols| - 1];
      KeptItemsAreCallable(server, init);
      forall x | x in KeptItems(server, symbols).value
        ensures IsCallable(x.kind)
          && exists i :: 0 <= i < |symbols|
               && server.prepare(symbols[i].uri, symbols[i].position).Answered?
               && server.prepare(symbols[i].uri, symbols[i].position).value.Some?
               && x in server.prepare(symbols[i].uri, symbols[i].position).value.value
      {
        if x in KeptItems(server, init).value {
          var i :| 0 <= i < |init|
            && server.prepare(init[i].uri, init[i].position).Answered?
            && server.prepare(init[i].uri, init[i].position).value.Some?
            && x in server.prepare(init[i].uri, init[i].position).value.value;
          assert symbols[i] == init[i];
        }
      }
    }
  }

  /**
   * A kept call is exactly a call from a document whose path is below the root,
   * paired with the item it calls.
   */
  lemma {:induction false} CallsToIff(item: CallHierarchyItem, incoming: seq<IncomingCall>, rootPath: string)
    requires CallsTo(item, incoming, rootPath).Some?
    ensures forall p :: p in CallsTo(item, incoming, rootPath).value <==>
      p.1 == item && exists c :: c in incoming && c.from == p.0 && UnderRoot(c.from.uri, rootPath) == Some(true)
    decreases |incoming|
  {
    if incoming != [] {
      var init := incoming[..|incoming| - 1];
      var last := incoming[|incoming| - 1];
      CallsToIff(item, init, rootPath);
      assert forall c :: c in incoming <==> c in init || c == last;
    }
  }

  /** Every kept call ends at a kept item and starts below the root. */
  lemma {:induction false} IncomingForSound(server: Server, items: seq<CallHierarchyItem>, rootPath: string)
    requires IncomingFor(server, items, rootPath).Some?
    ensures forall p :: p in IncomingFor(server, items, rootPath).value ==>
      p.1 in items && UnderRoot(p.0.uri, rootPath) == Some(true)
    decreases |items|
  {
    if items != [] {
      var init := items[..|items| - 1];
      var item := items[|items| - 1];
      IncomingForSound(server, init, rootPath);
      var incoming := server.incomingCalls(item).value.value;
      CallsToIff(item, incoming, rootPath);
      forall p | p in IncomingFor(server, items, rootPath).value
        ensures p.1 in items && UnderRoot(p.0.uri, rootPath) == Some(true)
      {
        if p in IncomingFor(server, init, rootPath).value {
          assert p.1 in init;
        } else {
          var c :| c in incoming && c.from == p.0 && UnderRoot(c.from.uri, rootPath) == Some(true);
        }
      }
    }
  }

  // ---------------------------------------------------------------- calc_fn_usage

  /** `nodes.iter().find(..)`: the first item whose selection range equals `r`; the URI is not compared. */
  function FindNode(items: seq<CallHierarchyItem>, r: Range): (i: Option<nat>)
    ensures i.Some? ==> i.value < |items| && items[i.value].selectionRange == r
    ensures i.Some? ==> forall j :: 0 <= j < i.value ==> items[j].selectionRange != r
    ensures i.None? ==> forall j :: 0 <= j < |items| ==> items[j].selectionRange != r
  {
    if items == [] then None
    else if items[0].selectionRange == r then Some(0)
    else match FindNode(items[1..], r)
      case None => None
      case Some(j) => Some(j + 1)
  }

  /** The graph's edges, one per call, or `None` when an end has no node (the `unwrap` panic). */
  function CallEdges(items: seq<CallHierarchyItem>, calls: seq<(CallHierarchyItem, CallHierarchyItem)>)
    : (r: Option<seq<Edge>>)
    ensures r.Some? ==> |r.value| == |calls| && EdgesWithin(|items|, r.value)
  {
    if calls == [] then Some([])
    else match CallEdges(items, calls[..|calls| - 1])
      case None => None
      case Some(edges) =>
        var call := calls[|calls| - 1];
        match FindNode(items, call.0.selectionRange)
        case None => None
        case Some(src) =>
          match FindNode(items, call.1.selectionRange)
          case None => None
          case Some(dst) => Some(edges + [(src, dst)])
  }

  lemma CallEdgesStopsAtPanic(items: seq<CallHierarchyItem>, calls: seq<(CallHierarchyItem, CallHierarchyItem)>, k: nat)
    requires k <= |calls| && CallEdges(items, calls[..k]).None?
    ensures CallEdges(items, calls).None?
    decreases |calls| - k
  {
    if k < |calls| {
      assert calls[..k + 1][..k] == calls[..k];
      CallEdgesStopsAtPanic(items, calls, k + 1);
    } else {
      assert calls[..k] == calls;
    }
  }

  /** The nodes below `m` that reach node `i`. */
  ghost function ReachersBelow(edges: seq<Edge>, i: nat, m: nat): set<nat>
  {
    set o: nat | o < m && Reaches(edges, o, i)
  }

  /** How many of the `n` nodes reach node `i`, `i` itself included. */
  ghost function ReachedBy(n: nat, edges: seq<Edge>, i: nat): nat
  {
    |ReachersBelow(edges, i, n)|
  }

  /** `(count - 1) / n * 100`: the share of the other nodes that reach a node, in percent. */
  function Score(reached: nat, n: nat): real
    requires n > 0
  {
    (reached as real - 1.0) / (n as real) * 100.0
  }

  datatype Usage = Usage(item: CallHierarchyItem, score: real)

  /** The `filter(..).count()` for one node. */
  method CountReachers(n: nat, edges: seq<Edge>, i: nat) returns (count: nat)
    requires i < n && EdgesWithin(n, edges)
    ensures count == ReachedBy(n, edges, i)
  {
    count := 0;
    for m := 0 to n
      invariant count == |ReachersBelow(edges, i, m)|
    {
      var connected := HasPath(n, edges, m, i);
      if connected {
        assert ReachersBelow(edges, i, m + 1) == ReachersBelow(edges, i, m) + {m};
        count := count + 1;
      } else {
        assert ReachersBelow(edges, i, m + 1) == ReachersBelow(edges, i, m);
      }
    }
  }

  /** The edges loop: one edge per call, or `None` at the first call with an end that is no node. */
  method GraphEdges(items: seq<CallHierarchyItem>, calls: seq<(CallHierarchyItem, CallHierarchyItem)>)
    returns (r: Option<seq<Edge>>)
    ensures r == CallEdges(items, calls)
  {
    var edges: seq<Edge> := [];
    for k := 0 to |calls|
      invariant CallEdges(items, calls[..k]) == Some(edges)
    {
      assert calls[..k + 1][..k] == calls[..k];
      var src := FindNode(items, calls[k].0.selectionRange);
      if src.None? {
        CallEdgesStopsAtPanic(items, calls, k + 1);
        return None;
      }
      var dst := FindNode(items, calls[k].1.selectionRange);
      if dst.None? {
        CallEdgesStopsAtPanic(items, calls, k + 1);
        return None;
      }
      edges := edges + [(src.value, dst.value)];
    }
    assert calls[..|calls|] == calls;
    return Some(edges);
  }

  /**
   * `calc_fn_usage`: one node per item, one edge per call between the
   * first items whose selection ranges match its ends, then one score per
   * item, in item order.
   */
  method CalcFnUsage(items: seq<CallHierarchyItem>, calls: seq<(CallHierarchyItem, CallHierarchyItem)>)
    returns (r: Option<seq<Usage>>)
    ensures r.Some? <==> CallEdges(items, calls).Some?
    ensures r.Some? ==> |r.value| == |items|
    ensures r.Some? ==> forall i :: 0 <= i < |items| ==>
      r.value[i] == Usage(items[i], Score(ReachedBy(|items|, CallEdges(items, calls).value, i), |items|))
  {
    var found := GraphEdges(items, calls);
    if found.None? {
      return None;
    }
    var edges := found.value;
    var n := |items|;
    var usage: seq<Usage> := [];
    for i := 0 to n
      invariant |usage| == i
      invariant forall j :: 0 <= j < i ==> usage[j] == Usage(items[j], Score(ReachedBy(n, edges, j), n))
    {
      var count := CountReachers(n, edges, i);
      usage := usage + [Usage(items[i], Score(count, n))];
    }
    return Some(usage);
  }

  // ---------------------------------------------------------------- properties of the score

  /** A node reaches itself and no more than all the nodes reach it. */
  lemma ReachedByBounds(n: nat, edges: seq<Edge>, i: nat)
    requires i < n
    ensures 1 <= ReachedBy(n, edges, i) <= n
  {
    ReachesSelf(edges, i);
    assert i in ReachersBelow(edges, i, n);
    SubsetOfNodes(ReachersBelow(edges, i, n), n);
  }

  /** Every score lies in `[0, 100)`. */
  lemma ScoreBounds(n: nat, edges: seq<Edge>, i: nat)
    requires i < n
    ensures 0.0 <= Score(ReachedBy(n, edges, i), n) < 100.0
  {
    ReachedByBounds(n, edges, i);
  }

  /** A node scores 0 exactly when no other node reaches it. */
  lemma ScoreZeroIffUnreached(n: nat, edges: seq<Edge>, i: nat)
    requires i < n
    ensures Score(ReachedBy(n, edges, i), n) == 0.0 <==> forall m :: 0 <= m < n && m != i ==> !Reaches(edges, m, i)
  {
    ReachesSelf(edges, i);
    var reachers := ReachersBelow(edges, i, n);
    assert i in reachers;
    if forall m :: 0 <= m < n && m != i ==> !Reaches(edges, m, i) {
      assert reachers == {i};
    } else {
      var m :| 0 <= m < n && m != i && Reaches(edges, m, i);
      assert {i, m} <= reachers;
      SubsetSize({i, m}, reachers);
    }
  }

  /**
   * The lookup does not look at documents: changing an item's URI changes no
   * lookup, and every item's range finds a node at or before it, so items
   * with equal ranges in different documents are one node.
   */
  lemma {:induction false} LookupIgnoresDocument(items: seq<CallHierarchyItem>, i: nat, u: string, r: Range)
    requires i < |items|
    ensures FindNode(items[i := items[i].(uri := u)], r) == FindNode(items, r)
    ensures FindNode(items, items[i].selectionRange).Some?
    ensures FindNode(items, items[i].selectionRange).value <= i
    decreases |items|
  {
    if i > 0 {
      assert items[i := items[i].(uri := u)][1..] == items[1..][i - 1 := items[i].(uri := u)];
      LookupIgnoresDocument(items[1..], i - 1, u, r);
      LookupIgnoresDocument(items[1..], i - 1, u, items[i].selectionRange);
    }
  }

  /** With functions `f` and `g` and one call from `g` to `f`, `f` scores 50 and `g` scores 0. */
  lemma TwoFunctionsExample(f: CallHierarchyItem, g: CallHierarchyItem)
    requires f.selectionRange != g.selectionRange
    ensures CallEdges([f, g], [(g, f)]) == Some([(1, 0)])
    ensures Score(ReachedBy(2, [(1, 0)], 0), 2) == 50.0
    ensures Score(ReachedBy(2, [(1, 0)], 1), 2) == 0.0
  {
    var edges: seq<Edge> := [(1, 0)];
    assert [(g, f)][..0] == [];
    assert CallEdges([f, g], []) == Some([]);
    assert FindNode([f, g], f.selectionRange) == Some(0);
    assert FindNode([f, g], g.selectionRange) == Some(1) by {
      assert [f, g][1..] == [g];
      assert FindNode([g], g.selectionRange) == Some(0);
    }
    var calls := [(g, f)];
    assert calls[..|calls| - 1] == [] && calls[|calls| - 1] == (g, f);
    assert [] + [(1, 0)] == edges;
    assert IsPath(edges, [1, 0]);
    ReachesSelf(edges, 0);
    ReachesSelf(edges, 1);
    assert Closed(edges, {0});
    if Reaches(edges, 0, 1) {
      ClosedHoldsReach(edges, {0}, 0, 1);
    }
    assert ReachersBelow(edges, 0, 2) == {0, 1};
    assert ReachersBelow(edges, 1, 2) == {1};
  }
}
