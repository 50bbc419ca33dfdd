# lsp-outside-the-editor, modelled in Dafny

The repository drives language servers from outside an editor. It has four parts, and this model covers each of them:

- A small JSON-RPC 2.0 client library: the message types and a sequential `Client` that speaks the Language Server Protocol Base Protocol over any string transport.
- The reader of a server's standard output. It reassembles framed messages from the byte stream.
- The `code-graph` tool. It builds a file-level reference graph of a project.
- The `fn-usage` analyser. It scores every function by how many other functions reach it through the call hierarchy.

The model is split into modules, one file each:

- `Text` (`text.dfy`): decimal rendering and `usize` parsing, `strip_prefix`, and `contains` with its characterisation by offsets.
- `Utf8` (`utf8.dfy`): `str::as_bytes` and `String::from_utf8`, with the round trip between them.
- `Json` (`json.dfy`): JSON values as `serde_json::Value`, including key lookup, the compact writer and the `Debug` text (its string escapes cover the ASCII controls only; see "## Left out").
- `JsonRpc` (`jsonrpc.dfy`): `Request`, `Notification`, `Response`, `JsonRpcResult` and `Error` (section 4, 4.1, 5 and 5.1 of the JSON-RPC 2.0 specification).
  - It covers the JSON shape serde gives each type and their reading back.
  - It covers the conversion of an outcome into the caller's result, and the messages of the unit tests.
- `RpcClient` (`rpc_client.dfy`): the `StringIO` transport as a class holding its outbox and inbox, and the `Client` class with its `request_id_counter`.
  - `request` and `notify` are methods.
  - A specification function, `RequestSpec`, says what one request call sends and consumes, what it returns and whether the counter moves on.
- `FrameDecoder` (`frame_decoder.dfy`): the body of the `stdout_proxy` thread.
  - A `ByteReader` class stands for the buffered reader: the server's output and a cursor.
  - The method `StdoutProxy` runs the header/body state machine over it.
  - The method is proved equal to the specification function `Run`, which returns the messages sent on the channel and the reason the thread stops.
- `Framing` (`framing.dfy`): the client's encoder against that decoder. Any stream of frames the client writes, each holding a message that ends with `}` and is at most `isize::MAX` bytes long, decodes back to its messages in order.
- `LspTypes` (`lsp_types.dfy`): positions, ranges, locations, document symbols, call-hierarchy items, and the URIs of files.
- `CodeGraph` (`code_graph.dfy`): `get_connections`. It covers the capability checks, the file filter of the directory walk, the per-file and per-symbol request loops, and the stripping of the root URI. The server is a value that holds its answers.
- `Reach` (`reach.dfy`): paths in a directed graph and the search behind `has_path_connecting`.
- `FnUsage` (`fn_usage.dfy`): `get_project_functions`, `get_function_calls` and `calc_fn_usage`. Each loop is a method proved against a function.

Where the Base Protocol and the code disagree, the model follows the code. A body is read in chunks that each end at a `}` byte, not as exactly `Content-Length` bytes. So a body read is exact only when the body ends with `}`, which every JSON-RPC message does (`ReadBodyConsumesExactly`). A body that does not end with `}` makes the reader run past it (`BodyWithoutBraceOverruns`).

## Model

| member | source | states |
|---|---|---|
| Text.NatToDecimal | src/lsp.rs:33-37 | the `Content-Length` value is written as at least one decimal digit with no leading zero |
| Text.DecimalRoundTrip | src/lsp.rs:33-37 | the value of the decimal text written for `n` is `n` |
| Text.IntToDecimal | src/jsonrpc.rs:50 | an integer's text starts with `-` exactly when it is negative |
| Text.ParseUsize | lsp-client/src/clients/stdio.rs:78 | a parsed `Content-Length` always fits a 64-bit `usize` |
| Text.ParseUsizeOfDecimal | lsp-client/src/clients/stdio.rs:78 | parsing the decimal text of any `usize` gives that value back |
| Text.ParseUsizeRejectsNonDigit | lsp-client/src/clients/stdio.rs:78 | a length word with a non-digit after its first character does not parse, so the `unwrap` panics |
| Text.StripPrefix | code-graph/src/main.rs:301-320 | the remainder exists exactly when the text starts with the prefix, and prefix plus remainder is the text |
| Text.ContainsIff | code-graph/src/main.rs:186-189 | `contains` holds exactly when the needle occurs at some offset |
| Utf8.EncodeChar | src/lsp.rs:35 | a character takes one to four bytes, and one byte exactly when it is ASCII |
| Utf8.DecodeFirst | lsp-client/src/clients/stdio.rs:91 | a decoded character takes at least one byte and no more than are left |
| Utf8.DecodeFirstOfEncodeChar | lsp-client/src/clients/stdio.rs:91 | the first character decoded from an encoding is the character encoded, with its width |
| Utf8.Utf8RoundTrip | lsp-client/src/clients/stdio.rs:91 | `from_utf8` of the bytes of any string gives the string back |
| Utf8.ToUtf8Append | src/lsp.rs:33-37 | the bytes of a concatenation are the concatenation of the bytes |
| Utf8.AsciiToUtf8 | src/lsp.rs:33-37 | ASCII text is written one byte per character, each byte being the character's code |
| Json.LookupFirst | src/lsp.rs:43-46 | `Value::get` finds the value of the first member with the key |
| Json.LookupMissing | src/lsp.rs:43-46 | `Value::get` finds nothing exactly when no member has the key |
| Json.LookupFound | src/lsp.rs:43-46 | a value `get` finds is the value of some member with that key |
| Json.SerializedObjectIsBraced | src/lsp.rs:26-31 | the compact text of any object starts with `{` and ends with `}` |
| JsonRpc.IntoResult | src/jsonrpc.rs:42-53 | the caller's result is `Ok` exactly for a `result` outcome, holding its value; an `error` outcome becomes the error text of its code, message and data |
| JsonRpc.ErrorTextLayout | src/jsonrpc.rs:42-53 | the error text is `Error (`, the code in decimal, `) `, the message, `: ` and last the `Debug` text of the data |
| JsonRpc.DisplayOmitsData | src/jsonrpc.rs:63-67 | the display text starts with `Error `, ends with the message, and does not depend on the data |
| JsonRpc.RequestShape | src/jsonrpc.rs:5-12 | a request's JSON has its `jsonrpc`, `method` and `id`, and `params` exactly when there are some |
| JsonRpc.RequestRoundTrip | src/jsonrpc.rs:5-12 | a request with a 64-bit id and params other than `Some(null)` reads back as itself |
| JsonRpc.RequestNullParamsReadBackAsNone | src/jsonrpc.rs:89-100 | `Some(null)` params are written as `"params": null` and read back as no params |
| JsonRpc.NotificationShape | src/jsonrpc.rs:14-20 | a notification's JSON has `jsonrpc`, `method`, `params` exactly when there are some, and never an `id` |
| JsonRpc.NotificationRoundTrip | src/jsonrpc.rs:14-20 | a notification whose params are not `Some(null)` reads back as itself |
| JsonRpc.NotificationIsNotRequest | src/jsonrpc.rs:5-20 | a notification's JSON never reads as a request |
| JsonRpc.ResponseShape | src/jsonrpc.rs:22-40 | a response has exactly one of `result` and `error`, its `id` as a number or `null`, and no `method` |
| JsonRpc.ErrorDataShape | src/jsonrpc.rs:55-61 | an error object writes `code`, `message`, and `data` exactly when there is some |
| JsonRpc.ErrorFieldsRoundTrip | src/jsonrpc.rs:34-39 | an error outcome with a 64-bit code and data other than `Some(null)` reads back as itself |
| JsonRpc.ResultRoundTrip | src/jsonrpc.rs:25-26 | the flattened outcome of a readable response reads back as itself |
| JsonRpc.ResponseRoundTrip | src/jsonrpc.rs:22-28 | a response with a 64-bit id and a readable outcome reads back as itself |
| JsonRpc.RequestTestMessages | src/jsonrpc.rs:77-133 | the test request is written with the snapshot's members in order, and the snapshot reads back as the request |
| JsonRpc.RequestParamsTestMessages | src/jsonrpc.rs:89-110 | `Some(())` params are written as `null`, and absent params are not written |
| JsonRpc.NotificationTestMessages | src/jsonrpc.rs:135-166 | the test notification is written as its snapshot, and the snapshot reads back as the notification |
| JsonRpc.ResponseResultTestMessages | src/jsonrpc.rs:168-210 | the result response of the tests is written as its snapshot and reads back |
| JsonRpc.ResponseErrorTestMessages | src/jsonrpc.rs:179-190 | the `Method not found` error response is written as its snapshot |
| JsonRpc.ResponseErrorTestMessagesRead | src/jsonrpc.rs:212-232 | the `Method not found` snapshot reads back as the error response with no id |
| LspTypes.PathToUri | code-graph/src/main.rs:28-35 | stripping `file://` from a path's URI gives the path back |
| LspTypes.UriToPath | fn-usage/src/lib.rs:135-143 | a URI names a path only when it is `scheme:` followed by an absolute path or by an authority whose host (after any user part, before any port) is empty or `localhost`; the scheme itself is not checked; a URI naming no path makes the `unwrap` panic; every path named is absolute |
| LspTypes.PercentDecode | fn-usage/src/lib.rs:135-139 | decoding never lengthens the bytes, and bytes without `%` are kept as they are |
| LspTypes.UriToPathOfPathToUri | fn-usage/src/lib.rs:135-143 | the URI of an absolute path without `%`, `?` or `#` names that path again |
| LspTypes.EncodedSpaceDecoded | fn-usage/src/lib.rs:135-143 | a `%20` in a URI's path is decoded to a space, so `file:///a%20b/x.rs` names `/a b/x.rs` |
| LspTypes.RemoteHostRefused | fn-usage/src/lib.rs:135-139 | a `file:` URI whose host is neither empty nor `localhost` names no path, so its `unwrap` panics |
| LspTypes.HostOf | fn-usage/src/lib.rs:135-139 | the host has no `@` and no `:`, and an authority without either is its own host |
| LspTypes.PortIgnored | fn-usage/src/lib.rs:135-143 | a port is set aside: `http://localhost:8080/p/a.rs` names `/p/a.rs` |
| LspTypes.UserIgnored | fn-usage/src/lib.rs:135-143 | a user part is set aside: `foo://u@localhost/p/a.rs` names `/p/a.rs` |
| LspTypes.UserAndPortIgnored | fn-usage/src/lib.rs:135-143 | a user part and a port together are set aside |
| LspTypes.LocalAuthority | fn-usage/src/lib.rs:135-139 | any authority whose host is `localhost` is skipped: the path after it is found as with no authority |
| LspTypes.LocalhostIsLocal | fn-usage/src/lib.rs:135-139 | a URI with host `localhost` names the same path as the URI without a host |
| LspTypes.SchemeUri | fn-usage/src/lib.rs:135-139 | a URI is split at the `:` after its scheme, and what follows alone decides the path |
| LspTypes.FileUri | fn-usage/src/lib.rs:135-139 | a `file://` URI names the path its host and path part name |
| LspTypes.OtherSchemeNamesPath | fn-usage/src/lib.rs:135-143 | the scheme is not checked: `scheme:/path` with a scheme that is not special names `/path`, as `foo:/p/a.rs` names `/p/a.rs` |
| LspTypes.LocalhostNamesPath | fn-usage/src/lib.rs:135-143 | every scheme with host `localhost` names the path, as `http://localhost/p/a.rs` names `/p/a.rs` |
| LspTypes.LocalhostHost | fn-usage/src/lib.rs:135-139 | the host `localhost` is skipped: the path after it is found as with no host |
| LspTypes.UriBelowRoot | code-graph/src/main.rs:301-320 | stripping a directory's URI from the URI of a path below it leaves the relative path |
| RpcClient.FrameLayout | src/lsp.rs:33-37 | the frame opens with `Content-Length: `, its digits read back as the message's UTF-8 byte count, `\r\n\r\n` comes right before the message, the message is the rest, and the header has no `Content-Type` |
| RpcClient.StringIO.constructor | src/lsp.rs:7-10 | a fresh transport has sent nothing and holds the given inbound messages |
| RpcClient.StringIO.Send | src/lsp.rs:8 | a send succeeds exactly while the transport is writable and then appends the message to the outbox; the inbox and the writable state are unchanged, so a transport the environment breaks between calls fails from then on |
| RpcClient.StringIO.Recv | src/lsp.rs:9 | a receive takes the first inbound message, and fails on an empty inbox |
| RpcClient.AsI64 | src/lsp.rs:46 | `as_i64` gives the number exactly when the value is a number within 64 bits |
| RpcClient.Await | src/lsp.rs:39-50 | every message skipped is a value that does not answer the id; a match is the first answering message and is decoded into a response with that id; otherwise the scan fails on recv, parse or decode |
| RpcClient.Answer | src/lsp.rs:54 | the caller gets `Ok` with the result exactly for a result outcome, and otherwise the error text of the JSON-RPC error |
| RpcClient.RequestSpec | src/lsp.rs:25-55 | one request consumes no more inbound messages than there are |
| RpcClient.AdvancesIffAnswered | src/lsp.rs:39-54 | the counter moves on exactly when a response was matched and decoded, including a JSON-RPC error response |
| RpcClient.RequestSendsOneFrame | src/lsp.rs:26-37 | on a writable transport one frame is written, whose request carries the current counter as `id` and the method name |
| RpcClient.EchoedResponseMatches | src/lsp.rs:43-48 | a readable response echoing the request's id is the one the loop returns, whatever follows it |
| RpcClient.FailedRequestReusesId | src/lsp.rs:39-54 | after a request whose recv, parse or decode failed, which had already written its frame, the next request writes a frame with the same `id` |
| RpcClient.ErrorResponseAdvances | src/lsp.rs:48-54 | an error response to the current id moves the counter on and is returned as the JSON-RPC error |
| RpcClient.AwaitFindsFirstMatch | src/lsp.rs:39-50 | the loop stops at the first message answering the id, and fails with a decode error when that message does not decode |
| RpcClient.IssueKeepsInvariant | src/lsp.rs:30 | writing a request with the current counter keeps the ids written non-decreasing and never past the counter |
| RpcClient.AnswerKeepsInvariant | src/lsp.rs:52 | moving the counter on after a match keeps the answered ids 0, 1, 2, … with the counter next |
| RpcClient.Client.constructor | src/lsp.rs:18-23 | a new client starts its counter at 0 |
| RpcClient.Client.Request | src/lsp.rs:25-55 | the frames written, the messages consumed, the result and the counter's step are those of `RequestSpec`, and the id invariant is kept |
| RpcClient.Client.ReceiveResponse | src/lsp.rs:39-50 | the receive loop returns what `Await` says and consumes exactly the messages it used |
| RpcClient.Client.Notify | src/lsp.rs:57-69 | a notification frame is written exactly on a writable transport; otherwise the call fails with a send error |
| RpcClient.NotificationHasNoId | src/lsp.rs:58-62 | a notification carries its method and never an `id` |
| FrameDecoder.ScanTo | lsp-client/src/clients/stdio.rs:87 | `read_until` stops just past the next delimiter, or at the end of the data, and makes progress unless the data has ended |
| FrameDecoder.ScanToPassesNoDelimiter | lsp-client/src/clients/stdio.rs:87 | no delimiter lies before the one where the read stops |
| FrameDecoder.ScanToFirst | lsp-client/src/clients/stdio.rs:87 | the read stops at the first delimiter, wherever it lies |
| FrameDecoder.ScanToSkips | lsp-client/src/clients/stdio.rs:87 | a stretch without the delimiter is crossed in one read |
| FrameDecoder.ByteReader.constructor | lsp-client/src/clients/stdio.rs:57 | a new reader is at the start of the server's output |
| FrameDecoder.ByteReader.ReadUntil | lsp-client/src/clients/stdio.rs:87 | the cursor moves to the `ScanTo` stop, the count is the bytes read, and exactly those bytes are appended to the buffer |
| FrameDecoder.ByteReader.ReadLine | lsp-client/src/clients/stdio.rs:66-69 | the cursor moves past the next newline, and the line is the UTF-8 text of those bytes or an error |
| FrameDecoder.WordLength | lsp-client/src/clients/stdio.rs:71 | a word is the longest run of non-whitespace at the front |
| FrameDecoder.Words | lsp-client/src/clients/stdio.rs:71 | every word is non-empty and has no ASCII whitespace |
| FrameDecoder.WordsOfWord | lsp-client/src/clients/stdio.rs:71 | a word followed by whitespace or nothing is split off whole |
| FrameDecoder.WordsOfBlank | lsp-client/src/clients/stdio.rs:71 | a line of whitespace only has no words |
| FrameDecoder.Classify | lsp-client/src/clients/stdio.rs:72-102 | a length or type header is a line of exactly two words |
| FrameDecoder.ClassifyCases | lsp-client/src/clients/stdio.rs:77-102 | each `match` arm fires exactly on its pattern of words and pending values, with the parsed length, the type word, or the pending length |
| FrameDecoder.ReadBody | lsp-client/src/clients/stdio.rs:84-89 | a filled body consumed exactly the content length, ending at `}` or at the end of the data; a starved read lacked data |
| FrameDecoder.ReadBodyConsumesExactly | lsp-client/src/clients/stdio.rs:86-89 | when the body ends with `}` the chunks stop exactly at its end, even if `}` also occurs inside it |
| FrameDecoder.BodyWithoutBraceOverruns | lsp-client/src/clients/stdio.rs:86-88 | a body with no `}` followed by more data makes the first chunk run past it, and the subtraction underflows |
| FrameDecoder.ArrayBodyOverruns | lsp-client/src/clients/stdio.rs:86-88 | a three-byte body `[1]` followed by `{}` underflows |
| FrameDecoder.ReadContent | lsp-client/src/clients/stdio.rs:84-89 | the body loop ends as `ReadBody` says, and a filled body's content is exactly the bytes consumed |
| FrameDecoder.ReadMessage | lsp-client/src/clients/stdio.rs:83-96 | a decoded body is sent and the decoder goes on from just past it, as `Body` says; otherwise the thread stops as `Body` says |
| FrameDecoder.StdoutProxy | lsp-client/src/clients/stdio.rs:61-104 | the messages sent on the channel and the reason the thread ends are those of `Run` from the reader's starting position |
| FrameDecoder.BlankLineEmitsBody | lsp-client/src/clients/stdio.rs:83-96 | a blank line with a pending length sends the body that follows and clears both pending values |
| FrameDecoder.BlankLineStartsBody | lsp-client/src/clients/stdio.rs:83 | a blank line with a pending length starts the body, whatever the pending type |
| FrameDecoder.ExactBody | lsp-client/src/clients/stdio.rs:84-96 | a UTF-8 body whose last byte is `}` is read whole and sent |
| FrameDecoder.BlankLineShutsDown | lsp-client/src/clients/stdio.rs:97-101 | a blank line with nothing pending stops the thread with nothing sent |
| FrameDecoder.EndOfDataShutsDown | lsp-client/src/clients/stdio.rs:66-101 | the end of the output with nothing pending reads an empty line and shuts down |
| FrameDecoder.EndOfDataInBodyHangs | lsp-client/src/clients/stdio.rs:86-89 | the end of the output inside a body leaves the body loop waiting for ever |
| FrameDecoder.OversizedLengthPanics | lsp-client/src/clients/stdio.rs:83-84 | a pending length above `isize::MAX` panics when the body buffer is reserved, with nothing read or sent |
| Framing.LengthLineAt | lsp-client/src/clients/stdio.rs:77-78 | the client's `Content-Length` line is read whole and sets the pending length to the byte count |
| Framing.BlankLineAt | lsp-client/src/clients/stdio.rs:83 | the blank line after the header is read as a line with no words |
| Framing.MessageStep | lsp-client/src/clients/stdio.rs:77-96 | a length line, a blank line and a UTF-8 body ending in `}` send that body and return the decoder to its start state |
| Framing.FrameDecodes | lsp-client/src/clients/stdio.rs:77-96 | one frame written by the client is decoded to its message, and the decoder goes on just past the frame |
| Framing.StreamDecodes | lsp-client/src/clients/stdio.rs:61-104 | a stream of the client's frames decodes to its messages in order and then shuts down |
| Framing.StreamRoundTrip | lsp-client/src/clients/stdio.rs:61-104 | the whole output of a server that wrote these frames and exited decodes to exactly its messages |
| Framing.FrameRoundTrip | src/lsp.rs:33-37 | the frame the client writes decodes back to its one message |
| Framing.RequestFrameRoundTrip | src/lsp.rs:26-37 | the frame `request` writes decodes back to the request's JSON text |
| Reach.ReachesSelf | fn-usage/src/lib.rs:194 | every node reaches itself |
| Reach.ReachesStep | fn-usage/src/lib.rs:194 | a path to an edge's tail extends to its head |
| Reach.ClosedHoldsReach | fn-usage/src/lib.rs:194 | what a node reaches lies in every closed set holding it |
| Reach.Nodes | fn-usage/src/lib.rs:169-172 | the nodes are exactly the indices below `n`, and there are `n` of them |
| Reach.NewHeads | fn-usage/src/lib.rs:194 | the next layer of the search is exactly the unseen heads of the edges leaving the frontier |
| Reach.HasPath | fn-usage/src/lib.rs:194 | `has_path_connecting` answers true exactly when some path leads from the first node to the second |
| Text.LastOf | code-graph/src/main.rs:194 | the index found is that of the character with none of it after, and none is found when the text lacks it |
| CodeGraph.FileName | code-graph/src/main.rs:194 | the file name is the path's tail after its last `/`, and has no `/` |
| CodeGraph.Extension | code-graph/src/main.rs:194 | an extension is what follows the path's last dot, and has no dot and no `/` |
| CodeGraph.ExtensionOfName | code-graph/src/main.rs:194 | a file `stem.ext` in a directory has extension `ext` |
| CodeGraph.AnyContainedIff | code-graph/src/main.rs:186-189 | the ignore test holds exactly when some ignore string occurs in the path |
| CodeGraph.AnySuffixIff | code-graph/src/main.rs:192-194 | the suffix test holds exactly when the extension is one of the suffixes |
| CodeGraph.KeepFileIff | code-graph/src/main.rs:185-201 | a path is kept exactly when no ignore string occurs in it and its extension is a suffix; the `ignore.len() > 0` guard changes nothing |
| CodeGraph.KeptFilesIff | code-graph/src/main.rs:181-204 | a file is collected exactly when the walk yields it and the filter keeps it |
| CodeGraph.CollectFiles | code-graph/src/main.rs:181-204 | the loop collects the kept entries in walk order |
| CodeGraph.ScanSymbols | code-graph/src/main.rs:249-298 | a scan of symbols stops only with a failed request, and the requests issued only grow |
| CodeGraph.ScanFiles | code-graph/src/main.rs:209-299 | a scan of files stops only with a failed notification, a failed request or the `todo!()` on a flat list, and the requests issued only grow |
| CodeGraph.StripNodes | code-graph/src/main.rs:317-320 | `n` is a node of the result exactly when the root followed by `n` was a node |
| CodeGraph.StripConnections | code-graph/src/main.rs:301-315 | an edge is in the result exactly when the edge with the root before both ends was found |
| CodeGraph.AddReferences | code-graph/src/main.rs:287-297 | every reference's file becomes a node, and every reference from another file becomes an edge to the symbol's file |
| CodeGraph.ScanSymbolsLoop | code-graph/src/main.rs:249-298 | the symbols loop ends as `ScanSymbols` says |
| CodeGraph.ScanFilesLoop | code-graph/src/main.rs:209-299 | the files loop ends as `ScanFiles` says |
| CodeGraph.GetConnections | code-graph/src/main.rs:37-323 | the outcome and the requests issued are those of `Connections` over the files the filter keeps |
| CodeGraph.CapabilityGate | code-graph/src/main.rs:166-174 | when the document-symbol or references provider field is absent, the run fails right after `initialize`, having sent nothing else |
| CodeGraph.PresentProvidersPass | code-graph/src/main.rs:166-178 | when both provider fields are present, even as `false`, the run passes the gate and sends `initialized` |
| CodeGraph.Queries | code-graph/src/main.rs:263-282 | one references query per top-level symbol, at its selection start, in order |
| CodeGraph.ScanSymbolsStep | code-graph/src/main.rs:249-298 | a scan that goes through is the first symbol's step followed by the scan of the rest |
| CodeGraph.ScanSymbolsQueries | code-graph/src/main.rs:249-285 | scanning a file asks for the references of its top-level symbols only, one each in order, and nested children are never queried |
| CodeGraph.FirstQuery | code-graph/src/main.rs:263-282 | the first symbol's query comes before those of the rest |
| CodeGraph.ScanSymbolsGrows | code-graph/src/main.rs:249-297 | nodes and edges only grow, a file with a symbol becomes a node, every file an answered reference names becomes a node, and every reference from another file becomes an edge into the symbol's file |
| CodeGraph.ScanSymbolsEdges | code-graph/src/main.rs:249-297 | the symbols loop adds exactly the edges of its symbols' answered references, and no others |
| CodeGraph.ScanFilesEdges | code-graph/src/main.rs:209-299 | the files loop adds exactly the edges of the answered references of every file answered with nested symbols |
| CodeGraph.AnsweredEdgesIff | code-graph/src/main.rs:263-296 | an edge comes from a file's symbols exactly when an answered reference of one of its top-level symbols makes it |
| CodeGraph.FileEdgesIff | code-graph/src/main.rs:209-299 | an edge comes from the files exactly when one of them, answered with nested symbols, makes it |
| CodeGraph.GraphEdgesExact | code-graph/src/main.rs:287-315 | `(a, b)` is an edge of the returned graph exactly when, below the root, a reference in `a` names a top-level symbol of the scanned file `b` |
| CodeGraph.ScanSymbolsNodes | code-graph/src/main.rs:249-297 | the symbols loop adds exactly the file (once it has a symbol) and the files of its symbols' answered references |
| CodeGraph.ScanFilesNodes | code-graph/src/main.rs:209-299 | the files loop adds exactly the nodes of every file answered with nested symbols |
| CodeGraph.AnsweredNodesIff | code-graph/src/main.rs:249-290 | a node comes from a file's symbols exactly when it is the file and the file has a top-level symbol, or it holds an answered reference of one of them |
| CodeGraph.FileNodesIff | code-graph/src/main.rs:209-299 | a node comes from the files exactly when one of them, answered with nested symbols, contributes it |
| CodeGraph.GraphNodesExact | code-graph/src/main.rs:249-320 | `n` is a node of the returned graph exactly when `root + n` is a scanned file with a top-level symbol or the file of an answered reference |
| CodeGraph.ScenarioGraph | code-graph/src/main.rs:209-320 | in a project rooted at `/r` where `b.rs` calls the `f` that `a.rs` declares, the graph has the nodes `/a.rs` and `/b.rs` and the one edge from `/b.rs` to `/a.rs` |
| CodeGraph.ScanSymbolsKeepsEdges | code-graph/src/main.rs:287-297 | no edge joins a file to itself, and every edge ends at a scanned file |
| CodeGraph.ScanFilesKeepsEdges | code-graph/src/main.rs:209-299 | the files loop keeps that edge invariant |
| CodeGraph.GraphEdgesWellFormed | code-graph/src/main.rs:287-315 | in the returned graph no edge is a self-loop, and every edge ends at a scanned file's path below the root |
| CodeGraph.FileWithoutSymbolsSkipped | code-graph/src/main.rs:228-242 | a file whose symbol request answers nothing adds no node and no edge |
| CodeGraph.FlatSymbolsUnimplemented | code-graph/src/main.rs:244-247 | a flat symbol list stops the run at that file with no graph |
| CodeGraph.DidOpenFailureStops | code-graph/src/main.rs:221-223 | a `didOpen` the transport does not take stops the scan at that file with the notify error, before its symbols are requested |
| CodeGraph.LaterDidOpenFails | code-graph/src/main.rs:209-242 | after an earlier file was scanned, a failed `didOpen` of the next file still ends the run with the notify error |
| FnUsage.ChildFunctionsAreNested | fn-usage/src/lib.rs:60-62 | the entries of a symbol's children are those of walking its child list |
| FnUsage.WalkNestedSymbols | fn-usage/src/lib.rs:50-64 | the walk appends exactly the entries of `NestedFunctions` to what was pushed before |
| FnUsage.NestedStep | fn-usage/src/lib.rs:55-63 | one more sibling adds its own entry and then its children's |
| FnUsage.WalkStep | fn-usage/src/lib.rs:55-63 | the loop step of the walk appends one sibling's entries |
| FnUsage.NestedFunctionsAppend | fn-usage/src/lib.rs:55-63 | sibling lists are walked one after the other |
| FnUsage.SymbolBeforeChildren | fn-usage/src/lib.rs:55-63 | a function's entry comes before its children's, and a symbol of another kind adds nothing itself while its children are still walked |
| FnUsage.FlatFunctionsIff | fn-usage/src/lib.rs:44-48 | a flat answer yields exactly the range starts of its functions and methods |
| FnUsage.ProjectFunctionsStopsAtPanic | fn-usage/src/lib.rs:29-41 | a panic on one file's answer is a panic of the whole run |
| FnUsage.GetProjectFunctions | fn-usage/src/lib.rs:7-72 | the loop returns `ProjectFunctions`: every file's entries in order, or the panic |
| FnUsage.Callable | fn-usage/src/lib.rs:99-101 | an item is kept exactly when it is a function or a method |
| FnUsage.KeptItemsStopsAtPanic | fn-usage/src/lib.rs:85-108 | an unusable preparation answer is a panic of the whole run |
| FnUsage.CallsToStopsAtPanic | fn-usage/src/lib.rs:134-146 | a caller whose URI names no local path is a panic of the whole run |
| FnUsage.IncomingForStopsAtPanic | fn-usage/src/lib.rs:128-158 | an unusable incoming-calls answer is a panic of the whole run |
| FnUsage.CallableItems | fn-usage/src/lib.rs:99-101 | the filter loop keeps the function and method items in order |
| FnUsage.PrepareItems | fn-usage/src/lib.rs:84-126 | the preparation loop returns `KeptItems` |
| FnUsage.KeepCalls | fn-usage/src/lib.rs:133-147 | the loop over one item's calls returns `CallsTo` |
| FnUsage.CollectCalls | fn-usage/src/lib.rs:128-158 | the loop over the kept items returns `IncomingFor` |
| FnUsage.GetFunctionCalls | fn-usage/src/lib.rs:74-161 | both loops together return `FunctionCalls` |
| FnUsage.KeptItemsAreCallable | fn-usage/src/lib.rs:84-111 | every kept item is a function or method that some entry's preparation returned |
| FnUsage.CallsToIff | fn-usage/src/lib.rs:134-146 | a call is kept exactly when its caller's URI names a path below the root, paired with the item it calls |
| FnUsage.IncomingForSound | fn-usage/src/lib.rs:128-158 | every kept call ends at a kept item and starts below the root |
| FnUsage.FindNode | fn-usage/src/lib.rs:175-184 | the node found is the first whose selection range matches, and none is found when no range matches |
| FnUsage.CallEdges | fn-usage/src/lib.rs:174-187 | one edge per call, both ends among the nodes |
| FnUsage.CallEdgesStopsAtPanic | fn-usage/src/lib.rs:174-187 | a call whose end is no node is a panic of the whole computation |
| FnUsage.CountReachers | fn-usage/src/lib.rs:192-195 | the count is the number of nodes that reach the node, itself included |
| FnUsage.GraphEdges | fn-usage/src/lib.rs:174-187 | the edges loop returns `CallEdges` |
| FnUsage.CalcFnUsage | fn-usage/src/lib.rs:163-203 | one score per item in item order: the share of other nodes reaching it, in percent; a panic exactly when a call has an end that is no node |
| FnUsage.ReachedByBounds | fn-usage/src/lib.rs:192-196 | between 1 and `n` nodes reach a node, so `count - 1` never underflows |
| FnUsage.ScoreBounds | fn-usage/src/lib.rs:192-198 | every score lies in `[0, 100)` |
| FnUsage.ScoreZeroIffUnreached | fn-usage/src/lib.rs:192-198 | a function scores 0 exactly when no other function reaches it |
| FnUsage.LookupIgnoresDocument | fn-usage/src/lib.rs:175-184 | the node lookup matches on the selection range alone: changing an item's document changes no lookup, and every item's own range finds a node at or before it |
| FnUsage.TwoFunctionsExample | fn-usage/src/lib.rs:163-203 | with one call from `g` to `f`, `f` scores 50 and `g` scores 0 |

## Left out

- The threads of `stdio_client` (lsp-client/src/clients/stdio.rs:11-54) are not modelled: the stdin relay, the stderr relay, the channels and the shared stop flag. Only the body of the stdout thread is modelled, as a sequential method.
- FrameDecoder.StdoutProxy: it ignores the stop flag, which is checked before each line, because another thread sets it. It also leaves out the `println!` before shutdown. Where the source spins for ever on an output that ends inside a body, the model stops with `Hung`.
- FrameDecoder.ReadContent: `bytes_left -= read_bytes` below zero is modelled as the debug-build panic (`Underflow`). The release build's wrap-around is not modelled.
- FrameDecoder.ReadMessage: the capacity overflow above `isize::MAX` is modelled. A smaller length that the allocator cannot reserve aborts the process in the source, but the model reads on.
- FrameDecoder.ByteReader.ReadLine: the only `read_line` error modelled is a line that is not UTF-8. Operating-system read errors are not modelled.
- RpcClient.Client.Request: the counter is an unbounded integer, so the `i64` overflow of `request_id_counter += 1` is not modelled. Serialisation through serde is replaced by the `Json` writer, so `to_string` never fails.
- RpcClient.Client.Request: the Rust generics over `Request` and `Notification` types become a method name and a JSON value for the params. Typed results are JSON values, and a failed `from_value` into the result type is not modelled.
- JsonRpc.RequestRoundTrip: the round trip excludes params of `Some(null)` and ids beyond 64 bits. `RequestNullParamsReadBackAsNone` states what happens to the first.
- JsonRpc.ResponseRoundTrip: the round trip excludes error data of `Some(null)` and ids or codes beyond 64 bits.
- Json.DebugChar: only `"`, `\`, `\n`, `\r`, `\t`, NUL, the other ASCII controls and 0x7F are escaped. Rust's `Debug for str` also writes the characters that are not printable or that extend a grapheme as `\u{..}` (for example U+0085, U+00A0, U+00AD, U+200B, U+0301); the model writes those raw, because Rust decides them from its Unicode tables, which are not modelled.
- JsonRpc.IntoResult: its error text carries the data's `Debug` text, so it inherits the `Json.DebugChar` limit above: a non-ASCII non-printable or combining character in a string of the error data appears raw, not as `\u{..}`.
- Json: text parsing (`serde_json::from_str`) is not modelled. An inbound message is either a JSON value or malformed. Numbers are integers only.
- The `lsp-client` crate's async `Client`, which `fn-usage` uses, is not part of this model. Its answers are the server value's replies.
- FnUsage.GetProjectFunctions: the futures are awaited in order, which the model follows. The concurrency of their requests is not modelled.
- FnUsage.CalcFnUsage: the `f32` arithmetic is exact real arithmetic, so rounding is not modelled.
- LspTypes.PathToUri: a URI is `file://` followed by the path's text. `Url::from_file_path` percent-encoding, its failure on a relative path, and `Uri::from_str` failing are not modelled.
- LspTypes.UriToPath: it models the Unix `to_file_path` on the URI text: no scheme check, the host check, the special schemes' authority handling and the percent-decoding. What `Url::parse` does first is not modelled: lower-casing the scheme and the host (so `FILE:` and `LOCALHOST` are read as written here), reading `file:p` and backslashes as in the URL standard, removing `.` and `..` segments, splitting a bracketed IPv6 host at its closing `]` (here it is cut at its first `:`, and refused either way), encoding characters the server sent raw, and refusing URIs that do not parse (a `file:` URI with a user part or a port, a port that is not a number below 65536). An empty host is taken to be no host for every scheme. Windows drive letters are not modelled either.
- CodeGraph.GetConnections: the `initialize` parameters (the capability literal) are not modelled; only the two provider fields the run checks are, as present or absent. The options object a provider field may hold is not modelled. The directory walk is the list of entries it yields, with its errors already dropped.
- CodeGraph.GetConnections: the `file_name().unwrap()` on the base path, the file reads, the three-second sleep and the `eprintln!` progress lines are not modelled.
- CodeGraph.GetConnections: the server's answers and whether the transport takes a notification are functions of the request, so a file listed twice gets the same answers both times, and a transport that breaks part-way is a notification it refuses from then on.
- CodeGraph.GetConnections: the returned node and edge lists are sets, because their order is the hash sets' iteration order.
- LspTypes.DocumentSymbol: an absent `children` list is the empty list. SymbolKind values other than FUNCTION (12) and METHOD (6) are plain integers.
- The `main` functions are not modelled: argument parsing, starting the server process, the stderr thread and the Graphviz output. Neither are the other crates of the repository.
- Panics, `todo!()` and failed `unwrap`s are `None` or a distinct outcome, not process aborts.
