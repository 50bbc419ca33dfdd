/**
 * The header/body state machine that turns a language server's standard
 * output into whole messages (the thread body of `stdout_proxy`).
 *
 * The server's output is a byte sequence with a cursor (`ByteReader`). The
 * decoder reads one line at a time, splits it into ASCII-whitespace separated
 * words and matches the words against the pending `Content-Length` and
 * `Content-Type` values. A blank line with a pending length starts the body,
 * which is read in chunks, each ending at a `}` byte, until the length is
 * used up.
 */
module FrameDecoder {
  import opened Wrappers
  import opened Text
  import opened Utf8

  const Newline: byte := 10
  const CloseBrace: byte := 125

  // ---------------------------------------------------------------------------
  // Reading up to a delimiter
  // ---------------------------------------------------------------------------

  /**
   * Where `BufRead::read_until(delim)` started at `p` stops: just past the
   * first `delim` at or after `p`, or the end of the data when there is none.
   */
  function ScanTo(data: seq<byte>, p: nat, delim: byte): (e: nat)
    requires p <= |data|
    ensures p <= e <= |data|
    ensures p < |data| ==> p < e
    ensures e == |data| || data[e - 1] == delim
    decreases |data| - p
  {
    if p == |data| then p
    else if data[p] == delim then p + 1
    else ScanTo(data, p + 1, delim)
  }

  /** No delimiter lies before the one the scan stops at. */
  lemma {:induction false} ScanToPassesNoDelimiter(data: seq<byte>, p: nat, delim: byte)
    requires p <= |data|
    ensures forall k :: p <= k < ScanTo(data, p, delim) - 1 ==> data[k] != delim
    decreases |data| - p
  {
    if p < |data| && data[p] != delim {
      ScanToPassesNoDelimiter(data, p + 1, delim);
    }
  }

  /** The scan stops at the first delimiter, wherever it lies. */
  lemma {:induction false} ScanToFirst(data: seq<byte>, p: nat, delim: byte, e: nat)
    requires p < e <= |data| && data[e - 1] == delim
    requires forall k :: p <= k < e - 1 ==> data[k] != delim
    ensures ScanTo(data, p, delim) == e
    decreases |data| - p
  {
    if data[p] != delim {
      ScanToFirst(data, p + 1, delim, e);
    }
  }

  /** A stretch with no delimiter is crossed in one scan. */
  lemma {:induction false} ScanToSkips(data: seq<byte>, p: nat, m: nat, delim: byte)
    requires p + m <= |data|
    requires forall k :: p <= k < p + m ==> data[k] != delim
    ensures ScanTo(data, p, delim) >= p + m
    ensures p + m < |data| ==> ScanTo(data, p, delim) > p + m
    decreases m
  {
    if m > 0 {
      ScanToSkips(data, p + 1, m - 1, delim);
    }
  }

  // ---------------------------------------------------------------------------
  // The stream and its cursor
  // ---------------------------------------------------------------------------

  /** `BufReader<ChildStdout>`: the whole output of the server and how far it has been read. */
  class ByteReader {
    const data: seq<byte>
    var pos: nat

    predicate Valid()
      reads this
    {
      pos <= |data|
    }

    constructor (data: seq<byte>)
      ensures Valid()
      ensures this.data == data && pos == 0
    {
      this.data := data;
      pos := 0;
    }

    /**
     * `read_until(delim, buf)`: appends the bytes up to and including the next
     * `delim` (or up to the end) to `buf` and returns how many were read; 0
     * only at the end of the data.
     */
    method ReadUntil(delim: byte, buf: seq<byte>) returns (grown: seq<byte>, n: nat)
      requires Valid()
      modifies this
      ensures Valid()
      ensures pos == ScanTo(data, old(pos), delim)
      ensures n == pos - old(pos)
      ensures grown == buf + data[old(pos)..pos]
    {
      var start := pos;
      while pos < |data| && data[pos] != delim
        invariant start <= pos <= |data|
        invariant ScanTo(data, start, delim) == ScanTo(data, pos, delim)
        decreases |data| - pos
      {
        pos := pos + 1;
      }
      if pos < |data| {
        pos := pos + 1;
      }
      n := pos - start;
      grown := buf + data[start..pos];
    }

    /**
     * `read_line`: the next line, newline included, or None when its bytes are
     * not UTF-8 (the bytes are consumed either way). At the end of the data
     * the line is empty.
     */
    method ReadLine() returns (line: Option<string>)
      requires Valid()
      modifies this
      ensures Valid()
      ensures pos == ScanTo(data, old(pos), Newline)
      ensures line == FromUtf8(data[old(pos)..pos])
    {
      var bytes, _ := ReadUntil(Newline, []);
      assert bytes == data[old(pos)..pos];
      line := FromUtf8(bytes);
    }
  }

  // ---------------------------------------------------------------------------
  // Header lines
  // ---------------------------------------------------------------------------

  /** `u8::is_ascii_whitespace`: space, tab, line feed, form feed, carriage return. */
  predicate IsAsciiSpace(c: char) {
    c == ' ' || c == '\t' || c == '\n' || c == '\U{000C}' || c == '\r'
  }

  predicate NoSpace(s: string) {
    forall i :: 0 <= i < |s| ==> !IsAsciiSpace(s[i])
  }

  /** Length of the run of non-whitespace characters at the front of `s`. */
  function WordLength(s: string): (n: nat)
    ensures n <= |s|
    ensures NoSpace(s[..n])
    ensures n < |s| ==> IsAsciiSpace(s[n])
  {
    if s == [] || IsAsciiSpace(s[0]) then 0
    else
      var m := WordLength(s[1..]);
      assert s[..m + 1] == [s[0]] + s[1..][..m];
      m + 1
  }

  /** `str::split_ascii_whitespace`: the maximal non-empty runs of non-whitespace characters. */
  function Words(s: string): (ws: seq<string>)
    ensures forall i :: 0 <= i < |ws| ==> ws[i] != [] && NoSpace(ws[i])
    decreases |s|
  {
    if s == [] then []
    else if IsAsciiSpace(s[0]) then Words(s[1..])
    else
      var n := WordLength(s);
      [s[..n]] + Words(s[n..])
  }

  lemma {:induction false} WordLengthOfWord(a: string, rest: string)
    requires NoSpace(a)
    requires rest == [] || IsAsciiSpace(rest[0])
    ensures WordLength(a + rest) == |a|
  {
    if a == [] {
      assert a + rest == rest;
    } else {
      assert (a + rest)[0] == a[0];
      assert (a + rest)[1..] == a[1..] + rest;
      WordLengthOfWord(a[1..], rest);
    }
  }

  /** A word followed by whitespace (or nothing) is split off whole. */
  lemma WordsOfWord(a: string, rest: string)
    requires a != [] && NoSpace(a)
    requires rest == [] || IsAsciiSpace(rest[0])
    ensures Words(a + rest) == [a] + Words(rest)
  {
    WordLengthOfWord(a, rest);
    assert (a + rest)[0] == a[0];
    assert (a + rest)[..|a|] == a;
    assert (a + rest)[|a|..] == rest;
  }

  /** A line of whitespace only has no words. */
  lemma {:induction false} WordsOfBlank(s: string)
    requires forall i :: 0 <= i < |s| ==> IsAsciiSpace(s[i])
    ensures Words(s) == []
  {
    if s != [] {
      WordsOfBlank(s[1..]);
    }
  }

  /** What one header line does, given the pending length and type (the `match` arms in order). */
  datatype HeaderAction =
    | SetLength(n: nat)          // `Content-Length: n` with nothing pending
    | BadLength(word: string)    // `Content-Length: x` where x is not a usize: `unwrap` panics
    | SetType(t: string)         // `Content-Type: t` after a length, before any type
    | StartBody(n: nat)          // blank line with a pending length
    | EndOfOutput                // blank line with nothing pending
    | Unexpected                 // anything else: `panic!`

  function Classify(words: seq<string>, length: Option<nat>, ctype: Option<string>): (r: HeaderAction)
    ensures r.SetLength? || r.SetType? ==> |words| == 2
  {
    if |words| == 2 && words[0] == "Content-Length:" && length.None? && ctype.None? then
      match ParseUsize(words[1])
      case Some(n) => SetLength(n)
      case None => BadLength(words[1])
    else if |words| == 2 && words[0] == "Content-Type:" && length.Some? && ctype.None? then
      SetType(words[1])
    else if words == [] && length.Some? then
      StartBody(length.value)
    else if words == [] && length.None? && ctype.None? then
      EndOfOutput
    else
      Unexpected
  }

  /** Which header line does what, given what is pending. */
  lemma ClassifyCases(words: seq<string>, length: Option<nat>, ctype: Option<string>)
    ensures var r := Classify(words, length, ctype);
      && (r.SetLength? || r.BadLength? <==>
            |words| == 2 && words[0] == "Content-Length:" && length.None? && ctype.None?)
      && (r.SetLength? ==> ParseUsize(words[1]) == Some(r.n))
      && (r.BadLength? ==> ParseUsize(words[1]).None?)
      && (r.SetType? <==> |words| == 2 && words[0] == "Content-Type:" && length.Some? && ctype.None?)
      && (r.SetType? ==> r.t == words[1])
      && (r.StartBody? <==> words == [] && length.Some?)
      && (r.StartBody? ==> r.n == length.value)
      && (r.EndOfOutput? <==> words == [] && length.None? && ctype.None?)
  {
  }

  // ---------------------------------------------------------------------------
  // The body
  // ---------------------------------------------------------------------------

  datatype BodyRead =
    | Filled(end: nat)   // `bytes_left` reached 0 with the cursor at `end`
    | Underflow          // a chunk was longer than `bytes_left`: the subtraction panics
    | Starved            // the data ended first: `read_until` returns 0 for ever

  /**
   * The inner `while bytes_left > 0` loop started at `p` with `left` bytes to go.
   * When it fills, it has consumed exactly `left` bytes, and the last of them
   * is a `}` unless the data ran out right there.
   */
  function ReadBody(data: seq<byte>, p: nat, left: nat): (r: BodyRead)
    requires p <= |data|
    ensures r.Filled? ==> r.end == p + left <= |data|
    ensures r.Filled? && left > 0 ==> data[r.end - 1] == CloseBrace || r.end == |data|
    ensures r.Starved? ==> p + left > |data|
    decreases left
  {
    if left == 0 then Filled(p)
    else
      var e := ScanTo(data, p, CloseBrace);
      var n := e - p;
      if n == 0 then Starved
      else if n > left then Underflow
      else ReadBody(data, e, left - n)
  }

  /**
   * When the `left` bytes ahead end with `}`, no chunk crosses their end, even if
   * `}` also occurs earlier: the loop stops with exactly those bytes consumed.
   */
  lemma {:induction false} ReadBodyConsumesExactly(data: seq<byte>, p: nat, left: nat)
    requires p + left <= |data|
    requires left > 0 ==> data[p + left - 1] == CloseBrace
    ensures ReadBody(data, p, left) == Filled(p + left)
    decreases left
  {
    if left > 0 {
      var e := ScanTo(data, p, CloseBrace);
      ScanToPassesNoDelimiter(data, p, CloseBrace);
      assert e <= p + left;
      ReadBodyConsumesExactly(data, e, left - (e - p));
    }
  }

  /**
   * When the `left` bytes ahead hold no `}` and more data follows them, the
   * first chunk runs past the body and `bytes_left -= read_bytes` underflows.
   */
  lemma BodyWithoutBraceOverruns(data: seq<byte>, p: nat, left: nat)
    requires 0 < left && p + left < |data|
    requires forall k :: p <= k < p + left ==> data[k] != CloseBrace
    ensures ReadBody(data, p, left) == Underflow
  {
    ScanToSkips(data, p, left, CloseBrace);
  }

  /** A three-byte body `[1]` followed by `{}`: the body read takes five bytes and underflows. */
  lemma ArrayBodyOverruns()
    ensures ReadBody([91, 49, 93, 123, 125], 0, 3) == Underflow
  {
    BodyWithoutBraceOverruns([91, 49, 93, 123, 125], 0, 3);
  }

  // ---------------------------------------------------------------------------
  // The decoder loop
  // ---------------------------------------------------------------------------

  datatype Panic =
    | InvalidLength(word: string)       // `content_length.parse().unwrap()`
    | CapacityOverflow                  // `Vec::with_capacity` of more than `isize::MAX` bytes
    | BodyOverrun                       // `bytes_left -= read_bytes` below zero
    | BodyNotUtf8                       // `String::from_utf8(content).unwrap()`
    | UnexpectedStdout(words: seq<string>, length: Option<nat>, ctype: Option<string>)

  datatype Stop =
    | Shutdown          // blank or empty line with nothing pending
    | ReadFailed        // `read_line` reported an error (a line that is not UTF-8)
    | Panicked(why: Panic)
    | Hung              // the data ended inside a body

  /** The messages sent on the channel, in order, and how the thread ended. */
  datatype Decoded = Decoded(messages: seq<string>, stop: Stop)

  function Prepend(msg: string, d: Decoded): (r: Decoded)
    ensures r.messages == [msg] + d.messages && r.stop == d.stop
  {
    Decoded([msg] + d.messages, d.stop)
  }

  /** The messages already sent, followed by what the decoder does from here on. */
  function After(sent: seq<string>, d: Decoded): Decoded
  {
    Decoded(sent + d.messages, d.stop)
  }

  lemma AfterPrepend(sent: seq<string>, msg: string, d: Decoded)
    ensures After(sent, Prepend(msg, d)) == After(sent + [msg], d)
  {
    assert sent + ([msg] + d.messages) == (sent + [msg]) + d.messages;
  }

  /**
   * What the decoder does from cursor `p` with the given pending header
   * values, one loop iteration per call: read a line, then act on its words.
   */
  function Run(data: seq<byte>, p: nat, length: Option<nat>, ctype: Option<string>): Decoded
    requires p <= |data|
    decreases |data| - p, if length.Some? then 1 else 0, 2
  {
    var e := ScanTo(data, p, Newline);
    match FromUtf8(data[p..e])
    case None => Decoded([], ReadFailed)
    case Some(line) =>
      assert e == p ==> Words(line) == [] by {
        if e == p {
          assert data[p..e] == [];
        }
      }
      Act(data, p, e, Words(line), length, ctype)
  }

  /** The `match` on a header line's words, the line being `data[p..e]`. */
  function Act(data: seq<byte>, p: nat, e: nat, words: seq<string>, length: Option<nat>, ctype: Option<string>): Decoded
    requires p <= e <= |data| && (e == p ==> words == [])
    decreases |data| - p, if length.Some? then 1 else 0, 1
  {
    match Classify(words, length, ctype)
    case SetLength(n) => Run(data, e, Some(n), None)
    case BadLength(w) => Decoded([], Panicked(InvalidLength(w)))
    case SetType(t) => Run(data, e, length, Some(t))
    case StartBody(n) => Body(data, e, n)
    case EndOfOutput => Decoded([], Shutdown)
    case Unexpected => Decoded([], Panicked(UnexpectedStdout(words, length, ctype)))
  }

  /**
   * A body of `n` bytes from `e`: the message it holds, then the decoder from
   * just past it. A length above `isize::MAX` panics when the buffer is
   * reserved, before a byte is read.
   */
  function Body(data: seq<byte>, e: nat, n: nat): Decoded
    requires e <= |data|
    decreases |data| - e, 1, 0
  {
    if n >= IsizeLimit then Decoded([], Panicked(CapacityOverflow))
    else
      match ReadBody(data, e, n)
      case Starved => Decoded([], Hung)
      case Underflow => Decoded([], Panicked(BodyOverrun))
      case Filled(q) =>
        match FromUtf8(data[e..q])
        case None => Decoded([], Panicked(BodyNotUtf8))
        case Some(msg) => Prepend(msg, Run(data, q, None, None))
  }

  /**
   * The body loop: `read_until(b'}')` chunks appended to `content` while
   * `bytes_left` is positive. The source spins for ever once the data has
   * ended; here that case returns `Starved`.
   */
  method ReadContent(rx: ByteReader, contentLength: nat) returns (body: BodyRead, content: seq<byte>)
    requires rx.Valid()
    modifies rx
    ensures rx.Valid()
    ensures body == ReadBody(rx.data, old(rx.pos), contentLength)
    ensures body.Filled? ==> rx.pos == body.end && content == rx.data[old(rx.pos)..rx.pos]
  {
    var bodyStart := rx.pos;
    content := [];
    var bytesLeft := contentLength;
    while bytesLeft > 0
      invariant rx.Valid() && bodyStart <= rx.pos
      invariant content == rx.data[bodyStart..rx.pos]
      invariant ReadBody(rx.data, bodyStart, contentLength) == ReadBody(rx.data, rx.pos, bytesLeft)
      decreases bytesLeft
    {
      var readBytes;
      content, readBytes := rx.ReadUntil(CloseBrace, content);
      if readBytes == 0 {
        return Starved, content;
      }
      if readBytes > bytesLeft {
        return Underflow, content;
      }
      bytesLeft := bytesLeft - readBytes;
    }
    body := Filled(rx.pos);
  }

  /**
   * The body of one message: read `contentLength` bytes in chunks and decode
   * them. Either the message is sent and the decoder goes on from just past
   * it, or the thread stops.
   */
  method ReadMessage(rx: ByteReader, contentLength: nat) returns (text: Option<string>, stop: Stop)
    requires rx.Valid()
    modifies rx
    ensures rx.Valid()
    ensures text.Some? ==> old(rx.pos) <= rx.pos
    ensures text.Some? ==> Body(rx.data, old(rx.pos), contentLength) == Prepend(text.value, Run(rx.data, rx.pos, None, None))
    ensures text.None? ==> Body(rx.data, old(rx.pos), contentLength) == Decoded([], stop)
  {
    if contentLength >= IsizeLimit {
      return None, Panicked(CapacityOverflow);
    }
    var body, content := ReadContent(rx, contentLength);
    if body.Starved? {
      return None, Hung;
    } else if body.Underflow? {
      return None, Panicked(BodyOverrun);
    }
    text := FromUtf8(content);
    stop := Shutdown;
    if text.None? {
      stop := Panicked(BodyNotUtf8);
    }
  }

  /**
   * The thread body of `stdout_proxy`: reads the whole output and returns the
   * messages it sends, in order, and the reason it stops.
   */
  method StdoutProxy(rx: ByteReader) returns (sent: seq<string>, stop: Stop)
    requires rx.Valid()
    modifies rx
    ensures Decoded(sent, stop) == Run(rx.data, old(rx.pos), None, None)
  {
    var nextContentLength: Option<nat> := None;
    var nextContentType: Option<string> := None;
    sent := [];
    while true
      invariant rx.Valid()
      invariant Run(rx.data, old(rx.pos), None, None)
                  == After(sent, Run(rx.data, rx.pos, nextContentLength, nextContentType))
      decreases |rx.data| - rx.pos, if nextContentLength.Some? then 1 else 0
    {
      ghost var p := rx.pos;
      ghost var rest := Run(rx.data, p, nextContentLength, nextContentType);
      var lineRead := rx.ReadLine();
      if lineRead.None? {
        stop := ReadFailed;
        return;
      }
      var words := Words(lineRead.value);
      assert rx.pos == p ==> words == [] by {
        if rx.pos == p {
          assert rx.data[p..rx.pos] == [];
        }
      }
      assert rest == Act(rx.data, p, rx.pos, words, nextContentLength, nextContentType);
      var action := Classify(words, nextContentLength, nextContentType);
      match action {
        case SetLength(n) =>
          assert rest == Run(rx.data, rx.pos, Some(n), None);
          nextContentLength := Some(n);
        case BadLength(w) =>
          stop := Panicked(InvalidLength(w));
          return;
        case SetType(t) =>
          assert rest == Run(rx.data, rx.pos, nextContentLength, Some(t));
          nextContentType := Some(t);
        case StartBody(contentLength) =>
          assert rest == Body(rx.data, rx.pos, contentLength);
          var text, bodyStop := ReadMessage(rx, contentLength);
          if text.None? {
            stop := bodyStop;
            return;
          }
          AfterPrepend(sent, text.value, Run(rx.data, rx.pos, None, None));
          sent := sent + [text.value];
          nextContentLength := None;
          nextContentType := None;
        case EndOfOutput =>
          stop := Shutdown;
          return;
        case Unexpected =>
          stop := Panicked(UnexpectedStdout(words, nextContentLength, nextContentType));
          return;
      }
    }
  }

  // ---------------------------------------------------------------------------
  // Properties of the decoder loop
  // ---------------------------------------------------------------------------

  /** The text of the line that starts at `p`, if it is UTF-8. */
  function LineAt(data: seq<byte>, p: nat): Option<string>
    requires p <= |data|
  {
    FromUtf8(data[p..ScanTo(data, p, Newline)])
  }

  /**
   * A blank line with a pending length emits exactly one message, the body
   * that follows, and the decoder goes on from just past the body with both
   * pending values cleared.
   */
  lemma BlankLineEmitsBody(data: seq<byte>, p: nat, n: nat, ctype: Option<string>)
    requires p <= |data|
    requires LineAt(data, p).Some? && Words(LineAt(data, p).value) == []
    requires ScanTo(data, p, Newline) + n <= |data| && n < IsizeLimit
    requires n > 0 ==> data[ScanTo(data, p, Newline) + n - 1] == CloseBrace
    requires FromUtf8(data[ScanTo(data, p, Newline)..ScanTo(data, p, Newline) + n]).Some?
    ensures Run(data, p, Some(n), ctype)
      == Prepend(FromUtf8(data[ScanTo(data, p, Newline)..ScanTo(data, p, Newline) + n]).value,
                 Run(data, ScanTo(data, p, Newline) + n, None, None))
  {
    BlankLineStartsBody(data, p, n, ctype);
    ExactBody(data, ScanTo(data, p, Newline), n);
  }

  lemma BlankLineStartsBody(data: seq<byte>, p: nat, n: nat, ctype: Option<string>)
    requires p <= |data|
    requires LineAt(data, p).Some? && Words(LineAt(data, p).value) == []
    ensures Run(data, p, Some(n), ctype) == Body(data, ScanTo(data, p, Newline), n)
  {
    assert Classify(Words(LineAt(data, p).value), Some(n), ctype) == StartBody(n);
  }

  /** A body whose last byte is `}` is read in full and sent when it is UTF-8. */
  lemma ExactBody(data: seq<byte>, e: nat, n: nat)
    requires e + n <= |data| && n < IsizeLimit
    requires n > 0 ==> data[e + n - 1] == CloseBrace
    requires FromUtf8(data[e..e + n]).Some?
    ensures Body(data, e, n) == Prepend(FromUtf8(data[e..e + n]).value, Run(data, e + n, None, None))
  {
    ReadBodyConsumesExactly(data, e, n);
    assert ReadBody(data, e, n).end == e + n;
  }

  /** A blank or empty line with nothing pending stops the decoder with nothing sent. */
  lemma BlankLineShutsDown(data: seq<byte>, p: nat)
    requires p <= |data|
    requires LineAt(data, p).Some? && Words(LineAt(data, p).value) == []
    ensures Run(data, p, None, None) == Decoded([], Shutdown)
  {
  }

  /** The end of the output with nothing pending is a shutdown. */
  lemma EndOfDataShutsDown(data: seq<byte>)
    ensures Run(data, |data|, None, None) == Decoded([], Shutdown)
  {
    assert data[|data|..|data|] == [];
  }

  /** The end of the output inside a body that still needs bytes leaves the thread hanging. */
  lemma EndOfDataInBodyHangs(data: seq<byte>, n: nat, ctype: Option<string>)
    requires 0 < n < IsizeLimit
    ensures Run(data, |data|, Some(n), ctype) == Decoded([], Hung)
  {
    assert data[|data|..|data|] == [];
    assert Run(data, |data|, Some(n), ctype) == Body(data, |data|, n);
  }

  /**
   * A blank line after a `Content-Length` above `isize::MAX` panics when the
   * body buffer is reserved: nothing is read and nothing is sent.
   */
  lemma OversizedLengthPanics(data: seq<byte>, p: nat, n: nat, ctype: Option<string>)
    requires p <= |data|
    requires LineAt(data, p).Some? && Words(LineAt(data, p).value) == []
    requires n >= IsizeLimit
    ensures Run(data, p, Some(n), ctype) == Decoded([], Panicked(CapacityOverflow))
  {
    BlankLineStartsBody(data, p, n, ctype);
  }
}
