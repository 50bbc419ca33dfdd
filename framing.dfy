/**
 * The client's frame encoder against the stdout frame decoder: a frame
 * `Content-Length: n\r\n\r\n<msg>` whose message ends with `}` is decoded
 * back to that message, and a stream of such frames is decoded to its
 * messages in order, ending in a shutdown at the end of the data.
 */
module Framing {
  import opened Wrappers
  import opened Text
  import opened Utf8
  import opened Json
  import opened JsonRpc
  import opened FrameDecoder
  import opened RpcClient

  /**
   * A message the decoder can take back: it ends with `}`, and its length is
   * at most `isize::MAX`, so the body buffer can be reserved.
   */
  predicate Decodable(msg: string) {
    msg != [] && msg[|msg| - 1] == '}' && |ToUtf8(msg)| < IsizeLimit
  }

  /** The header line the client writes before a message of `n` bytes. */
  function HeaderLine(n: nat): string
  {
    "Content-Length: " + NatToDecimal(n) + "\r\n"
  }

  /** An ASCII line ending in its only newline is read whole, as itself. */
  lemma AsciiLineAt(data: seq<byte>, p: nat, line: string)
    requires IsAscii(line) && line != [] && line[|line| - 1] == '\n'
    requires forall j :: 0 <= j < |line| - 1 ==> line[j] != '\n'
    requires p + |ToUtf8(line)| <= |data| && data[p..p + |ToUtf8(line)|] == ToUtf8(line)
    ensures ScanTo(data, p, Newline) == p + |line|
    ensures LineAt(data, p) == Some(line)
  {
    AsciiToUtf8(line);
    var e := p + |line|;
    assert data[e - 1] == ToUtf8(line)[|line| - 1];
    forall k | p <= k < e - 1 ensures data[k] != Newline {
      assert data[k] == ToUtf8(line)[k - p];
    }
    ScanToFirst(data, p, Newline, e);
    Utf8RoundTrip(line);
  }

  lemma DigitsHaveNoSpace(d: string)
    requires AllDigits(d)
    ensures NoSpace(d) && IsAscii(d)
  {
    assert forall i :: 0 <= i < |d| ==> !IsAsciiSpace(d[i]) && (d[i] as int) < 0x80 by {
      forall i | 0 <= i < |d| ensures !IsAsciiSpace(d[i]) && (d[i] as int) < 0x80 {
        assert IsDigit(d[i]);
      }
    }
  }

  lemma LengthKeyHasNoSpace()
    ensures NoSpace("Content-Length:") && IsAscii("Content-Length: ")
  {
    var key := "Content-Length: ";
    forall i | 0 <= i < |key| ensures (i < 15 ==> !IsAsciiSpace(key[i])) && (key[i] as int) < 0x80 {
    }
  }

  /** Two words, a space and a line end split into those two words. */
  lemma WordsOfPair(a: string, b: string)
    requires a != [] && NoSpace(a) && b != [] && NoSpace(b)
    ensures Words(a + " " + b + "\r\n") == [a, b]
  {
    var tail := " " + b + "\r\n";
    assert a + " " + b + "\r\n" == a + tail;
    WordsOfWord(a, tail);
    assert tail[1..] == b + "\r\n";
    WordsOfWord(b, "\r\n");
    WordsOfBlank("\r\n");
  }

  /** The words of the header line the client writes. */
  lemma LengthLineWords(d: string)
    requires |d| >= 1 && AllDigits(d)
    ensures Words("Content-Length: " + d + "\r\n") == ["Content-Length:", d]
  {
    DigitsHaveNoSpace(d);
    LengthKeyHasNoSpace();
    assert "Content-Length: " == "Content-Length:" + " ";
    WordsOfPair("Content-Length:", d);
  }

  /** The header line sets the pending length to the byte length of the message. */
  lemma LengthLineAt(data: seq<byte>, p: nat, e: nat, n: nat)
    requires n < UsizeLimit
    requires e == p + |ToUtf8(HeaderLine(n))| <= |data|
    requires data[p..e] == ToUtf8(HeaderLine(n))
    ensures ScanTo(data, p, Newline) == e
    ensures LineAt(data, p).Some? && Classify(Words(LineAt(data, p).value), None, None) == SetLength(n)
  {
    var d := NatToDecimal(n);
    var line := "Content-Length: " + d + "\r\n";
    DigitsHaveNoSpace(d);
    assert forall j :: 0 <= j < |line| - 1 ==> line[j] != '\n' && (line[j] as int) < 0x80 by {
      forall j | 0 <= j < |line| - 1 ensures line[j] != '\n' && (line[j] as int) < 0x80 {
        if 16 <= j < 16 + |d| {
          assert line[j] == d[j - 16];
        }
      }
    }
    AsciiLineAt(data, p, line);
    AsciiToUtf8(line);
    LengthLineWords(d);
    ParseUsizeOfDecimal(n);
  }

  /** The blank line after the header starts the body. */
  lemma BlankLineAt(data: seq<byte>, p: nat, b: nat)
    requires b == p + 2 <= |data| && data[p..b] == ToUtf8("\r\n")
    ensures ScanTo(data, p, Newline) == b
    ensures LineAt(data, p).Some? && Words(LineAt(data, p).value) == []
  {
    AsciiLineAt(data, p, "\r\n");
    WordsOfBlank("\r\n");
  }

  /** The last byte of the message's UTF-8 is the `}` that ends it. */
  lemma BracedBytes(msg: string)
    requires msg != [] && msg[|msg| - 1] == '}'
    ensures |ToUtf8(msg)| > 0 && ToUtf8(msg)[|ToUtf8(msg)| - 1] == CloseBrace
  {
    assert msg == msg[..|msg| - 1] + ['}'];
    ToUtf8Append(msg[..|msg| - 1], ['}']);
  }

  /** A piece of a stretch of the data is the same piece of what the stretch holds. */
  lemma Window(data: seq<byte>, p: nat, frame: seq<byte>, i: nat, j: nat)
    requires p + |frame| <= |data| && data[p..p + |frame|] == frame
    requires i <= j <= |frame|
    ensures data[p + i..p + j] == frame[i..j]
  {
    forall k | 0 <= k < j - i ensures data[p + i..p + j][k] == frame[i..j][k] {
      assert data[p + i + k] == data[p..p + |frame|][i + k];
    }
  }

  /** The UTF-8 of the blank line. */
  lemma BlankLineBytes()
    ensures ToUtf8("\r\n") == [13, 10]
  {
    assert "\r\n"[1..] == "\n";
    assert "\n"[1..] == "";
  }

  /** The frame's bytes: the header line, the blank line, the message. */
  lemma FrameBytes(msg: string)
    ensures ToUtf8(Frame(msg)) == ToUtf8(HeaderLine(|ToUtf8(msg)|)) + [13, 10] + ToUtf8(msg)
  {
    var line := HeaderLine(|ToUtf8(msg)|);
    assert Frame(msg) == line + ("\r\n" + msg);
    ToUtf8Append(line, "\r\n" + msg);
    ToUtf8Append("\r\n", msg);
    BlankLineBytes();
  }

  /** The three pieces of a stretch of the data that holds `x + y + z`. */
  lemma Window3(data: seq<byte>, p: nat, e: nat, b: nat, q: nat, x: seq<byte>, y: seq<byte>, z: seq<byte>)
    requires e == p + |x| && b == e + |y| && q == b + |z| <= |data|
    requires data[p..q] == x + y + z
    ensures data[p..e] == x && data[e..b] == y && data[b..q] == z
  {
    var w := x + y + z;
    assert w[..|x|] == x;
    assert w[|x|..|x| + |y|] == y;
    assert w[|x| + |y|..] == z;
    Window(data, p, w, 0, |x|);
    Window(data, p, w, |x|, |x| + |y|);
    Window(data, p, w, |x| + |y|, |w|);
  }

  /** A line that sets the length hands over to the next line with that length pending. */
  lemma SetLengthStep(data: seq<byte>, p: nat, n: nat)
    requires p <= |data|
    requires LineAt(data, p).Some? && Classify(Words(LineAt(data, p).value), None, None) == SetLength(n)
    ensures Run(data, p, None, None) == Run(data, ScanTo(data, p, Newline), Some(n), None)
  {
  }

  /** What the decoder sees at the blank line and in the body that follows it. */
  lemma BlankAndBody(data: seq<byte>, e: nat, b: nat, q: nat, msg: string)
    requires Decodable(msg)
    requires b == e + 2 && q == b + |ToUtf8(msg)| <= |data|
    requires data[e..b] == [13, 10] && data[b..q] == ToUtf8(msg)
    ensures ScanTo(data, e, Newline) == b
    ensures LineAt(data, e).Some? && Words(LineAt(data, e).value) == []
    ensures data[q - 1] == CloseBrace
    ensures FromUtf8(data[b..q]) == Some(msg)
  {
    BlankLineBytes();
    BlankLineAt(data, e, b);
    BracedBytes(msg);
    assert data[q - 1] == ToUtf8(msg)[|ToUtf8(msg)| - 1];
    Utf8RoundTrip(msg);
  }

  /** Where the header line, the blank line and the message sit in a frame found at `p`. */
  lemma FramePieces(data: seq<byte>, p: nat, msg: string) returns (e: nat, b: nat, q: nat)
    requires p + |ToUtf8(Frame(msg))| <= |data|
    requires data[p..p + |ToUtf8(Frame(msg))|] == ToUtf8(Frame(msg))
    ensures e == p + |ToUtf8(HeaderLine(|ToUtf8(msg)|))| && b == e + 2 && q == b + |ToUtf8(msg)|
    ensures q == p + |ToUtf8(Frame(msg))| <= |data|
    ensures data[p..e] == ToUtf8(HeaderLine(|ToUtf8(msg)|))
    ensures data[e..b] == [13, 10] && data[b..q] == ToUtf8(msg)
  {
    var h := ToUtf8(HeaderLine(|ToUtf8(msg)|));
    e := p + |h|;
    b := e + 2;
    q := b + |ToUtf8(msg)|;
    FrameBytes(msg);
    Window3(data, p, e, b, q, h, [13, 10], ToUtf8(msg));
  }

  /**
   * What the decoder finds from `p`: a line that sets the length `n` and
   * ends at `e`, a line with no words that ends at `b`, and then `n` bytes,
   * up to `q`, that end in `}` and are the UTF-8 of `msg`.
   */
  predicate MessageAt(data: seq<byte>, p: nat, e: nat, b: nat, n: nat, q: nat, msg: string) {
    && p <= |data|
    && ScanTo(data, p, Newline) == e
    && LineAt(data, p).Some? && Classify(Words(LineAt(data, p).value), None, None) == SetLength(n)
    && ScanTo(data, e, Newline) == b
    && LineAt(data, e).Some? && Words(LineAt(data, e).value) == []
    && q == b + n <= |data| && n < IsizeLimit && (n > 0 ==> data[q - 1] == CloseBrace)
    && FromUtf8(data[b..q]) == Some(msg)
  }

  /**
   * The lines of a frame found at `p` as the decoder reads them: the header
   * line sets the length of the message, the blank line after it has no
   * words, and the body that follows is the message's UTF-8, ending in `}`
   * where the frame ends.
   */
  lemma FrameLines(data: seq<byte>, p: nat, msg: string) returns (e: nat, b: nat, q: nat)
    requires Decodable(msg)
    requires p + |ToUtf8(Frame(msg))| <= |data|
    requires data[p..p + |ToUtf8(Frame(msg))|] == ToUtf8(Frame(msg))
    ensures q == p + |ToUtf8(Frame(msg))|
    ensures p <= |data|
    ensures ScanTo(data, p, Newline) == e
    ensures LineAt(data, p).Some? && Classify(Words(LineAt(data, p).value), None, None) == SetLength(|ToUtf8(msg)|)
    ensures ScanTo(data, e, Newline) == b
    ensures LineAt(data, e).Some? && Words(LineAt(data, e).value) == []
    ensures q == b + |ToUtf8(msg)| <= |data| && (|ToUtf8(msg)| > 0 ==> data[q - 1] == CloseBrace)
    ensures FromUtf8(data[b..q]) == Some(msg)
  {
    e, b, q := FramePieces(data, p, msg);
    LengthLineAt(data, p, e, |ToUtf8(msg)|);
    BlankAndBody(data, e, b, q, msg);
  }

  /**
   * A line that sets the length `n`, then a line with no words, then `n`
   * bytes of UTF-8 ending in `}`: the decoder emits those bytes as one
   * message and carries on after them with nothing pending.
   */
  lemma MessageStep(data: seq<byte>, p: nat, e: nat, b: nat, n: nat, q: nat, msg: string)
    requires MessageAt(data, p, e, b, n, q, msg)
    ensures Run(data, p, None, None) == Prepend(msg, Run(data, q, None, None))
  {
    SetLengthStep(data, p, n);
    BlankLineEmitsBody(data, e, n, None);
  }

  /**
   * Decoding the frame the client writes for `msg` emits `msg` and carries on
   * just past the frame, at `q`, with nothing pending.
   */
  lemma FrameDecodes(data: seq<byte>, p: nat, msg: string) returns (q: nat)
    requires Decodable(msg)
    requires p + |ToUtf8(Frame(msg))| <= |data|
    requires data[p..p + |ToUtf8(Frame(msg))|] == ToUtf8(Frame(msg))
    ensures q == p + |ToUtf8(Frame(msg))| <= |data|
    ensures Run(data, p, None, None) == Prepend(msg, Run(data, q, None, None))
  {
    var e, b;
    e, b, q := FrameLines(data, p, msg);
    MessageStep(data, p, e, b, |ToUtf8(msg)|, q, msg);
  }

  /** The bytes of the frames for `msgs`, one after another. */
  function Stream(msgs: seq<string>): seq<byte>
  {
    if msgs == [] then [] else ToUtf8(Frame(msgs[0])) + Stream(msgs[1..])
  }

  /**
   * A stream of frames is decoded to its messages, one per frame and in
   * order, and the decoder shuts down at the end of the data.
   */
  lemma {:induction false} StreamDecodes(data: seq<byte>, p: nat, msgs: seq<string>)
    requires forall i :: 0 <= i < |msgs| ==> Decodable(msgs[i])
    requires p + |Stream(msgs)| == |data| && data[p..] == Stream(msgs)
    ensures Run(data, p, None, None) == Decoded(msgs, Shutdown)
    decreases |msgs|
  {
    if msgs == [] {
      assert p == |data|;
      EndOfDataShutsDown(data);
    } else {
      var f := |ToUtf8(Frame(msgs[0]))|;
      assert data[p..p + f] == Stream(msgs)[..f];
      var q := FrameDecodes(data, p, msgs[0]);
      assert data[q..] == Stream(msgs)[f..];
      StreamDecodes(data, q, msgs[1..]);
      assert [msgs[0]] + msgs[1..] == msgs;
    }
  }

  /** The whole output of a server that wrote these frames and exited. */
  lemma StreamRoundTrip(msgs: seq<string>)
    requires forall i :: 0 <= i < |msgs| ==> Decodable(msgs[i])
    ensures Run(Stream(msgs), 0, None, None) == Decoded(msgs, Shutdown)
  {
    StreamDecodes(Stream(msgs), 0, msgs);
  }

  /** A single frame followed by the end of the output. */
  lemma FrameRoundTrip(msg: string)
    requires Decodable(msg)
    ensures Run(ToUtf8(Frame(msg)), 0, None, None) == Decoded([msg], Shutdown)
  {
    assert Stream([msg]) == ToUtf8(Frame(msg)) + Stream([msg][1..]);
    assert Stream([msg][1..]) == [];
    assert Stream([msg]) == ToUtf8(Frame(msg));
    StreamRoundTrip([msg]);
  }

  /** The frame `request` writes is decoded back to the request's JSON text. */
  lemma RequestFrameRoundTrip(methodName: string, params: Option<Json>, id: int)
    requires |ToUtf8(RequestMessage(methodName, params, id))| < IsizeLimit
    ensures Run(ToUtf8(Frame(RequestMessage(methodName, params, id))), 0, None, None)
              == Decoded([RequestMessage(methodName, params, id)], Shutdown)
  {
    var j := RequestToJson(Request("2.0", methodName, params, id));
    SerializedObjectIsBraced(j.members);
    assert Serialize(j) == RequestMessage(methodName, params, id);
    FrameRoundTrip(RequestMessage(methodName, params, id));
  }
}
