/** Shell frames on a byte stream. */
module Framing {
  import opened Bytes

  type U16 = n: nat | n < 0x1_0000

  datatype Frame = Data(bytes: seq<Byte>) | Resize(cols: U16, rows: U16) | Ping | Pong

  datatype Fault = UnexpectedEof | InvalidResize | UnknownTag

  /** One read: a frame and the rest of the stream, the end of the stream, or an error. */
  datatype Reading = Got(frame: Frame, rest: seq<Byte>) | EndOfStream | Failed(fault: Fault)

  /** Larger data is refused by the writer. */
  predicate Writable(f: Frame) {
    f.Data? ==> |f.bytes| < 0x1_0000
  }

  function Encode(f: Frame): (r: seq<Byte>)
    requires Writable(f)
    ensures |r| >= 3
  {
    match f
    case Data(bytes) => [0] + ToBE(|bytes|, 2) + bytes
    case Resize(cols, rows) => [1, 0, 4] + ToBE(cols, 2) + ToBE(rows, 2)
    case Ping => [2, 0, 0]
    case Pong => [3, 0, 0]
  }

  /** Fewer than three bytes count as the end of the stream, even when it stops inside a header. */
  function Read(stream: seq<Byte>): (r: Reading)
    ensures r.Got? ==> |r.rest| < |stream|
  {
    if |stream| < 3 then EndOfStream else
      var tag, len, body := stream[0], FromBE(stream[1..3]), stream[3..];
      if tag == 0 then
        if |body| < len then Failed(UnexpectedEof) else Got(Data(body[..len]), body[len..])
      else if tag == 1 then
        if len != 4 then Failed(InvalidResize)
        else if |body| < 4 then Failed(UnexpectedEof)
        else Bounded(body[..2]); Bounded(body[2..4]);
             Got(Resize(FromBE(body[..2]), FromBE(body[2..4])), body[4..])
      else if tag == 2 then Got(Ping, body)
      else if tag == 3 then Got(Pong, body)
      else Failed(UnknownTag)
  }

  lemma Bounded(s: seq<Byte>)
    requires |s| == 2
    ensures FromBE(s) < 0x1_0000
  {
    Pow256Values();
  }

  function EncodeAll(frames: seq<Frame>): seq<Byte>
    requires forall f :: f in frames ==> Writable(f)
  {
    if frames == [] then [] else Encode(frames[0]) + EncodeAll(frames[1..])
  }

  /** What the forwarding loops do: read frames until the stream ends or fails. */
  function ReadAll(stream: seq<Byte>): (r: (seq<Frame>, Reading))
    ensures !r.1.Got?
    decreases |stream|
  {
    match Read(stream)
    case Got(f, rest) => var (fs, last) := ReadAll(rest); ([f] + fs, last)
    case other => ([], other)
  }

  /** A duplex end: what has been written and not yet read. */
  class Wire {
    var bytes: seq<Byte>

    constructor ()
      ensures bytes == []
    {
      bytes := [];
    }

    method Write(f: Frame) returns (ok: bool)
      modifies this
      ensures ok == Writable(f)
      ensures bytes == if ok then old(bytes) + Encode(f) else old(bytes)
    {
      match f {
        case Data(data) =>
          if |data| > 65535 {
            return false;
          }
          bytes := bytes + ([0] + ToBE(|data|, 2));
          bytes := bytes + data;
        case Resize(cols, rows) =>
          bytes := bytes + ([1, 0, 4] + ToBE(cols, 2) + ToBE(rows, 2));
        case Ping =>
          bytes := bytes + [2, 0, 0];
        case Pong =>
          bytes := bytes + [3, 0, 0];
      }
      ok := true;
    }

    /** Reads frames until none is left. */
    method Drain() returns (frames: seq<Frame>, last: Reading)
      modifies this
      ensures (frames, last) == ReadAll(old(bytes))
    {
      frames := [];
      while true
        invariant ReadAll(old(bytes)).0 == frames + ReadAll(bytes).0 && ReadAll(old(bytes)).1 == ReadAll(bytes).1
        decreases |bytes|
      {
        last := Read(bytes);
        if !last.Got? {
          assert frames + [] == frames;
          return;
        }
        ReadAllGot(bytes);
        frames, bytes := frames + [last.frame], last.rest;
      }
    }
  }

  lemma ReadAllGot(stream: seq<Byte>)
    requires Read(stream).Got?
    ensures var r := Read(stream); ReadAll(stream) == ([r.frame] + ReadAll(r.rest).0, ReadAll(r.rest).1)
  {
  }

  // ---- One frame ----

  lemma DataReadsBack(bytes: seq<Byte>, rest: seq<Byte>)
    requires |bytes| < 0x1_0000
    ensures Read(Encode(Data(bytes)) + rest) == Got(Data(bytes), rest)
  {
    var stream := Encode(Data(bytes)) + rest;
    ThreeParts(stream, ToBE(|bytes|, 2), bytes, rest);
    assert FromBE(ToBE(|bytes|, 2)) == |bytes| by {
      Pow256Values();
      FromToBE(|bytes|, 2);
    }
    ReadData(stream, bytes, rest);
  }

  lemma ReadData(stream: seq<Byte>, bytes: seq<Byte>, rest: seq<Byte>)
    requires |stream| >= 3 && stream[0] == 0 && FromBE(stream[1..3]) == |bytes| <= |stream[3..]|
    requires stream[3..][..|bytes|] == bytes && stream[3..][|bytes|..] == rest
    ensures Read(stream) == Got(Data(bytes), rest)
  {
  }

  lemma ThreeParts(stream: seq<Byte>, length: seq<Byte>, bytes: seq<Byte>, rest: seq<Byte>)
    requires |length| == 2 && stream == [0] + length + bytes + rest
    ensures |stream| >= 3 && stream[0] == 0 && stream[1..3] == length && |bytes| <= |stream[3..]|
    ensures stream[3..][..|bytes|] == bytes && stream[3..][|bytes|..] == rest
  {
    assert stream[3..] == bytes + rest;
  }

  lemma ReadResize(stream: seq<Byte>, cols: U16, rows: U16, rest: seq<Byte>)
    requires |stream| >= 7 && stream[0] == 1 && FromBE(stream[1..3]) == 4
    requires FromBE(stream[3..][..2]) == cols && FromBE(stream[3..][2..4]) == rows && stream[3..][4..] == rest
    ensures Read(stream) == Got(Resize(cols, rows), rest)
  {
  }

  lemma FourParts(stream: seq<Byte>, head: seq<Byte>, a: seq<Byte>, b: seq<Byte>, rest: seq<Byte>)
    requires |head| == 3 && |a| == |b| == 2 && stream == head + a + b + rest
    ensures |stream| >= 7 && stream[0] == head[0] && stream[1..3] == head[1..3]
    ensures stream[3..][..2] == a && stream[3..][2..4] == b && stream[3..][4..] == rest
  {
    assert stream[3..] == a + b + rest;
  }

  lemma ResizeReadsBack(cols: U16, rows: U16, rest: seq<Byte>)
    ensures Read(Encode(Resize(cols, rows)) + rest) == Got(Resize(cols, rows), rest)
  {
    var stream := Encode(Resize(cols, rows)) + rest;
    var head: seq<Byte> := [1, 0, 4];
    FourParts(stream, head, ToBE(cols, 2), ToBE(rows, 2), rest);
    assert FromBE(head[1..3]) == 4;
    assert FromBE(ToBE(cols, 2)) == cols && FromBE(ToBE(rows, 2)) == rows by {
      Pow256Values();
      FromToBE(cols, 2);
      FromToBE(rows, 2);
    }
    ReadResize(stream, cols, rows, rest);
  }

  lemma ReadsBack(f: Frame, rest: seq<Byte>)
    requires Writable(f)
    ensures Read(Encode(f) + rest) == Got(f, rest)
  {
    match f {
      case Data(bytes) => DataReadsBack(bytes, rest);
      case Resize(cols, rows) => ResizeReadsBack(cols, rows, rest);
      case _ => assert (Encode(f) + rest)[3..] == rest;
    }
  }

  /** A frame that was read is its own encoding, except that the length of a ping or pong is ignored. */
  lemma ReadIsEncodingIff(stream: seq<Byte>)
    requires Read(stream).Got?
    ensures Writable(Read(stream).frame)
    ensures stream == Encode(Read(stream).frame) + Read(stream).rest
      <==> (stream[0] >= 2 ==> stream[1] == 0 && stream[2] == 0)
  {
    if stream[0] == 0 {
      DataIsEncoding(stream);
    } else if stream[0] == 1 {
      ResizeIsEncoding(stream);
    } else {
      var code, body := Encode(Read(stream).frame), stream[3..];
      assert |code| == 3 && code[0] == stream[0] && code[1] == 0 && code[2] == 0;
      assert (code + body)[1] == 0 && (code + body)[2] == 0;
      if stream[1] == 0 && stream[2] == 0 { assert stream == code + body; }
    }
  }

  lemma DataIsEncoding(stream: seq<Byte>)
    requires Read(stream).Got? && stream[0] == 0
    ensures Writable(Read(stream).frame) && stream == Encode(Read(stream).frame) + Read(stream).rest
  {
    var len, body := stream[1..3], stream[3..];
    Pow256Values();
    ToFromBE(len);
    var data, rest := body[..FromBE(len)], body[FromBE(len)..];
    assert ToBE(|data|, 2) == len;
    assert stream == [0] + len + data + rest;
  }

  lemma ResizeIsEncoding(stream: seq<Byte>)
    requires Read(stream).Got? && stream[0] == 1
    ensures stream == Encode(Read(stream).frame) + Read(stream).rest
  {
    var len, cols, rows := stream[1..3], stream[3..][..2], stream[3..][2..4];
    assert len == [0, 4] by {
      ToFromBE(len);
      assert ToBE(4, 2) == [0, 4];
    }
    assert ToBE(FromBE(cols), 2) == cols && ToBE(FromBE(rows), 2) == rows by {
      ToFromBE(cols);
      ToFromBE(rows);
    }
    SixParts(stream, cols, rows);
  }

  lemma SixParts(stream: seq<Byte>, cols: seq<Byte>, rows: seq<Byte>)
    requires |stream| >= 7 && stream[0] == 1 && stream[1..3] == [0, 4]
    requires stream[3..][..2] == cols && stream[3..][2..4] == rows
    ensures stream == [1, 0, 4] + cols + rows + stream[3..][4..]
  {
    assert stream[1] == stream[1..3][0] && stream[2] == stream[1..3][1];
    assert stream[3..] == cols + rows + stream[3..][4..];
    assert stream == [1, 0, 4] + stream[3..];
  }

  /** How the reading of a stream ends that stops with `left` bytes of a frame. */
  function CutShort(left: nat): Reading {
    if left < 3 then EndOfStream else Failed(UnexpectedEof)
  }

  /** A stream that stops inside a header is taken for its end, one that stops inside a body is an error. */
  lemma PartialFrame(f: Frame, k: nat)
    requires Writable(f) && k < |Encode(f)|
    ensures Read(Encode(f)[..k]) == CutShort(k)
  {
    if k >= 3 {
      match f {
        case Data(bytes) => PartialData(bytes, k);
        case Resize(cols, rows) => PartialResize(cols, rows, k);
        case _ =>
      }
    }
  }

  lemma PartialData(bytes: seq<Byte>, k: nat)
    requires |bytes| < 0x1_0000 && 3 <= k < |Encode(Data(bytes))|
    ensures Read(Encode(Data(bytes))[..k]) == Failed(UnexpectedEof)
  {
    var code := Encode(Data(bytes));
    assert code[..k][1..3] == code[1..3] == ToBE(|bytes|, 2);
    assert FromBE(ToBE(|bytes|, 2)) == |bytes| by {
      Pow256Values();
      FromToBE(|bytes|, 2);
    }
  }

  lemma PartialResize(cols: U16, rows: U16, k: nat)
    requires 3 <= k < |Encode(Resize(cols, rows))|
    ensures Read(Encode(Resize(cols, rows))[..k]) == Failed(UnexpectedEof)
  {
    var code := Encode(Resize(cols, rows));
    var head: seq<Byte> := [1, 0, 4];
    assert code[..k][1..3] == code[1..3] == head[1..3];
    assert FromBE(head[1..3]) == 4;
  }

  /** The reader takes a ping with a length for a ping. */
  lemma LongPingIsRead(high: Byte, low: Byte, rest: seq<Byte>)
    requires high != 0 || low != 0
    ensures Read([2, high, low] + rest) == Got(Ping, rest) && [2, high, low] + rest != Encode(Ping) + rest
  {
    var stream: seq<Byte> := [2, high, low] + rest;
    assert stream[3..] == rest && stream[1] == high && stream[2] == low;
    assert (Encode(Ping) + rest)[1] == 0 && (Encode(Ping) + rest)[2] == 0;
  }

  // ---- Streams of frames ----

  /** Framing round trip: reading the concatenated encodings gives back exactly the frames, then the end. */
  lemma {:induction false} StreamRoundTrip(frames: seq<Frame>)
    requires forall f :: f in frames ==> Writable(f)
    ensures ReadAll(EncodeAll(frames)) == (frames, EndOfStream)
  {
    if frames != [] {
      StreamRoundTrip(frames[1..]);
      ReadsBack(frames[0], EncodeAll(frames[1..]));
      assert frames == [frames[0]] + frames[1..];
    }
  }

  /** How many frames lie wholly in the first `k` bytes. */
  function Whole(frames: seq<Frame>, k: nat): (n: nat)
    requires forall f :: f in frames ==> Writable(f)
    ensures n <= |frames|
  {
    if frames == [] || k < |Encode(frames[0])| then 0 else 1 + Whole(frames[1..], k - |Encode(frames[0])|)
  }

  /** How many of the first `k` bytes come after those frames. */
  function Left(frames: seq<Frame>, k: nat): nat
    requires forall f :: f in frames ==> Writable(f)
  {
    if frames == [] || k < |Encode(frames[0])| then k else Left(frames[1..], k - |Encode(frames[0])|)
  }

  lemma CutInFirst(frames: seq<Frame>, k: nat)
    requires (forall f :: f in frames ==> Writable(f)) && frames != [] && k < |Encode(frames[0])|
    ensures k <= |EncodeAll(frames)| && ReadAll(EncodeAll(frames)[..k]) == ([], CutShort(k))
  {
    assert EncodeAll(frames)[..k] == Encode(frames[0])[..k];
    PartialFrame(frames[0], k);
  }

  lemma CutAfterFirst(frames: seq<Frame>, k: nat)
    requires (forall f :: f in frames ==> Writable(f)) && frames != []
    requires |Encode(frames[0])| <= k <= |EncodeAll(frames)|
    ensures var n := |Encode(frames[0])|; var (read, last) := ReadAll(EncodeAll(frames[1..])[..k - n]);
      ReadAll(EncodeAll(frames)[..k]) == ([frames[0]] + read, last)
  {
    var f, rest := frames[0], frames[1..];
    var tail := EncodeAll(rest)[..k - |Encode(f)|];
    assert EncodeAll(frames)[..k] == Encode(f) + tail;
    ReadsBack(f, tail);
    ReadAllGot(Encode(f) + tail);
  }

  /** Wherever a stream is cut off, exactly the frames wholly before the cut are read, and the reading ends as the
      bytes left over tell. */
  lemma {:induction false} CutStreamReads(frames: seq<Frame>, k: nat)
    requires (forall f :: f in frames ==> Writable(f)) && k <= |EncodeAll(frames)|
    ensures ReadAll(EncodeAll(frames)[..k]) == (frames[..Whole(frames, k)], CutShort(Left(frames, k)))
  {
    if frames != [] {
      var n := |Encode(frames[0])|;
      if k < n {
        CutInFirst(frames, k);
      } else {
        CutStreamReads(frames[1..], k - n);
        CutAfterFirst(frames, k);
        assert frames[..Whole(frames, k)] == [frames[0]] + frames[1..][..Whole(frames[1..], k - n)];
      }
    }
  }

  /** So a cut goes unnoticed exactly when it falls less than three bytes after the end of a frame. */
  lemma CutGoesUnnoticedIff(frames: seq<Frame>, k: nat)
    requires (forall f :: f in frames ==> Writable(f)) && k <= |EncodeAll(frames)|
    ensures ReadAll(EncodeAll(frames)[..k]).1 == EndOfStream <==> Left(frames, k) < 3
  {
    CutStreamReads(frames, k);
  }
}
