/** The length-prefixed frames that carry every message: four big-endian bytes
    of length, one byte of type, the payload. The length counts the type byte. */
module Frames {
  import opened Bytes

  const MAX_FRAME_SIZE := 65535
  const HEADER_SIZE := 4

  datatype Frame = Frame(ty: Byte, payload: Bytes)

  // What io.ReadFull and the length check can report. A read that ends before
  // its first byte is Eof, one that ends later is UnexpectedEof.
  datatype ReadError = Eof | UnexpectedEof | BadLength(n: Uint32)

  // `rest` is what the reader is left with.
  datatype ReadResult = Got(frame: Frame, rest: Bytes) | Failed(error: ReadError, rest: Bytes)

  predicate Fits(payload: Bytes) {
    1 + |payload| <= MAX_FRAME_SIZE
  }

  function Encode(f: Frame): Bytes
    requires Fits(f.payload)
  {
    PutUint32(1 + |f.payload|) + [f.ty] + f.payload
  }

  function Decode(bs: Bytes): ReadResult {
    if |bs| < HEADER_SIZE then
      Failed(if bs == [] then Eof else UnexpectedEof, [])
    else
      var n := GetUint32(bs[..HEADER_SIZE]);
      var body := bs[HEADER_SIZE..];
      if n == 0 || n > MAX_FRAME_SIZE then Failed(BadLength(n), body)
      else if |body| < n then Failed(if body == [] then Eof else UnexpectedEof, [])
      else Got(Frame(body[0], body[1..n]), body[n..])
  }

  // ---------------------------------------------------------------- the two procedures

  class ByteWriter {
    var sent: Bytes

    constructor ()
      ensures sent == []
    {
      sent := [];
    }

    method Write(buf: array<Byte>)
      modifies this
      ensures sent == old(sent) + buf[..]
    {
      sent := sent + buf[..];
    }
  }

  method WriteFrame(w: ByteWriter, ty: Byte, payload: Bytes) returns (ok: bool)
    modifies w
    ensures ok <==> |payload| <= 65534
    ensures w.sent == old(w.sent) + if ok then Encode(Frame(ty, payload)) else []
  {
    var contentLen := 1 + |payload|;
    if contentLen > MAX_FRAME_SIZE {
      return false;
    }
    var header := PutUint32(contentLen);
    var buf := new Byte[HEADER_SIZE + contentLen](_ => 0);
    buf[0], buf[1], buf[2], buf[3] := header[0], header[1], header[2], header[3];
    buf[4] := ty;
    forall i | 0 <= i < |payload| {
      buf[5 + i] := payload[i];
    }
    assert buf[..] == Encode(Frame(ty, payload));
    w.Write(buf);
    return true;
  }

  class ByteReader {
    var rest: Bytes

    constructor (bs: Bytes)
      ensures rest == bs
    {
      rest := bs;
    }

    // io.ReadFull into a buffer of n bytes.
    method ReadFull(n: nat) returns (data: Bytes, err: Option<ReadError>)
      modifies this
      ensures n <= |old(rest)| ==> err == None && data == old(rest)[..n] && rest == old(rest)[n..]
      ensures n > |old(rest)| ==> err == Some(if old(rest) == [] then Eof else UnexpectedEof) && rest == []
    {
      if n <= |rest| {
        data, err := rest[..n], None;
        rest := rest[n..];
      } else {
        data, err := rest, Some(if rest == [] then Eof else UnexpectedEof);
        rest := [];
      }
    }
  }

  method ReadFrame(r: ByteReader) returns (frame: Frame, err: Option<ReadError>)
    modifies r
    ensures match Decode(old(r.rest))
      case Got(f, rest) => err == None && frame == f && r.rest == rest
      case Failed(e, rest) => err == Some(e) && r.rest == rest
  {
    frame := Frame(0, []);
    var header;
    header, err := r.ReadFull(HEADER_SIZE);
    if err != None { return; }
    var contentLen := GetUint32(header);
    if contentLen == 0 || contentLen > MAX_FRAME_SIZE {
      err := Some(BadLength(contentLen));
      return;
    }
    var content;
    content, err := r.ReadFull(contentLen);
    if err != None { return; }
    frame := Frame(content[0], content[1..]);
  }

  // ---------------------------------------------------------------- one frame

  lemma DecodeAfterEncode(f: Frame, rest: Bytes)
    requires Fits(f.payload)
    ensures Decode(Encode(f) + rest) == Got(f, rest)
  {
    var n, bs := 1 + |f.payload|, Encode(f) + rest;
    Uint32RoundTrip(n, PutUint32(n));
    assert bs[..HEADER_SIZE] == PutUint32(n);
    assert bs[HEADER_SIZE..] == [f.ty] + f.payload + rest;
    assert bs[HEADER_SIZE..][n..] == rest;
  }

  // The other way round: a frame that was read is exactly the bytes it was read from.
  lemma EncodeAfterDecode(bs: Bytes)
    requires Decode(bs).Got?
    ensures Fits(Decode(bs).frame.payload) && bs == Encode(Decode(bs).frame) + Decode(bs).rest
  {
    Uint32RoundTrip(0, bs[..HEADER_SIZE]);
    var f, rest := Decode(bs).frame, Decode(bs).rest;
    var body := bs[HEADER_SIZE..];
    assert body == [f.ty] + f.payload + rest;
    assert bs == bs[..HEADER_SIZE] + body;
  }

  // The layout on the wire: four octets of length, the most significant first and
  // counting the type, then the type, then the payload.
  lemma Layout(f: Frame)
    requires Fits(f.payload)
    ensures
      var b := Encode(f);
      && |b| == 5 + |f.payload| && b[4] == f.ty && b[5..] == f.payload
      && b[0] as int * 16777216 + b[1] as int * 65536 + b[2] as int * 256 + b[3] == 1 + |f.payload| <= 65535
  {
    BigEndian(0, 1 + |f.payload|, 0, 0, 0, 0);
  }

  // A length is refused exactly when it is 0 or above 65535, whatever follows.
  lemma BadLengthExactly(bs: Bytes)
    requires |bs| >= 4
    ensures
      var n := bs[0] as int * 16777216 + bs[1] as int * 65536 + bs[2] as int * 256 + bs[3];
      && (Decode(bs).Failed? && Decode(bs).error.BadLength? <==> n == 0 || n > 65535)
      && (Decode(bs).Got? <==> 1 <= n <= 65535 && |bs| >= 4 + n)
  {
    BigEndian(0, 0, bs[0], bs[1], bs[2], bs[3]);
    assert bs[..HEADER_SIZE] == [bs[0], bs[1], bs[2], bs[3]];
  }

  // ---------------------------------------------------------------- streams of frames

  predicate AllFit(fs: seq<Frame>) {
    forall f <- fs :: Fits(f.payload)
  }

  function EncodeAll(fs: seq<Frame>): Bytes
    requires AllFit(fs)
  {
    if fs == [] then [] else Encode(fs[0]) + EncodeAll(fs[1..])
  }

  // Read frames until an error; every stream ends in one.
  function DecodeAll(bs: Bytes): (seq<Frame>, ReadError)
    decreases |bs|
  {
    match Decode(bs)
    case Failed(e, _) => ([], e)
    case Got(f, rest) => var (fs, e) := DecodeAll(rest); ([f] + fs, e)
  }

  lemma {:induction false} StreamRoundTrip(fs: seq<Frame>)
    requires AllFit(fs)
    ensures DecodeAll(EncodeAll(fs)) == (fs, Eof)
  {
    if fs != [] {
      DecodeAfterEncode(fs[0], EncodeAll(fs[1..]));
      StreamRoundTrip(fs[1..]);
      assert fs == [fs[0]] + fs[1..];
    }
  }

  // How many frames are complete within the first n bytes.
  function WholeFrames(fs: seq<Frame>, n: nat): (k: nat)
    requires AllFit(fs)
    ensures k <= |fs| && |EncodeAll(fs[..k])| <= n
    ensures k < |fs| ==> n < |EncodeAll(fs[..k])| + |Encode(fs[k])|
  {
    if fs == [] || n < |Encode(fs[0])| then 0
    else
      var m := WholeFrames(fs[1..], n - |Encode(fs[0])|);
      assert fs[..m + 1][1..] == fs[1..][..m] && fs[..m + 1][0] == fs[0];
      m + 1
  }

  // What is read of the first n bytes: the complete frames and then an error. It
  // is a plain Eof at a frame boundary, but also right behind a bare header.
  function CutResult(fs: seq<Frame>, n: nat): (seq<Frame>, ReadError)
    requires AllFit(fs)
  {
    var k := WholeFrames(fs, n);
    var left := n - |EncodeAll(fs[..k])|;
    (fs[..k], if left == 0 || left == HEADER_SIZE then Eof else UnexpectedEof)
  }

  lemma CutBehindFirst(fs: seq<Frame>, n: nat)
    requires AllFit(fs) && fs != [] && |Encode(fs[0])| <= n
    ensures
      var (tail, e) := CutResult(fs[1..], n - |Encode(fs[0])|);
      CutResult(fs, n) == ([fs[0]] + tail, e)
  {
    hide Encode;
    EncodeFirst(fs, WholeFrames(fs[1..], n - |Encode(fs[0])|));
  }

  lemma {:induction false} CutStream(fs: seq<Frame>, n: nat)
    requires AllFit(fs) && n <= |EncodeAll(fs)|
    ensures DecodeAll(EncodeAll(fs)[..n]) == CutResult(fs, n)
  {
    if fs != [] {
      hide Encode, Decode;
      var first, tail := Encode(fs[0]), EncodeAll(fs[1..]);
      if n < |first| {
        assert EncodeAll(fs)[..n] == first[..n];
        CutFrame(fs[0], n);
      } else {
        var m := n - |first|;
        CutStream(fs[1..], m);
        assert EncodeAll(fs)[..n] == first + tail[..m];
        DecodeFirst(fs[0], tail[..m]);
        CutBehindFirst(fs, n);
        hide CutResult, EncodeAll, DecodeAll;
      }
    }
  }

  lemma DecodeFirst(f: Frame, rest: Bytes)
    requires Fits(f.payload)
    ensures DecodeAll(Encode(f) + rest) == ([f] + DecodeAll(rest).0, DecodeAll(rest).1)
  {
    DecodeAfterEncode(f, rest);
  }

  lemma EncodeFirst(fs: seq<Frame>, k: nat)
    requires AllFit(fs) && k < |fs|
    ensures fs[..k + 1] == [fs[0]] + fs[1..][..k]
    ensures EncodeAll(fs[..k + 1]) == Encode(fs[0]) + EncodeAll(fs[1..][..k])
  {
    assert fs[..k + 1][1..] == fs[1..][..k];
  }

  lemma CutFrame(f: Frame, n: nat)
    requires Fits(f.payload) && n < |Encode(f)|
    ensures Decode(Encode(f)[..n]) == Failed(if n == 0 || n == HEADER_SIZE then Eof else UnexpectedEof, [])
  {
    var bs := Encode(f)[..n];
    Uint32RoundTrip(1 + |f.payload|, PutUint32(1 + |f.payload|));
    if n >= HEADER_SIZE {
      assert bs[..HEADER_SIZE] == PutUint32(1 + |f.payload|);
    }
  }

  // ---------------------------------------------------------------- proxy data

  // The payload of a proxy Data frame: the stream id, then the bytes of one read.
  function DataPayload(id: Uint32, data: Bytes): Bytes {
    PutUint32(id) + data
  }

  // The receiver skips a payload that is too short.
  function ParseData(payload: Bytes): Option<(Uint32, Bytes)> {
    if |payload| < 4 then None else Some((GetUint32(payload[..4]), payload[4..]))
  }

  // A Data frame built from one socket read is never refused and is parsed back.
  lemma DataFrameIsCarried(id: Uint32, data: Bytes, ty: Byte, rest: Bytes)
    requires |data| <= 32768
    ensures Fits(DataPayload(id, data))
    ensures
      var r := Decode(Encode(Frame(ty, DataPayload(id, data))) + rest);
      r.Got? && r.frame.ty == ty && ParseData(r.frame.payload) == Some((id, data))
  {
    Uint32RoundTrip(id, PutUint32(id));
    var p := DataPayload(id, data);
    assert p[..4] == PutUint32(id) && p[4..] == data;
    DecodeAfterEncode(Frame(ty, p), rest);
  }
}
