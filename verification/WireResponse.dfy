/** Responses on the wire, and the length-prefixed frames every message travels in. */
module WireResponse {
  import opened Wrappers
  import opened WireBytes

  datatype Resp = Resp(
    headLength: uint32, bodyLength: uint32, requestID: uint32,
    version: byte, compresser: byte, serializer: byte, error: Option<Bytes>, data: Option<Bytes>)
  {
    function ErrorBytes(): Bytes {
      if error.Some? then error.value else []
    }

    function DataBytes(): Bytes {
      if data.Some? then data.value else []
    }
  }

  function HeadIn(r: Resp): Head {
    Head(r.headLength, r.bodyLength, r.requestID, r.version, r.compresser, r.serializer)
  }

  function Encoded(r: Resp): Bytes {
    HeadBytes(HeadIn(r)) + r.ErrorBytes() + r.DataBytes()
  }

  /** `None` where the code panics. */
  function Decoded(bs: Bytes): Option<Resp> {
    if |bs| < HEAD_SIZE then None else
    var h := HeadOf(bs);
    if h.headLength < HEAD_SIZE || h.headLength > |bs| then None
    else Some(Resp(h.headLength, h.bodyLength, h.requestID, h.version, h.compresser, h.serializer,
                   if h.headLength > HEAD_SIZE then Some(bs[HEAD_SIZE..h.headLength]) else None,
                   if h.bodyLength != 0 then Some(bs[h.headLength..]) else None))
  }

  /** Both lengths set as `SetHeadLength` and `SetBodyLength` set them. */
  ghost predicate LengthsSet(r: Resp) {
    r.headLength == HEAD_SIZE + |r.ErrorBytes()| && r.bodyLength == |r.DataBytes()|
  }

  /** The head length is the offset of the data. */
  ghost predicate DataStartsAtHead(r: Resp) {
    r.headLength <= |Encoded(r)| && Encoded(r)[r.headLength..] == r.DataBytes()
  }

  lemma DataStartIs(r: Resp)
    ensures DataStartsAtHead(r) <==> r.headLength == HEAD_SIZE + |r.ErrorBytes()|
  {
  }

  /** An empty slice comes back nil. */
  function Normal(r: Resp): Resp {
    r.(error := if r.ErrorBytes() == [] then None else r.error, data := if r.DataBytes() == [] then None else r.data)
  }

  /** Arbitrary error and data bytes come back; exactly the empty, non-nil ones come back as nil. */
  lemma DecodeEncode(r: Resp)
    requires LengthsSet(r)
    ensures Decoded(Encoded(r)) == Some(Normal(r))
    ensures Decoded(Encoded(r)) == Some(r) <==> r.error != Some([]) && r.data != Some([])
  {
    var bs := Encoded(r);
    assert bs[..HEAD_SIZE] == HeadBytes(HeadIn(r));
    HeadRoundTrip(HeadIn(r), bs);
    assert bs[HEAD_SIZE..r.headLength] == r.ErrorBytes();
    assert bs[r.headLength..] == r.DataBytes();
  }

  /** Where each field stands. */
  lemma Layout(r: Resp)
    ensures var bs := Encoded(r); var e := |r.ErrorBytes()|;
            && |bs| >= 15 + e
            && BigEndianAt(bs, 0, r.headLength) && BigEndianAt(bs, 4, r.bodyLength) && BigEndianAt(bs, 8, r.requestID)
            && bs[12] == r.version && bs[13] == r.compresser && bs[14] == r.serializer
            && bs[15..15 + e] == r.ErrorBytes() && bs[15 + e..] == r.DataBytes()
  {
    HeadLayout(HeadIn(r), Encoded(r));
  }

  class Response {
    var headLength: uint32
    var bodyLength: uint32
    var requestID: uint32
    var version: byte
    var compresser: byte
    var serializer: byte
    var error: Option<Bytes>
    var data: Option<Bytes>

    function View(): Resp
      reads this
    {
      Resp(headLength, bodyLength, requestID, version, compresser, serializer, error, data)
    }

    constructor (r: Resp)
      ensures View() == r
    {
      headLength, bodyLength, requestID := r.headLength, r.bodyLength, r.requestID;
      version, compresser, serializer := r.version, r.compresser, r.serializer;
      error, data := r.error, r.data;
    }

    /** The head length is where the data starts if and only if the sum does not wrap at 32 bits. */
    method SetHeadLength()
      modifies this`headLength
      ensures headLength == (HEAD_SIZE + |View().ErrorBytes()|) % U32
      ensures DataStartsAtHead(View()) <==> HEAD_SIZE + |View().ErrorBytes()| < U32
    {
      WrapSum(HEAD_SIZE, |View().ErrorBytes()|);
      headLength := (HEAD_SIZE + |View().ErrorBytes()| % U32) % U32;
      DataStartIs(View());
    }

    /** After the head length, both lengths are as encoding needs them if and only if the data fits 32 bits. */
    method SetBodyLength()
      modifies this`bodyLength
      ensures bodyLength == |View().DataBytes()| % U32
      ensures DataStartsAtHead(View()) ==> (LengthsSet(View()) <==> |View().DataBytes()| < U32)
    {
      WrapSum(0, |View().DataBytes()|);
      bodyLength := |View().DataBytes()| % U32;
      DataStartIs(View());
    }
  }

  /** Setting both lengths and encoding: what is sent decodes to the response whenever its size fits 32 bits. */
  method SetAndEncode(resp: Response) returns (data: array?<byte>)
    modifies resp
    ensures resp.View() == old(resp.View()).(headLength := resp.headLength, bodyLength := resp.bodyLength)
    ensures var r := resp.View();
            HEAD_SIZE + |r.ErrorBytes()| + |r.DataBytes()| < U32 ==>
              data != null && LengthsSet(r) && Decoded(data[..]) == Some(Normal(r))
  {
    resp.SetHeadLength();
    resp.SetBodyLength();
    data := EncodeResp(resp);
    if LengthsSet(resp.View()) {
      DecodeEncode(resp.View());
    }
  }

  lemma RightLengthsFit(r: Resp)
    ensures LengthsSet(r) && r.headLength + r.bodyLength < U32 ==>
              var n := (r.headLength + r.bodyLength) % U32; var e := r.ErrorBytes();
              n >= HEAD_SIZE + |e| && HeadBytes(HeadIn(r)) + e + Fit(r.DataBytes(), n - HEAD_SIZE - |e|) == Encoded(r)
  {
    FitExactly(r.DataBytes());
  }

  /**
    Each write fails where it is out of range; `null` is the panic, and it happens exactly when the buffer
    the length fields ask for is too short for head and error.  The data is cut or filled up.
   */
  method EncodeResp(resp: Response) returns (data: array?<byte>)
    ensures var r := resp.View(); var n := (resp.headLength + resp.bodyLength) % U32; var e := r.ErrorBytes();
            && (data == null <==> n < HEAD_SIZE + |e|)
            && (data != null ==>
                  fresh(data) && data[..] == HeadBytes(HeadIn(r)) + e + Fit(r.DataBytes(), n - HEAD_SIZE - |e|))
    ensures LengthsSet(resp.View()) && resp.headLength + resp.bodyLength < U32
            ==> data != null && data[..] == Encoded(resp.View())
  {
    var r := resp.View();
    var buffer := new byte[(resp.headLength + resp.bodyLength) % U32](_ => 0);
    var ok, cur := PutHead(buffer, HeadIn(r));
    if !ok {
      return null;
    }
    ok, cur := Append(buffer, cur, r.ErrorBytes());
    if !ok {
      return null;
    }
    assert buffer[..cur] == HeadBytes(HeadIn(r)) + r.ErrorBytes();
    FillRest(buffer, cur, r.DataBytes());
    RightLengthsFit(r);
    data := buffer;
  }

  /** `null` where the code panics. */
  method DecodeResp(bs: Bytes) returns (resp: Response?)
    ensures Decoded(bs).None? <==> resp == null
    ensures resp != null ==> fresh(resp) && Decoded(bs) == Some(resp.View())
  {
    if |bs| < HEAD_SIZE {
      return null;
    }
    var h := HeadOf(bs);
    if h.headLength < HEAD_SIZE || h.headLength > |bs| {
      return null;
    }
    resp := new Response(Resp(h.headLength, h.bodyLength, h.requestID, h.version, h.compresser, h.serializer, None, None));
    if h.headLength > HEAD_SIZE {
      resp.error := Some(bs[HEAD_SIZE..h.headLength]);
    }
    if h.bodyLength != 0 {
      resp.data := Some(bs[h.headLength..]);
    }
  }

  // ---- Frames ----

  const LENGTH_BYTES := 8

  function Frame(msg: Bytes): Bytes
    requires |msg| < U64
  {
    BigEndian(|msg|, LENGTH_BYTES) + msg
  }

  /** A frame starts with the length in eight bytes, most significant first. */
  lemma FrameLayout(msg: Bytes)
    requires |msg| < U64
    ensures |Frame(msg)| == 8 + |msg| && Frame(msg)[8..] == msg
    ensures var f := Frame(msg);
            |msg| == ((((((f[0] as int * 256 + f[1]) * 256 + f[2]) * 256 + f[3]) * 256 + f[4]) * 256 + f[5]) * 256 + f[6]) * 256 + f[7]
  {
    Pow256Of4And8();
    ValueOfBigEndian(|msg|, 8);
    ValueOfEight(BigEndian(|msg|, 8));
  }

  function Stream(msgs: seq<Bytes>): Bytes
    requires forall m :: m in msgs ==> |m| < U64
  {
    if msgs == [] then [] else Frame(msgs[0]) + Stream(msgs[1..])
  }

  /** One frame off the front of a stream; `None` when it is not all there. */
  function Unframe(stream: Bytes): Option<(Bytes, Bytes)> {
    if |stream| < LENGTH_BYTES then None else
    var n := Value(stream[..LENGTH_BYTES]);
    if |stream| < LENGTH_BYTES + n then None
    else Some((stream[LENGTH_BYTES..LENGTH_BYTES + n], stream[LENGTH_BYTES + n..]))
  }

  /** Every whole frame in a stream, in order, and what is left. */
  function Frames(stream: Bytes): (seq<Bytes>, Bytes)
    decreases |stream|
  {
    match Unframe(stream)
    case None => ([], stream)
    case Some((msg, rest)) =>
      var (msgs, left) := Frames(rest);
      ([msg] + msgs, left)
  }

  lemma UnframeFrame(msg: Bytes, rest: Bytes)
    requires |msg| < U64
    ensures Unframe(Frame(msg) + rest) == Some((msg, rest))
  {
    Pow256Of4And8();
    ValueOfBigEndian(|msg|, LENGTH_BYTES);
    var stream := Frame(msg) + rest;
    assert stream[..LENGTH_BYTES] == BigEndian(|msg|, LENGTH_BYTES);
    assert stream[LENGTH_BYTES..LENGTH_BYTES + |msg|] == msg;
    assert stream[LENGTH_BYTES + |msg|..] == rest;
  }

  /** Any list of messages sent back to back is read back as that list, also when the next one is still on its way. */
  lemma {:induction false} FramesOfStream(msgs: seq<Bytes>, tail: Bytes)
    requires (forall m :: m in msgs ==> |m| < U64) && Unframe(tail).None?
    ensures Frames(Stream(msgs) + tail) == (msgs, tail)
  {
    if msgs == [] {
      assert Stream(msgs) + tail == tail;
    } else {
      var rest := Stream(msgs[1..]) + tail;
      assert Stream(msgs) + tail == Frame(msgs[0]) + rest;
      UnframeFrame(msgs[0], rest);
      FramesOfStream(msgs[1..], tail);
      assert [msgs[0]] + msgs[1..] == msgs;
    }
  }

  /** So two lists with the same bytes are the same list. */
  lemma StreamIsInjective(a: seq<Bytes>, b: seq<Bytes>)
    requires (forall m :: m in a ==> |m| < U64) && (forall m :: m in b ==> |m| < U64) && Stream(a) == Stream(b)
    ensures a == b
  {
    FramesOfStream(a, []);
    FramesOfStream(b, []);
  }

  function EncodedAll(rs: seq<Resp>): (bss: seq<Bytes>)
    ensures |bss| == |rs|
  {
    seq(|rs|, i requires 0 <= i < |rs| => Encoded(rs[i]))
  }

  /** Responses framed one after another: splitting the stream and decoding each part gives every one of them back. */
  lemma ResponsesThroughStream(rs: seq<Resp>, i: nat)
    requires forall r :: r in rs ==> LengthsSet(r)
    requires i < |rs|
    ensures forall m :: m in EncodedAll(rs) ==> |m| < U64
    ensures var msgs := Frames(Stream(EncodedAll(rs))).0;
            |msgs| == |rs| && Decoded(msgs[i]) == Some(Normal(rs[i]))
  {
    forall m | m in EncodedAll(rs)
      ensures |m| < U64
    {
      var j :| 0 <= j < |rs| && EncodedAll(rs)[j] == m;
      assert LengthsSet(rs[j]);
    }
    FramesOfStream(EncodedAll(rs), []);
    assert Stream(EncodedAll(rs)) + [] == Stream(EncodedAll(rs));
    DecodeEncode(rs[i]);
  }

  method EncodeMsg(msg: Bytes) returns (data: array<byte>)
    requires |msg| < U64
    ensures fresh(data) && data[..] == Frame(msg)
  {
    data := new byte[|msg| + LENGTH_BYTES];
    var _, start := Append(data, 0, BigEndian(|msg|, LENGTH_BYTES));
    var _, cur := Append(data, start, msg);
    assert data[..cur] == data[..];
  }

  /** The reading end of a connection; `Read` fills its buffer or fails. */
  class Conn {
    var incoming: Bytes

    constructor (incoming: Bytes)
      ensures this.incoming == incoming
    {
      this.incoming := incoming;
    }

    method Read(n: nat) returns (ok: bool, bs: Bytes)
      modifies this
      ensures ok == (n <= |old(incoming)|)
      ensures ok ==> |bs| == n && old(incoming) == bs + incoming
      ensures !ok ==> incoming == old(incoming)
    {
      ok, bs := n <= |incoming|, [];
      if ok {
        bs, incoming := incoming[..n], incoming[n..];
      }
    }
  }

  method ReadMsg(conn: Conn) returns (ok: bool, msg: Bytes)
    modifies conn
    ensures ok == Unframe(old(conn.incoming)).Some?
    ensures ok ==> Unframe(old(conn.incoming)) == Some((msg, conn.incoming))
  {
    var lenData;
    msg := [];
    ok, lenData := conn.Read(LENGTH_BYTES);
    if !ok {
      return;
    }
    assert lenData == old(conn.incoming)[..LENGTH_BYTES];
    ok, msg := conn.Read(Value(lenData));
    if ok {
      ghost var stream := old(conn.incoming);
      assert stream == lenData + msg + conn.incoming;
      assert stream[LENGTH_BYTES..LENGTH_BYTES + |msg|] == msg && stream[LENGTH_BYTES + |msg|..] == conn.incoming;
    }
  }

  /** Reading until there is no whole frame left. */
  method ReadAll(conn: Conn) returns (msgs: seq<Bytes>)
    modifies conn
    ensures msgs == Frames(old(conn.incoming)).0
  {
    msgs := [];
    var ok, msg := true, [];
    while ok
      invariant ok ==> Frames(old(conn.incoming)).0 == msgs + Frames(conn.incoming).0
      invariant !ok ==> Frames(old(conn.incoming)).0 == msgs
      decreases ok, |conn.incoming|
    {
      ok, msg := ReadMsg(conn);
      if ok {
        msgs := msgs + [msg];
      }
    }
  }
}
