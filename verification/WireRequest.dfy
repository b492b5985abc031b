/** Requests on the wire: a fixed head, two names and the metadata with delimiters, then the data. */
module WireRequest {
  import opened Wrappers
  import opened WireBytes

  const SPLITTER: byte := 10
  const PAIR_SPLITTER: byte := 13

  type Meta = map<Bytes, Bytes>

  /** `None` is Go's nil, which a caller can tell from an empty map or slice. */
  datatype Req = Req(
    headLength: uint32, bodyLength: uint32, requestID: uint32,
    version: byte, compresser: byte, serializer: byte,
    serviceName: Bytes, methodName: Bytes, meta: Option<Meta>, data: Option<Bytes>)
  {
    function Pairs(): Meta {
      if meta.Some? then meta.value else map[]
    }

    function Payload(): Bytes {
      if data.Some? then data.value else []
    }
  }

  // ---- Lengths ----

  function PairLength(m: Meta, k: Bytes): nat
    requires k in m
  {
    |k| + 1 + |m[k]| + 1
  }

  function MetaLength(m: Meta, order: seq<Bytes>): nat
    requires forall k :: k in order ==> k in m
  {
    if order == [] then 0 else PairLength(m, order[0]) + MetaLength(m, order[1..])
  }

  lemma {:induction false} MetaLengthWithout(m: Meta, order: seq<Bytes>, i: nat)
    requires (forall k :: k in order ==> k in m) && i < |order|
    ensures forall k :: k in order[..i] + order[i + 1..] ==> k in m
    ensures MetaLength(m, order) == PairLength(m, order[i]) + MetaLength(m, order[..i] + order[i + 1..])
  {
    if i == 0 {
      assert order[..0] + order[1..] == order[1..];
    } else {
      MetaLengthWithout(m, order[1..], i - 1);
      assert order[1..][i - 1] == order[i];
      assert (order[..i] + order[i + 1..])[1..] == order[1..][..i - 1] + order[1..][i..];
    }
  }

  lemma MetaLengthFirst(m: Meta, order: seq<Bytes>, i: nat)
    requires (forall k :: k in order ==> k in m) && i < |order|
    ensures forall k :: k in order[i..] || k in order[i + 1..] ==> k in m
    ensures MetaLength(m, order[i..]) == PairLength(m, order[i]) + MetaLength(m, order[i + 1..])
  {
    assert order[i..][1..] == order[i + 1..];
  }

  ghost predicate SameKeys(a: seq<Bytes>, b: seq<Bytes>) {
    Distinct(a) && Distinct(b) && forall k :: k in a <==> k in b
  }

  /** The order a map is visited in does not change the length. */
  lemma {:induction false} MetaLengthAnyOrder(m: Meta, a: seq<Bytes>, b: seq<Bytes>)
    requires SameKeys(a, b) && forall k :: k in a ==> k in m
    ensures MetaLength(m, a) == MetaLength(m, b)
  {
    if a == [] {
      assert forall k :: k !in b;
    } else {
      assert a[0] in b;
      var i :| 0 <= i < |b| && b[i] == a[0];
      MetaLengthWithout(m, b, i);
      var b' := b[..i] + b[i + 1..];
      SameKeysWithout(a, b, i);
      MetaLengthAnyOrder(m, a[1..], b');
    }
  }

  lemma SameKeysWithout(a: seq<Bytes>, b: seq<Bytes>, i: nat)
    requires SameKeys(a, b) && a != [] && i < |b| && b[i] == a[0]
    ensures SameKeys(a[1..], b[..i] + b[i + 1..])
  {
    var b' := b[..i] + b[i + 1..];
    forall k | k in a[1..]
      ensures k in b'
    {
      assert k in a && k in b;
      var j :| 0 <= j < |b| && b[j] == k;
      assert j < i ==> b'[j] == k;
      assert j > i ==> b'[j - 1] == k;
    }
    forall k | k in b'
      ensures k in a[1..]
    {
      var j :| 0 <= j < |b'| && b'[j] == k;
      assert k == if j < i then b[j] else b[j + 1];
      assert k in b && k != b[i];
      assert k in a;
    }
  }

  function HeadSize(r: Req, order: seq<Bytes>): nat
    requires forall k :: k in order ==> k in r.Pairs()
  {
    HEAD_SIZE + |r.serviceName| + 1 + |r.methodName| + 1 + MetaLength(r.Pairs(), order)
  }

  // ---- Encoding ----

  function MetaBytes(m: Meta, order: seq<Bytes>): Bytes
    requires forall k :: k in order ==> k in m
  {
    if order == [] then []
    else order[0] + [PAIR_SPLITTER] + m[order[0]] + [SPLITTER] + MetaBytes(m, order[1..])
  }

  lemma {:induction false} MetaBytesLength(m: Meta, order: seq<Bytes>)
    requires forall k :: k in order ==> k in m
    ensures |MetaBytes(m, order)| == MetaLength(m, order)
  {
    if order != [] {
      MetaBytesLength(m, order[1..]);
    }
  }

  lemma {:induction false} MetaBytesLast(m: Meta, order: seq<Bytes>, n: nat)
    requires (forall k :: k in order ==> k in m) && n < |order|
    ensures forall k :: k in order[..n] || k in order[..n + 1] ==> k in m
    ensures MetaBytes(m, order[..n + 1])
         == MetaBytes(m, order[..n]) + order[n] + [PAIR_SPLITTER] + m[order[n]] + [SPLITTER]
  {
    if n == 0 {
      assert order[..1][1..] == [];
    } else {
      MetaBytesLast(m, order[1..], n - 1);
      assert order[..n + 1][1..] == order[1..][..n] && order[..n][1..] == order[1..][..n - 1];
    }
  }

  function HeadIn(r: Req): Head {
    Head(r.headLength, r.bodyLength, r.requestID, r.version, r.compresser, r.serializer)
  }

  function Names(r: Req): Bytes {
    r.serviceName + [SPLITTER] + r.methodName + [SPLITTER]
  }

  /** Everything before the data. */
  function Laid(r: Req, order: seq<Bytes>): Bytes
    requires forall k :: k in order ==> k in r.Pairs()
  {
    HeadBytes(HeadIn(r)) + Names(r) + MetaBytes(r.Pairs(), order)
  }

  function Encoded(r: Req, order: seq<Bytes>): Bytes
    requires forall k :: k in order ==> k in r.Pairs()
  {
    Laid(r, order) + r.Payload()
  }

  // ---- Decoding; `None` where the code runs out of bounds and panics ----

  function ParseMeta(bs: Bytes, m: Meta): Option<Meta>
    decreases |bs|
  {
    IndexOfFound(bs, SPLITTER);
    IndexOfFound(bs, PAIR_SPLITTER);
    var i, p := IndexOf(bs, SPLITTER), IndexOf(bs, PAIR_SPLITTER);
    if i < 0 then Some(m)
    else if p < 0 || p > i then None
    else ParseMeta(bs[i + 1..], m[bs[..p] := bs[p + 1..i]])
  }

  /** The text before the first splitter and what follows it. */
  function Cut(bs: Bytes): Option<(Bytes, Bytes)> {
    IndexOfFound(bs, SPLITTER);
    var i := IndexOf(bs, SPLITTER);
    if i < 0 then None else Some((bs[..i], bs[i + 1..]))
  }

  function Decoded(bs: Bytes): Option<Req> {
    if |bs| < HEAD_SIZE then None else
    var h := HeadOf(bs);
    if h.headLength < HEAD_SIZE || h.headLength > |bs| then None else
    match Cut(bs[HEAD_SIZE..h.headLength])
    case None => None
    case Some((serviceName, tail)) =>
      match Cut(tail)
      case None => None
      case Some((methodName, pairs)) =>
        match (if pairs == [] then Some(None) else MetaOf(pairs))
        case None => None
        case Some(meta) =>
          Some(Req(h.headLength, h.bodyLength, h.requestID, h.version, h.compresser, h.serializer,
                   serviceName, methodName, meta, Some(bs[h.headLength..])))
  }

  function MetaOf(bs: Bytes): Option<Option<Meta>> {
    match ParseMeta(bs, map[])
    case None => None
    case Some(m) => Some(Some(m))
  }

  // ---- The round trip ----

  /** What the format can carry: no splitter where the decoder looks for one. */
  ghost predicate Delimited(r: Req) {
    && SPLITTER !in r.serviceName && SPLITTER !in r.methodName
    && (forall k :: k in r.Pairs() ==> SPLITTER !in k && PAIR_SPLITTER !in k && SPLITTER !in r.Pairs()[k])
  }

  /** Both length fields set as `SetHeadLength` and the callers set them. */
  ghost predicate LengthsSet(r: Req, order: seq<Bytes>) {
    Enumerates(order, r.Pairs()) && r.headLength == HeadSize(r, order) && r.bodyLength == |r.Payload()|
  }

  /** What decoding makes of nil and empty: metadata that is empty comes back nil, data never does. */
  function Normal(r: Req): Req {
    r.(meta := if r.Pairs() == map[] then None else Some(r.Pairs()), data := Some(r.Payload()))
  }

  lemma CutAt(text: Bytes, rest: Bytes)
    requires SPLITTER !in text
    ensures Cut(text + [SPLITTER] + rest) == Some((text, rest))
  {
    var bs := text + [SPLITTER] + rest;
    assert bs[..|text|] == text;
    IndexOfIs(bs, SPLITTER, |text|);
    assert bs[|text| + 1..] == rest;
  }

  lemma ParseOnePair(k: Bytes, v: Bytes, rest: Bytes, m: Meta)
    requires SPLITTER !in k && PAIR_SPLITTER !in k && SPLITTER !in v
    ensures ParseMeta(k + [PAIR_SPLITTER] + v + [SPLITTER] + rest, m) == ParseMeta(rest, m[k := v])
  {
    var bs := k + [PAIR_SPLITTER] + v + [SPLITTER] + rest;
    var i := |k| + 1 + |v|;
    assert bs[..i] == k + [PAIR_SPLITTER] + v;
    assert bs[..|k|] == k && bs[|k| + 1..i] == v && bs[i + 1..] == rest;
    IndexOfIs(bs, SPLITTER, i);
    IndexOfIs(bs, PAIR_SPLITTER, |k|);
  }

  /** The entries of `m` for the given keys. */
  function Entries(m: Meta, order: seq<Bytes>): Meta
    requires forall k :: k in order ==> k in m
  {
    map k | k in order :: m[k]
  }

  lemma {:induction false} MetaRoundTrip(m: Meta, order: seq<Bytes>, acc: Meta)
    requires forall k :: k in order ==> k in m && SPLITTER !in k && PAIR_SPLITTER !in k && SPLITTER !in m[k]
    ensures ParseMeta(MetaBytes(m, order), acc) == Some(acc + Entries(m, order))
  {
    if order == [] {
      assert acc + Entries(m, order) == acc;
    } else {
      var k, rest := order[0], order[1..];
      assert forall q :: q in rest ==> q in order;
      assert MetaBytes(m, order) == k + [PAIR_SPLITTER] + m[k] + [SPLITTER] + MetaBytes(m, rest);
      ParseOnePair(k, m[k], MetaBytes(m, rest), acc);
      MetaRoundTrip(m, rest, acc[k := m[k]]);
      EntriesFromFirst(m, order, acc);
    }
  }

  lemma EntriesFromFirst(m: Meta, order: seq<Bytes>, acc: Meta)
    requires order != [] && forall k :: k in order ==> k in m
    ensures (forall k :: k in order[1..] ==> k in m)
    ensures acc[order[0] := m[order[0]]] + Entries(m, order[1..]) == acc + Entries(m, order)
  {
    assert order == [order[0]] + order[1..];
  }

  /** `SetHeadLength` is exactly where the data starts, whatever order either loop took. */
  lemma HeadEndsWhereDataStarts(r: Req, order: seq<Bytes>)
    requires Enumerates(order, r.Pairs())
    ensures |Encoded(r, order)| == HeadSize(r, order) + |r.Payload()|
    ensures Encoded(r, order)[HeadSize(r, order)..] == r.Payload()
    ensures Encoded(r, order)[HEAD_SIZE..HeadSize(r, order)] == Names(r) + MetaBytes(r.Pairs(), order)
    ensures Encoded(r, order)[..HEAD_SIZE] == HeadBytes(HeadIn(r))
  {
    MetaBytesLength(r.Pairs(), order);
  }

  lemma CutNames(r: Req, rest: Bytes)
    requires SPLITTER !in r.serviceName && SPLITTER !in r.methodName
    ensures var tail := r.methodName + [SPLITTER] + rest;
            Cut(Names(r) + rest) == Some((r.serviceName, tail)) && Cut(tail) == Some((r.methodName, rest))
  {
    var tail := r.methodName + [SPLITTER] + rest;
    assert Names(r) + rest == r.serviceName + [SPLITTER] + tail;
    CutAt(r.serviceName, tail);
    CutAt(r.methodName, rest);
  }

  lemma MetaComesBack(r: Req, order: seq<Bytes>)
    requires Enumerates(order, r.Pairs()) && Delimited(r)
    ensures var pairs := MetaBytes(r.Pairs(), order);
            (if pairs == [] then Some(None) else MetaOf(pairs)) == Some(Normal(r).meta)
  {
    var m := r.Pairs();
    MetaRoundTrip(m, order, map[]);
    assert map[] + Entries(m, order) == m;
    EmptyMeta(m, order);
  }

  lemma EmptyMeta(m: Meta, order: seq<Bytes>)
    requires Enumerates(order, m)
    ensures MetaBytes(m, order) == [] <==> m == map[]
  {
    if order == [] {
      assert forall k :: k !in m;
      assert m == map[];
    } else {
      assert order[0] in m;
      MetaBytesLength(m, order);
    }
  }

  /** Every delimited request comes back, for every order its metadata was written in, up to nil and empty. */
  lemma DecodeEncode(r: Req, order: seq<Bytes>)
    requires LengthsSet(r, order) && Delimited(r)
    ensures Decoded(Encoded(r, order)) == Some(Normal(r))
  {
    HeadEndsWhereDataStarts(r, order);
    HeadRoundTrip(HeadIn(r), Encoded(r, order));
    CutNames(r, MetaBytes(r.Pairs(), order));
    MetaComesBack(r, order);
  }

  /** What comes out of the decoder is always delimited. */
  lemma DecodedIsDelimited(bs: Bytes)
    requires Decoded(bs).Some?
    ensures Delimited(Decoded(bs).value) && Decoded(bs).value.data.Some?
  {
    var tail := Cut(bs[HEAD_SIZE..HeadOf(bs).headLength]).value.1;
    IndexOfFound(bs[HEAD_SIZE..HeadOf(bs).headLength], SPLITTER);
    IndexOfFound(tail, SPLITTER);
    var pairs := Cut(tail).value.1;
    if pairs != [] {
      ParsedIsDelimited(pairs, map[]);
    }
  }

  ghost predicate DelimitedMeta(m: Meta) {
    forall k :: k in m ==> SPLITTER !in k && PAIR_SPLITTER !in k && SPLITTER !in m[k]
  }

  lemma PairIsDelimited(bs: Bytes, p: nat, i: nat)
    requires p < i < |bs| && SPLITTER !in bs[..i]
    ensures SPLITTER !in bs[..p] && SPLITTER !in bs[p + 1..i]
  {
    assert bs[..i] == bs[..p] + [bs[p]] + bs[p + 1..i];
  }

  lemma {:induction false} ParsedIsDelimited(bs: Bytes, acc: Meta)
    requires DelimitedMeta(acc) && ParseMeta(bs, acc).Some?
    ensures DelimitedMeta(ParseMeta(bs, acc).value)
    decreases |bs|
  {
    IndexOfFound(bs, SPLITTER);
    IndexOfFound(bs, PAIR_SPLITTER);
    var i, p := IndexOf(bs, SPLITTER), IndexOf(bs, PAIR_SPLITTER);
    if i >= 0 {
      PairIsDelimited(bs, p, i);
      ParsedIsDelimited(bs[i + 1..], acc[bs[..p] := bs[p + 1..i]]);
    }
  }

  /**
    Exactly which requests come back unchanged: those whose names, keys and values keep clear of the
    splitters, whose metadata is nil or not empty, and whose data is not nil.
   */
  lemma RoundTripIff(r: Req, order: seq<Bytes>)
    requires LengthsSet(r, order)
    ensures Decoded(Encoded(r, order)) == Some(r) <==> Delimited(r) && r.meta != Some(map[]) && r.data.Some?
  {
    if Delimited(r) {
      DecodeEncode(r, order);
    } else if Decoded(Encoded(r, order)) == Some(r) {
      DecodedIsDelimited(Encoded(r, order));
    }
  }

  // ---- The layout, byte by byte ----

  /** Where each field stands. */
  lemma Layout(r: Req, order: seq<Bytes>)
    requires Enumerates(order, r.Pairs())
    ensures var bs := Encoded(r, order); var a, b := |r.serviceName|, |r.methodName|;
            && |bs| >= 17 + a + b
            && BigEndianAt(bs, 0, r.headLength) && BigEndianAt(bs, 4, r.bodyLength) && BigEndianAt(bs, 8, r.requestID)
            && bs[12] == r.version && bs[13] == r.compresser && bs[14] == r.serializer
            && bs[15..15 + a] == r.serviceName && bs[15 + a] == 10
            && bs[16 + a..16 + a + b] == r.methodName && bs[16 + a + b] == 10
            && bs[17 + a + b..] == MetaBytes(r.Pairs(), order) + r.Payload()
  {
    var bs, rest := Encoded(r, order), MetaBytes(r.Pairs(), order) + r.Payload();
    NamesLayout(HeadBytes(HeadIn(r)), r.serviceName, r.methodName, rest);
    assert bs == HeadBytes(HeadIn(r)) + (r.serviceName + [10] + r.methodName + [10]) + rest;
    HeadLayout(HeadIn(r), bs);
  }

  lemma NamesLayout(head: Bytes, service: Bytes, name: Bytes, rest: Bytes)
    requires |head| == 15
    ensures var bs := head + (service + [10] + name + [10]) + rest; var a, b := |service|, |name|;
            && |bs| >= 17 + a + b && bs[..15] == head && bs[15..15 + a] == service && bs[15 + a] == 10
            && bs[16 + a..16 + a + b] == name && bs[16 + a + b] == 10 && bs[17 + a + b..] == rest
  {
  }

  /** Each pair of the metadata: key, carriage return, value, line feed. */
  lemma PairLayout(m: Meta, order: seq<Bytes>)
    requires order != [] && forall k :: k in order ==> k in m
    ensures MetaBytes(m, order) == order[0] + [13] + m[order[0]] + [10] + MetaBytes(m, order[1..])
  {
  }

  // ---- The code ----

  class Request {
    var headLength: uint32
    var bodyLength: uint32
    var requestID: uint32
    var version: byte
    var compresser: byte
    var serializer: byte
    var serviceName: Bytes
    var methodName: Bytes
    var meta: Option<Meta>
    var data: Option<Bytes>

    function View(): Req
      reads this
    {
      Req(headLength, bodyLength, requestID, version, compresser, serializer, serviceName, methodName, meta, data)
    }

    constructor (r: Req)
      ensures View() == r
    {
      headLength, bodyLength, requestID := r.headLength, r.bodyLength, r.requestID;
      version, compresser, serializer := r.version, r.compresser, r.serializer;
      serviceName, methodName, meta, data := r.serviceName, r.methodName, r.meta, r.data;
    }

    /** `visited` is the order its loop visits the metadata in; the field does not depend on it. */
    method SetHeadLength(visited: seq<Bytes>, ghost order: seq<Bytes>)
      requires Enumerates(visited, View().Pairs()) && Enumerates(order, View().Pairs())
      modifies this`headLength
      ensures headLength == HeadSize(View(), order) % U32
    {
      var res := HEAD_SIZE;
      res := res + |serviceName|;
      res := res + 1;
      res := res + |methodName|;
      res := res + 1;
      var m := View().Pairs();
      var i := 0;
      assert visited[..0] == [];
      while i < |visited|
        invariant i <= |visited| && forall k :: k in visited[..i] ==> k in m
        invariant res == HEAD_SIZE + |serviceName| + 1 + |methodName| + 1 + MetaLength(m, visited[..i])
      {
        var key := visited[i];
        assert key in m;
        res := res + |key|;
        res := res + 1;
        res := res + |m[key]|;
        res := res + 1;
        MetaLengthWithout(m, visited[..i + 1], i);
        assert visited[..i + 1][..i] + visited[..i + 1][i + 1..] == visited[..i];
        i := i + 1;
      }
      assert visited[..i] == visited;
      assert SameKeys(visited, order);
      MetaLengthAnyOrder(m, visited, order);
      headLength := res % U32;
    }
  }

  /**
    The buffer is as long as the two length fields say, modulo 32 bits.  Each write fails where it is out
    of range; `null` is the panic, and it happens exactly when the buffer is too short for what stands
    before the data.  The data is cut or filled up to what is left.
   */
  method EncodeReq(req: Request, order: seq<Bytes>) returns (data: array?<byte>)
    requires Enumerates(order, req.View().Pairs())
    ensures var r := req.View(); var n := (req.headLength + req.bodyLength) % U32;
            && (data == null <==> n < HeadSize(r, order))
            && (data != null ==> fresh(data) && data[..] == Laid(r, order) + Fit(r.Payload(), n - HeadSize(r, order)))
    ensures LengthsSet(req.View(), order) && req.headLength + req.bodyLength < U32
            ==> data != null && data[..] == Encoded(req.View(), order)
  {
    var r, n := req.View(), (req.headLength + req.bodyLength) % U32;
    var buffer := new byte[n](_ => 0);
    var ok, cur := AppendLaid(buffer, r, order);
    if !ok {
      return null;
    }
    FillRest(buffer, cur, r.Payload());
    RightLengthsFit(r, order);
    data := buffer;
  }

  lemma RightLengthsFit(r: Req, order: seq<Bytes>)
    requires Enumerates(order, r.Pairs())
    ensures LengthsSet(r, order) && r.headLength + r.bodyLength < U32 ==>
              var n := (r.headLength + r.bodyLength) % U32;
              n >= HeadSize(r, order) && Laid(r, order) + Fit(r.Payload(), n - HeadSize(r, order)) == Encoded(r, order)
  {
    FitExactly(r.Payload());
  }

  method AppendLaid(data: array<byte>, r: Req, order: seq<Bytes>) returns (ok: bool, cur: nat)
    requires Enumerates(order, r.Pairs())
    modifies data
    ensures ok <==> HeadSize(r, order) <= data.Length
    ensures ok ==> cur == HeadSize(r, order) && data[..cur] == Laid(r, order)
    ensures ok ==> forall j :: cur <= j < data.Length ==> data[j] == old(data[j])
  {
    ok, cur := PutHead(data, HeadIn(r));
    if !ok {
      return;
    }
    ok, cur := AppendNames(data, cur, r);
    if !ok {
      return;
    }
    ok, cur := AppendMeta(data, cur, r.Pairs(), order);
  }

  method AppendNames(data: array<byte>, start: nat, r: Req) returns (ok: bool, cur: nat)
    requires start <= data.Length
    modifies data
    ensures ok <==> start + |Names(r)| <= data.Length
    ensures ok ==> cur == start + |Names(r)| && data[..cur] == old(data[..start]) + Names(r)
    ensures ok ==> forall j :: cur <= j < data.Length ==> data[j] == old(data[j])
  {
    ok, cur := AppendField(data, start, r.serviceName, SPLITTER);
    if ok {
      ok, cur := AppendField(data, cur, r.methodName, SPLITTER);
    }
  }

  /** A text and the byte that ends it. */
  method AppendField(data: array<byte>, start: nat, text: Bytes, end: byte) returns (ok: bool, cur: nat)
    requires start <= data.Length
    modifies data
    ensures ok <==> start + |text| + 1 <= data.Length
    ensures ok ==> cur == start + |text| + 1 && data[..cur] == old(data[..start]) + text + [end]
    ensures ok ==> forall j :: cur <= j < data.Length ==> data[j] == old(data[j])
  {
    ok, cur := Append(data, start, text);
    if ok {
      ok, cur := Append(data, cur, [end]);
    }
  }

  /** The metadata loop: each key, each value, each with its splitter. */
  method AppendMeta(data: array<byte>, start: nat, m: Meta, order: seq<Bytes>) returns (ok: bool, cur: nat)
    requires (forall k :: k in order ==> k in m) && start <= data.Length
    modifies data
    ensures ok <==> start + MetaLength(m, order) <= data.Length
    ensures ok ==> cur == start + MetaLength(m, order) && data[..cur] == old(data[..start]) + MetaBytes(m, order)
    ensures ok ==> forall j :: cur <= j < data.Length ==> data[j] == old(data[j])
  {
    ok, cur := true, start;
    var i := 0;
    while i < |order|
      invariant ok && i <= |order| && start <= cur <= data.Length
      invariant cur + MetaLength(m, order[i..]) == start + MetaLength(m, order)
      invariant forall k :: k in order[..i] || k in order[i..] ==> k in m
      invariant data[..cur] == old(data[..start]) + MetaBytes(m, order[..i])
      invariant forall j :: cur <= j < data.Length ==> data[j] == old(data[j])
    {
      var key := order[i];
      var val := m[key];
      MetaLengthFirst(m, order, i);
      MetaText(old(data[..start]), m, order, i);
      ok, cur := AppendPair(data, cur, key, val);
      if !ok {
        return;
      }
      i := i + 1;
    }
    assert order[..i] == order;
  }

  lemma MetaText(start: Bytes, m: Meta, order: seq<Bytes>, i: nat)
    requires (forall k :: k in order ==> k in m) && i < |order|
    ensures forall k :: k in order[..i] || k in order[..i + 1] ==> k in m
    ensures start + MetaBytes(m, order[..i]) + order[i] + [PAIR_SPLITTER] + m[order[i]] + [SPLITTER]
         == start + MetaBytes(m, order[..i + 1])
  {
    MetaBytesLast(m, order, i);
    PairText(start, MetaBytes(m, order[..i]), order[i], m[order[i]]);
  }

  lemma PairText(start: Bytes, done: Bytes, key: Bytes, val: Bytes)
    ensures start + done + key + [PAIR_SPLITTER] + val + [SPLITTER]
         == start + (done + key + [PAIR_SPLITTER] + val + [SPLITTER])
  {
  }

  method AppendPair(data: array<byte>, start: nat, key: Bytes, val: Bytes) returns (ok: bool, cur: nat)
    requires start <= data.Length
    modifies data
    ensures ok <==> start + |key| + 1 + |val| + 1 <= data.Length
    ensures ok ==> cur == start + |key| + 1 + |val| + 1
    ensures ok ==> data[..cur] == old(data[..start]) + key + [PAIR_SPLITTER] + val + [SPLITTER]
    ensures ok ==> forall j :: cur <= j < data.Length ==> data[j] == old(data[j])
  {
    ok, cur := AppendField(data, start, key, PAIR_SPLITTER);
    if ok {
      ok, cur := AppendField(data, cur, val, SPLITTER);
    }
  }

  /** `null` where the code panics. */
  method DecodeReq(bs: Bytes) returns (req: Request?)
    ensures Decoded(bs).None? <==> req == null
    ensures req != null ==> fresh(req) && Decoded(bs) == Some(req.View())
  {
    if |bs| < HEAD_SIZE {
      return null;
    }
    var h := HeadOf(bs);
    if h.headLength < HEAD_SIZE || h.headLength > |bs| {
      return null;
    }
    var service := CutName(bs[HEAD_SIZE..h.headLength]);
    if service.None? {
      return null;
    }
    var name := CutName(service.value.1);
    if name.None? {
      return null;
    }
    var meta := None;
    if |name.value.1| > 0 {
      var parsed := DecodeMeta(name.value.1);
      if parsed.None? {
        return null;
      }
      meta := Some(parsed.value);
    }
    req := new Request(Req(h.headLength, h.bodyLength, h.requestID, h.version, h.compresser, h.serializer,
                           service.value.0, name.value.0, meta, Some(bs[h.headLength..])));
  }

  /** Everything up to the next splitter, and what is left of `tmp` after it. */
  method CutName(tmp: Bytes) returns (cut: Option<(Bytes, Bytes)>)
    ensures cut == Cut(tmp)
  {
    IndexOfFound(tmp, SPLITTER);
    var index := IndexByte(tmp, SPLITTER);
    if index < 0 {
      return None;
    }
    cut := Some((tmp[..index], tmp[index + 1..]));
  }

  method DecodeMeta(bs: Bytes) returns (parsed: Option<Meta>)
    ensures parsed == ParseMeta(bs, map[])
  {
    var tmp, metaMap := bs, map[];
    IndexOfFound(tmp, SPLITTER);
    var index := IndexByte(tmp, SPLITTER);
    while index != -1
      invariant index == IndexOf(tmp, SPLITTER) && -1 <= index < |tmp|
      invariant ParseMeta(bs, map[]) == ParseMeta(tmp, metaMap)
      decreases |tmp|
    {
      IndexOfFound(tmp, SPLITTER);
      IndexOfFound(tmp, PAIR_SPLITTER);
      var pairIndex := IndexByte(tmp, PAIR_SPLITTER);
      assert pairIndex >= 0 ==> tmp[pairIndex] != tmp[index];
      if pairIndex == -1 || pairIndex + 1 > index {
        return None;
      }
      metaMap := metaMap[tmp[..pairIndex] := tmp[pairIndex + 1..index]];
      tmp := tmp[index + 1..];
      IndexOfFound(tmp, SPLITTER);
      index := IndexByte(tmp, SPLITTER);
    }
    parsed := Some(metaMap);
  }
}
