/** Bytes, big-endian numbers, and finding a delimiter. */
module WireBytes {
  import opened Wrappers

  type byte = b: int | 0 <= b < 256

  type Bytes = seq<byte>

  const U32: nat := 0x1_0000_0000
  const U64: nat := 0x1_0000_0000_0000_0000

  type uint32 = n: int | 0 <= n < U32

  function Pow256(width: nat): nat {
    if width == 0 then 1 else 256 * Pow256(width - 1)
  }

  function BigEndian(n: nat, width: nat): (bs: Bytes)
    ensures |bs| == width
  {
    if width == 0 then [] else BigEndian(n / 256, width - 1) + [n % 256]
  }

  function Value(bs: Bytes): nat {
    if bs == [] then 0 else 256 * Value(bs[..|bs| - 1]) + bs[|bs| - 1]
  }

  /** A number that fits is read back from its bytes. */
  lemma {:induction false} ValueOfBigEndian(n: nat, width: nat)
    requires n < Pow256(width)
    ensures Value(BigEndian(n, width)) == n
  {
    if width > 0 {
      ValueOfBigEndian(n / 256, width - 1);
      var bs := BigEndian(n, width);
      assert bs[..width - 1] == BigEndian(n / 256, width - 1);
    }
  }

  lemma {:induction false} ValueBound(bs: Bytes)
    ensures Value(bs) < Pow256(|bs|)
  {
    if bs != [] {
      ValueBound(bs[..|bs| - 1]);
    }
  }

  lemma Pow256Of4And8()
    ensures Pow256(4) == U32 && Pow256(8) == U64
  {
    assert Pow256(2) == 256 * 256;
    assert Pow256(4) == 256 * (256 * Pow256(2));
    assert Pow256(6) == 256 * (256 * Pow256(4));
    assert Pow256(8) == 256 * (256 * Pow256(6));
  }

  /** `binary.BigEndian.Uint32` */
  function Uint32(bs: Bytes): uint32
    requires |bs| == 4
  {
    ValueBound(bs);
    Pow256Of4And8();
    Value(bs)
  }

  lemma BigEndian4(n: uint32)
    ensures BigEndian(n, 4) == [n / 0x100_0000, n / 0x1_0000 % 256, n / 0x100 % 256, n % 256]
    ensures Value(BigEndian(n, 4)) == n
  {
    Pow256Of4And8();
    ValueOfBigEndian(n, 4);
    assert n / 256 / 256 == n / 0x1_0000 && n / 0x1_0000 / 256 == n / 0x100_0000;
    assert BigEndian(n / 0x1_0000, 2) == [n / 0x100_0000 % 256, n / 0x1_0000 % 256];
    assert BigEndian(n / 256, 3) == BigEndian(n / 0x1_0000, 2) + [n / 256 % 256];
    assert n / 0x100_0000 < 256;
  }

  /** Eight bytes read as a number, most significant first. */
  lemma ValueOfEight(bs: Bytes)
    requires |bs| == 8
    ensures Value(bs)
         == ((((((bs[0] as int * 256 + bs[1]) * 256 + bs[2]) * 256 + bs[3]) * 256 + bs[4]) * 256 + bs[5]) * 256 + bs[6]) * 256 + bs[7]
  {
    ValueOfFour(bs[..4]);
    ValueLast(bs, 4);
    ValueLast(bs, 5);
    ValueLast(bs, 6);
    ValueLast(bs, 7);
    assert bs[..8] == bs;
  }

  lemma ValueOfFour(bs: Bytes)
    requires |bs| == 4
    ensures Value(bs) == ((bs[0] as int * 256 + bs[1]) * 256 + bs[2]) * 256 + bs[3]
  {
    ValueLast(bs, 0);
    ValueLast(bs, 1);
    ValueLast(bs, 2);
    ValueLast(bs, 3);
    assert bs[..4] == bs;
  }

  lemma ValueLast(bs: Bytes, n: nat)
    requires n < |bs|
    ensures Value(bs[..n + 1]) == 256 * Value(bs[..n]) + bs[n]
  {
    assert bs[..n + 1][..n] == bs[..n];
  }

  /** The first place of a byte, or -1. */
  function IndexOf(bs: Bytes, b: byte): int {
    if bs == [] then -1
    else if bs[0] == b then 0
    else var i := IndexOf(bs[1..], b); if i < 0 then -1 else i + 1
  }

  lemma {:induction false} IndexOfFound(bs: Bytes, b: byte)
    ensures -1 <= IndexOf(bs, b) < |bs|
    ensures IndexOf(bs, b) < 0 <==> b !in bs
    ensures var i := IndexOf(bs, b); i >= 0 ==> bs[i] == b && b !in bs[..i]
  {
    if bs != [] && bs[0] != b {
      IndexOfFound(bs[1..], b);
      var i := IndexOf(bs[1..], b);
      if i < 0 {
        assert bs == [bs[0]] + bs[1..];
      } else {
        assert bs[i + 1] == bs[1..][i];
        assert bs[..i + 1] == [bs[0]] + bs[1..][..i];
      }
    }
  }

  lemma {:induction false} IndexOfIs(bs: Bytes, b: byte, i: nat)
    requires i < |bs| && bs[i] == b && b !in bs[..i]
    ensures IndexOf(bs, b) == i
  {
    IndexOfFound(bs, b);
  }

  /** `bytes.IndexByte` */
  method IndexByte(bs: Bytes, b: byte) returns (i: int)
    ensures i == IndexOf(bs, b)
  {
    i := 0;
    while i < |bs|
      invariant 0 <= i <= |bs| && b !in bs[..i]
    {
      if bs[i] == b {
        IndexOfIs(bs, b, i);
        return;
      }
      i := i + 1;
    }
    IndexOfFound(bs, b);
    assert bs[..i] == bs;
    i := -1;
  }

  /** Cut or filled up with zeros to `n` bytes: what `copy` makes of a slice of `n` zeros. */
  function Fit(bs: Bytes, n: nat): (r: Bytes)
    ensures |r| == n
  {
    if n <= |bs| then bs[..n] else bs + seq(n - |bs|, _ => 0)
  }

  lemma FitExactly(bs: Bytes)
    ensures Fit(bs, |bs|) == bs
  {
  }

  /** Adding in 32 bits is adding and wrapping once; nothing is lost if and only if the sum fits. */
  lemma WrapSum(a: nat, b: nat)
    ensures (a + b % U32) % U32 == (a + b) % U32
    ensures (a + b) % U32 == a + b <==> a + b < U32
  {
    assert a + b == a + b % U32 + U32 * (b / U32);
  }

  /** `copy(cur, src)` and then moving `cur` past it, which is out of range when `src` does not fit. */
  method Append(data: array<byte>, cur: nat, src: Bytes) returns (ok: bool, next: nat)
    requires cur <= data.Length
    modifies data
    ensures ok <==> cur + |src| <= data.Length
    ensures ok ==> next == cur + |src| && data[..next] == old(data[..cur]) + src
    ensures ok ==> forall j :: next <= j < data.Length ==> data[j] == old(data[j])
  {
    var i := 0;
    while i < |src| && cur + i < data.Length
      invariant i <= |src| && cur + i <= data.Length
      invariant data[..cur] == old(data[..cur]) && data[cur..cur + i] == src[..i]
      invariant forall j :: cur + i <= j < data.Length ==> data[j] == old(data[j])
    {
      data[cur + i] := src[i];
      i := i + 1;
    }
    ok, next := i == |src|, cur + i;
    assert data[..next] == data[..cur] + data[cur..next];
  }

  /** `binary.BigEndian.PutUint32` on the four bytes at `cur`, a slice that may be out of range. */
  method PutUint32(data: array<byte>, cur: nat, n: uint32) returns (ok: bool, next: nat)
    requires cur <= data.Length
    modifies data
    ensures ok <==> cur + 4 <= data.Length
    ensures ok ==> next == cur + 4 && data[..next] == old(data[..cur]) + BigEndian(n, 4)
    ensures ok ==> forall j :: next <= j < data.Length ==> data[j] == old(data[j])
  {
    if cur + 4 > data.Length {
      return false, cur;
    }
    BigEndian4(n);
    data[cur], data[cur + 1] := n / 0x100_0000, n / 0x1_0000 % 256;
    data[cur + 2], data[cur + 3] := n / 0x100 % 256, n % 256;
    ok, next := true, cur + 4;
    assert data[..next] == data[..cur] + data[cur..next];
  }

  /** `copy(cur, src)` into what is left of the buffer, which need not be as long as `src`. */
  method FillRest(data: array<byte>, cur: nat, src: Bytes)
    requires cur <= data.Length && forall j :: cur <= j < data.Length ==> data[j] == 0
    modifies data
    ensures data[..] == old(data[..cur]) + Fit(src, data.Length - cur)
  {
    var room := data.Length - cur;
    var _, next := Append(data, cur, if room <= |src| then src[..room] else src);
    assert data[..] == data[..next] + data[next..];
  }

  // ---- The fifteen bytes every message starts with ----

  datatype Head = Head(
    headLength: uint32, bodyLength: uint32, requestID: uint32, version: byte, compresser: byte, serializer: byte)

  const HEAD_SIZE := 15

  function HeadBytes(h: Head): (bs: Bytes)
    ensures |bs| == HEAD_SIZE
  {
    BigEndian(h.headLength, 4) + BigEndian(h.bodyLength, 4) + BigEndian(h.requestID, 4)
    + [h.version, h.compresser, h.serializer]
  }

  function HeadOf(bs: Bytes): Head
    requires |bs| >= HEAD_SIZE
  {
    Head(Uint32(bs[..4]), Uint32(bs[4..8]), Uint32(bs[8..12]), bs[12], bs[13], bs[14])
  }

  lemma HeadSlices(h: Head)
    ensures var bs := HeadBytes(h);
            bs[..4] == BigEndian(h.headLength, 4) && bs[4..8] == BigEndian(h.bodyLength, 4)
            && bs[8..12] == BigEndian(h.requestID, 4) && bs[12..] == [h.version, h.compresser, h.serializer]
  {
    SliceOfFour(BigEndian(h.headLength, 4), BigEndian(h.bodyLength, 4), BigEndian(h.requestID, 4),
                [h.version, h.compresser, h.serializer]);
  }

  lemma SliceOfFour(a: Bytes, b: Bytes, c: Bytes, d: Bytes)
    requires |a| == |b| == |c| == 4
    ensures var bs := a + b + c + d; bs[..4] == a && bs[4..8] == b && bs[8..12] == c && bs[12..] == d
  {
  }

  lemma HeadRoundTrip(h: Head, bs: Bytes)
    requires |bs| >= HEAD_SIZE && bs[..HEAD_SIZE] == HeadBytes(h)
    ensures HeadOf(bs) == h
  {
    BigEndian4(h.headLength);
    BigEndian4(h.bodyLength);
    BigEndian4(h.requestID);
    HeadSlices(h);
    var head := bs[..HEAD_SIZE];
    assert bs[..4] == head[..4];
    assert bs[4..8] == head[4..8];
    assert bs[8..12] == head[8..12];
    assert bs[12] == head[12..][0] && bs[13] == head[12..][1] && bs[14] == head[12..][2];
  }

  /** The four bytes at `i`, most significant first. */
  predicate BigEndianAt(bs: Bytes, i: nat, n: uint32) {
    i + 4 <= |bs| && n == 0x100_0000 * (bs[i] as int) + 0x1_0000 * (bs[i + 1] as int) + 0x100 * (bs[i + 2] as int) + bs[i + 3]
  }

  lemma HeadLayout(h: Head, bs: Bytes)
    requires |bs| >= HEAD_SIZE && bs[..HEAD_SIZE] == HeadBytes(h)
    ensures BigEndianAt(bs, 0, h.headLength) && BigEndianAt(bs, 4, h.bodyLength) && BigEndianAt(bs, 8, h.requestID)
    ensures bs[12] == h.version && bs[13] == h.compresser && bs[14] == h.serializer
  {
    HeadSlices(h);
    var head := bs[..HEAD_SIZE];
    FourBytes(h.headLength, bs, 0, head[..4]);
    FourBytes(h.bodyLength, bs, 4, head[4..8]);
    FourBytes(h.requestID, bs, 8, head[8..12]);
    assert bs[12] == head[12..][0] && bs[13] == head[12..][1] && bs[14] == head[12..][2];
  }

  lemma FourBytes(n: uint32, bs: Bytes, i: nat, part: Bytes)
    requires i + 4 <= |bs| && part == BigEndian(n, 4) && bs[i..i + 4] == part
    ensures BigEndianAt(bs, i, n)
  {
    BigEndian4(n);
    assert bs[i] == part[0] && bs[i + 1] == part[1] && bs[i + 2] == part[2] && bs[i + 3] == part[3];
  }

  method PutHead(data: array<byte>, h: Head) returns (ok: bool, cur: nat)
    modifies data
    ensures ok <==> HEAD_SIZE <= data.Length
    ensures ok ==> cur == HEAD_SIZE && data[..cur] == HeadBytes(h)
    ensures ok ==> forall j :: cur <= j < data.Length ==> data[j] == old(data[j])
  {
    ok, cur := PutUint32(data, 0, h.headLength);
    if !ok {
      return;
    }
    ok, cur := PutUint32(data, cur, h.bodyLength);
    if !ok {
      return;
    }
    ok, cur := PutUint32(data, cur, h.requestID);
    if !ok {
      return;
    }
    ok, cur := Append(data, cur, [h.version, h.compresser, h.serializer]);
  }
}
