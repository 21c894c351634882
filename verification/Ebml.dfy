/** EBML elements as the Matroska writer emits them, and a reader for them (RFC 8794, sections 4 to 7). */
module Ebml {
  import opened Chunks

  function Pow(n: nat): (p: nat)
    ensures p > 0
  {
    if n == 0 then 1 else 256 * Pow(n - 1)
  }

  /** The low n bytes of v, most significant first. */
  function BigEndian(v: nat, n: nat): (b: Bytes)
    ensures |b| == n
  {
    if n == 0 then [] else [v / Pow(n - 1) % 256] + BigEndian(v % Pow(n - 1), n - 1)
  }

  function FromBytes(b: Bytes): nat {
    if b == [] then 0 else b[0] * Pow(|b| - 1) + FromBytes(b[1..])
  }

  lemma SmallQuotient(v: nat, p: nat)
    requires p > 0 && v < 256 * p
    ensures v / p < 256 && v / p % 256 == v / p && v == v / p * p + v % p
  {
    Larger(256, v / p, p);
  }

  lemma Larger(a: nat, b: nat, p: nat)
    ensures a <= b ==> a * p <= b * p
  {
  }

  lemma {:induction false} BigEndianRoundTrip(v: nat, n: nat)
    requires v < Pow(n)
    ensures FromBytes(BigEndian(v, n)) == v
  {
    if n > 0 {
      SmallQuotient(v, Pow(n - 1));
      BigEndianRoundTrip(v % Pow(n - 1), n - 1);
      assert BigEndian(v, n)[1..] == BigEndian(v % Pow(n - 1), n - 1);
    }
  }

  /** The last byte is the least significant. */
  lemma {:induction false} FromBytesMore(b: Bytes, x: Byte)
    ensures FromBytes([]) == 0 && FromBytes(b + [x]) == 256 * FromBytes(b) + x
  {
    if b == [] {
      assert [] + [x] == [x] && [x][1..] == [];
      assert FromBytes([x]) == x * Pow(0);
    } else {
      FromBytesMore(b[1..], x);
      assert (b + [x])[1..] == b[1..] + [x];
      assert Pow(|b|) == 256 * Pow(|b| - 1);
      Shifted256(b[0], Pow(|b| - 1));
    }
  }

  lemma Shifted256(d: nat, p: nat)
    ensures d * (256 * p) == 256 * (d * p)
  {
  }

  lemma {:induction false} FromBytesBound(b: Bytes)
    ensures FromBytes(b) < Pow(|b|)
  {
    if b != [] {
      FromBytesBound(b[1..]);
      Digit(b[0], Pow(|b| - 1), FromBytes(b[1..]));
    }
  }

  lemma Digit(d: Byte, p: nat, r: nat)
    requires r < p
    ensures d * p + r < 256 * p
  {
    assert d * p <= 255 * p;
  }

  /** The number of bytes of a variable-size integer is told by the leading bits of its first byte. */
  function VintLength(b: Byte): (n: nat)
    ensures n <= 8
  {
    if b >= 128 then 1 else if b >= 64 then 2 else if b >= 32 then 3 else if b >= 16 then 4
    else if b >= 8 then 5 else if b >= 4 then 6 else if b >= 2 then 7 else if b >= 1 then 8 else 0
  }

  /** An ID keeps its marker bit: one to four bytes. */
  predicate ValidId(id: nat) {
    0x80 <= id < 0xff || 0x4000 <= id < 0x7fff || 0x20_0000 <= id < 0x3f_ffff || 0x1000_0000 <= id < 0x1fff_ffff
  }

  /** mk_writeID: the four bytes of the ID without leading zero bytes. */
  function EncId(id: nat): Bytes
    requires id < 0x1_0000_0000
  {
    if id >= 0x100_0000 then BigEndian(id, 4) else if id >= 0x1_0000 then BigEndian(id, 3)
    else if id >= 0x100 then BigEndian(id, 2) else BigEndian(id, 1)
  }

  datatype Got<+T> = Got(value: T, rest: Bytes) | Bad

  function ReadId(s: Bytes): Got<nat> {
    if s == [] then Bad
    else
      var n := VintLength(s[0]);
      if n == 0 || n > 4 || |s| < n then Bad else Got(FromBytes(s[..n]), s[n..])
  }

  lemma Slices(a: Bytes, b: Bytes)
    ensures (a + b)[..|a|] == a && (a + b)[|a|..] == b && (a != [] ==> (a + b)[0] == a[0])
  {
  }

  lemma FirstByte(v: nat, n: nat)
    requires 0 < n && v < Pow(n)
    ensures BigEndian(v, n)[0] == v / Pow(n - 1)
  {
    SmallQuotient(v, Pow(n - 1));
  }

  lemma PowTable()
    ensures Pow(0) == 1 && Pow(1) == 0x100 && Pow(2) == 0x1_0000 && Pow(3) == 0x100_0000 && Pow(4) == 0x1_0000_0000
    ensures Pow(5) == 0x100_0000_0000 && Pow(8) == 0x1_0000_0000_0000_0000
  {
    assert Pow(1) == 256 * Pow(0);
    assert Pow(2) == 256 * Pow(1);
    assert Pow(3) == 256 * Pow(2);
    assert Pow(4) == 256 * Pow(3);
    assert Pow(5) == 256 * Pow(4);
    assert Pow(6) == 256 * Pow(5);
    assert Pow(7) == 256 * Pow(6);
  }

  lemma IdOfLength(id: nat, n: nat, rest: Bytes)
    requires 0 < n <= 4 && id < Pow(n) && VintLength(BigEndian(id, n)[0]) == n
    ensures ReadId(BigEndian(id, n) + rest) == Got(id, rest)
  {
    hide BigEndian, FromBytes, Pow, VintLength;
    BigEndianRoundTrip(id, n);
    Slices(BigEndian(id, n), rest);
  }

  lemma IdRoundTrip(id: nat, rest: Bytes)
    requires ValidId(id)
    ensures id < 0x1_0000_0000 && ReadId(EncId(id) + rest) == Got(id, rest) && EncId(id) != []
  {
    hide BigEndian, ReadId, Pow;
    PowTable();
    var n := if id >= 0x100_0000 then 4 else if id >= 0x1_0000 then 3 else if id >= 0x100 then 2 else 1;
    FirstByte(id, n);
    IdOfLength(id, n, rest);
  }

  /** The marker bit of a size of n bytes. */
  function Marker(n: nat): nat
    requires 1 <= n <= 8
  {
    if n == 1 then 0x80 else if n == 2 then 0x4000 else if n == 3 then 0x20_0000 else if n == 4 then 0x1000_0000
    else if n == 5 then 0x8_0000_0000 else if n == 6 then 0x400_0000_0000 else if n == 7 then 0x2_0000_0000_0000
    else 0x100_0000_0000_0000
  }

  /** mk_ebmlSizeSize: the number of bytes of a size. A size of all ones would mean "unknown". */
  function SizeSize(s: nat): (n: nat)
    ensures 1 <= n <= 5
  {
    if s < 0x7f then 1 else if s < 0x3fff then 2 else if s < 0x1f_ffff then 3 else if s < 0x0fff_ffff then 4 else 5
  }

  /** mk_writeSize: the size behind its marker bit. */
  function EncSize(s: nat): Bytes
    requires s < 0x1_0000_0000
  {
    BigEndian(s + Marker(SizeSize(s)), SizeSize(s))
  }

  /** A size, or None if it is unknown. */
  function ReadSize(s: Bytes): Got<Option<nat>> {
    if s == [] then Bad
    else
      var n := VintLength(s[0]);
      if n == 0 || |s| < n || FromBytes(s[..n]) < Marker(n) then Bad
      else
        var v := FromBytes(s[..n]) - Marker(n);
        Got(if v == Marker(n) - 1 then None else Some(v), s[n..])
  }

  lemma SizeOfLength(s: nat, n: nat, rest: Bytes)
    requires 1 <= n <= 5 && s < Marker(n) - 1 && s + Marker(n) < Pow(n)
    requires VintLength(BigEndian(s + Marker(n), n)[0]) == n
    ensures ReadSize(BigEndian(s + Marker(n), n) + rest) == Got(Some(s), rest)
  {
    hide BigEndian, FromBytes, Pow, VintLength, Marker;
    BigEndianRoundTrip(s + Marker(n), n);
    Slices(BigEndian(s + Marker(n), n), rest);
  }

  lemma SizeRoundTrip(s: nat, rest: Bytes)
    requires s < 0x1_0000_0000
    ensures ReadSize(EncSize(s) + rest) == Got(Some(s), rest) && EncSize(s) != []
  {
    hide BigEndian, ReadSize, Pow;
    PowTable();
    var n := SizeSize(s);
    FirstByte(s + Marker(n), n);
    SizeOfLength(s, n, rest);
  }

  /** It is the shortest size that does not read as unknown. */
  lemma SizeShortest(s: nat, n: nat)
    requires 1 <= n < SizeSize(s)
    ensures s >= Marker(n) - 1
  {
  }

  lemma {:induction false} Tail(v: nat, n: nat)
    requires v < Pow(n)
    ensures BigEndian(v, n + 1) == [0] + BigEndian(v, n)
  {
    assert v / Pow(n) == 0 && v % Pow(n) == v by {
      SmallMod(v, Pow(n));
    }
  }

  lemma SmallMod(v: nat, p: nat)
    requires v < p
    ensures v / p == 0 && v % p == v
  {
  }

  /** Setting a marker bit that is not set adds it to the first byte. */
  lemma SetMarker(v: nat, d: nat, n: nat)
    requires 0 < n && d < 256 && v < Pow(n) && v + d * Pow(n - 1) < Pow(n)
    ensures BigEndian(v, n)[0] + d < 256
    ensures BigEndian(v + d * Pow(n - 1), n) == BigEndian(v, n)[0 := BigEndian(v, n)[0] + d]
  {
    var p := Pow(n - 1);
    SmallQuotient(v, p);
    SmallQuotient(v + d * p, p);
    AddQuotient(v, d, p);
  }

  lemma UniqueQuotient(q: nat, m: nat, q': nat, m': nat, p: nat)
    requires q * p + m == q' * p + m' && m < p && m' < p
    ensures q == q' && m == m'
  {
    Larger(q + 1, q', p);
    Larger(q' + 1, q, p);
    assert (q + 1) * p == q * p + p && (q' + 1) * p == q' * p + p;
  }

  lemma DivMod(v: nat, p: nat)
    requires p > 0
    ensures v == v / p * p + v % p && v % p < p
  {
  }

  lemma ShiftedQuotient(a: nat, b: nat, d: nat, q: nat, r: nat, p: nat)
    requires a * p + b + d * p == q * p + r && b < p && r < p
    ensures q == a + d && r == b
  {
    assert (a + d) * p == a * p + d * p;
    UniqueQuotient(a + d, b, q, r, p);
  }

  lemma AddQuotient(v: nat, d: nat, p: nat)
    requires p > 0
    ensures (v + d * p) / p == v / p + d && (v + d * p) % p == v % p
  {
    DivMod(v, p);
    DivMod(v + d * p, p);
    ShiftedQuotient(v / p, v % p, d, (v + d * p) / p, (v + d * p) % p, p);
  }

  /** The five bytes that mk_writeSize prepares. */
  function Prepared(size: nat): (c: Bytes)
    requires size < 0x1_0000_0000
    ensures |c| == 5
  {
    [0x08] + BigEndian(size, 4)
  }

  lemma LowBytes(size: nat, n: nat)
    requires 1 <= n <= 4 && size < Pow(n) && size < 0x1_0000_0000
    ensures Prepared(size)[5 - n..] == BigEndian(size, n)
  {
    hide BigEndian;
    PowTable();
    if n <= 3 {
      Tail(size, 3);
    }
    if n <= 2 {
      Tail(size, 2);
    }
    if n <= 1 {
      Tail(size, 1);
    }
  }

  /** The bit set in the first byte of a size of n bytes. */
  function FirstMark(n: nat): (d: Byte)
    requires 1 <= n <= 4
  {
    if n == 1 then 0x80 else if n == 2 then 0x40 else if n == 3 then 0x20 else 0x10
  }

  lemma MarkedBytes(size: nat, n: nat)
    requires 1 <= n <= 4 && n == SizeSize(size)
    ensures size < 0x1_0000_0000 && Prepared(size)[5 - n] + FirstMark(n) < 256
    ensures [Prepared(size)[5 - n] + FirstMark(n)] + Prepared(size)[6 - n..] == EncSize(size)
  {
    hide BigEndian, Prepared, Pow;
    PowTable();
    LowBytes(size, n);
    assert FirstMark(n) * Pow(n - 1) == Marker(n);
    SetMarker(size, FirstMark(n), n);
  }

  lemma LongSize(size: nat)
    requires size < 0x1_0000_0000 && SizeSize(size) == 5
    ensures Prepared(size) == EncSize(size)
  {
    PowTable();
    AddQuotient(size, 8, Pow(4));
    SmallMod(size, Pow(4));
  }

  /** mk_writeSize as the program does it: five bytes are prepared, the marker is set in the first of
      those that are needed, and these are written. */
  method WriteSize(size: nat) returns (b: Bytes)
    requires size < 0x1_0000_0000
    ensures b == EncSize(size)
  {
    hide EncSize, Prepared;
    var c := Prepared(size);
    if size < 0x7f {
      MarkedBytes(size, 1);
      b := [c[4] + 0x80] + c[5..];
    } else if size < 0x3fff {
      MarkedBytes(size, 2);
      b := [c[3] + 0x40] + c[4..];
    } else if size < 0x1f_ffff {
      MarkedBytes(size, 3);
      b := [c[2] + 0x20] + c[3..];
    } else if size < 0x0fff_ffff {
      MarkedBytes(size, 4);
      b := [c[1] + 0x10] + c[2..];
    } else {
      LongSize(size);
      b := c;
    }
  }

  /** Leading zero bytes of an unsigned number are dropped, but not the last byte. */
  function Strip(b: Bytes): (r: Bytes)
    requires b != []
    ensures r != [] && |r| <= |b|
  {
    if |b| > 1 && b[0] == 0 then Strip(b[1..]) else b
  }

  lemma {:induction false} StripKeeps(b: Bytes)
    requires b != []
    ensures FromBytes(Strip(b)) == FromBytes(b) && (|Strip(b)| > 1 ==> Strip(b)[0] != 0)
  {
    if |b| > 1 && b[0] == 0 {
      StripKeeps(b[1..]);
    }
  }

  predicate IsInt64(v: int) { -0x8000_0000_0000_0000 <= v < 0x8000_0000_0000_0000 }

  /** The 64 bits of an integer, as an unsigned number. */
  function Bits64(v: int): nat
    requires IsInt64(v)
  {
    if v < 0 then v + 0x1_0000_0000_0000_0000 else v
  }

  function EncUInt(v: int): (b: Bytes)
    requires IsInt64(v)
    ensures 1 <= |b| <= 8
  {
    Strip(BigEndian(Bits64(v), 8))
  }

  /** An unsigned element holds the number itself exactly if it is not negative. */
  lemma UIntRoundTrip(v: int)
    requires IsInt64(v)
    ensures FromBytes(EncUInt(v)) == Bits64(v)
    ensures FromBytes(EncUInt(v)) == v <==> v >= 0
    ensures |EncUInt(v)| > 1 ==> EncUInt(v)[0] != 0
  {
    PowTable();
    BigEndianRoundTrip(Bits64(v), 8);
    StripKeeps(BigEndian(Bits64(v), 8));
  }

  /** The payload of mk_writeUInt. */
  method WriteUInt(v: int) returns (b: Bytes)
    requires IsInt64(v)
    ensures b == EncUInt(v)
  {
    var c := BigEndian(Bits64(v), 8);
    var i := 0;
    assert c[0..] == c;
    while i < 7 && c[i] == 0
      invariant 0 <= i <= 7 && Strip(c[i..]) == Strip(c)
    {
      assert c[i..][1..] == c[i + 1..];
      i := i + 1;
    }
    b := c[i..];
  }

  /** Two's complement of any length. */
  function FromSigned(b: Bytes): int
    requires b != []
  {
    if b[0] >= 128 then FromBytes(b) - Pow(|b|) else FromBytes(b)
  }

  /** The first byte only repeats the sign of the second. */
  predicate Repeats(b: Bytes) {
    |b| > 1 && ((b[0] == 255 && b[1] >= 128) || (b[0] == 0 && b[1] < 128))
  }

  function StripSigned(b: Bytes): (r: Bytes)
    requires b != []
    ensures r != [] && |r| <= |b|
  {
    if Repeats(b) then StripSigned(b[1..]) else b
  }

  lemma {:induction false} StripSignedKeeps(b: Bytes)
    requires b != []
    ensures FromSigned(StripSigned(b)) == FromSigned(b) && !Repeats(StripSigned(b))
  {
    if Repeats(b) {
      StripSignedKeeps(b[1..]);
    }
  }

  function EncSInt(v: int): (b: Bytes)
    requires IsInt64(v)
    ensures 1 <= |b| <= 8
  {
    StripSigned(BigEndian(Bits64(v), 8))
  }

  lemma SignBit(v: int)
    requires IsInt64(v)
    ensures FromSigned(BigEndian(Bits64(v), 8)) == v && (BigEndian(Bits64(v), 8)[0] >= 128 <==> v < 0)
  {
    PowTable();
    assert Pow(7) == 0x100_0000_0000_0000;
    BigEndianRoundTrip(Bits64(v), 8);
    FirstByte(Bits64(v), 8);
  }

  lemma SIntRoundTrip(v: int)
    requires IsInt64(v)
    ensures FromSigned(EncSInt(v)) == v
    ensures |EncSInt(v)| > 1 && EncSInt(v)[0] == 0 ==> EncSInt(v)[1] >= 128
    ensures |EncSInt(v)| > 1 && EncSInt(v)[0] == 255 ==> EncSInt(v)[1] < 128
  {
    hide BigEndian, FromSigned;
    SignBit(v);
    StripSignedKeeps(BigEndian(Bits64(v), 8));
  }

  lemma {:induction false} StripSignedFrom(c: Bytes, i: nat)
    requires i + 1 < |c| && Repeats(c[i..])
    ensures StripSigned(c[i + 1..]) == StripSigned(c[i..])
  {
    assert c[i..][1..] == c[i + 1..];
  }

  /** The loop that mk_writeSInt and mk_ebmlSIntSize share. */
  method SIntStart(v: int) returns (i: nat)
    requires IsInt64(v)
    ensures i <= 7 && BigEndian(Bits64(v), 8)[i..] == EncSInt(v)
  {
    hide BigEndian;
    var c := BigEndian(Bits64(v), 8);
    SignBit(v);
    i := 0;
    assert c[0..] == c;
    if v < 0 {
      while i < 7 && c[i] == 0xff && c[i + 1] >= 128
        invariant i <= 7 && c[i] >= 128 && StripSigned(c[i..]) == StripSigned(c)
      {
        StripSignedFrom(c, i);
        i := i + 1;
      }
    } else {
      while i < 7 && c[i] == 0 && c[i + 1] < 128
        invariant i <= 7 && c[i] < 128 && StripSigned(c[i..]) == StripSigned(c)
      {
        StripSignedFrom(c, i);
        i := i + 1;
      }
    }
  }

  /** The payload of mk_writeSInt. */
  method WriteSInt(v: int) returns (b: Bytes)
    requires IsInt64(v)
    ensures b == EncSInt(v)
  {
    var i := SIntStart(v);
    b := BigEndian(Bits64(v), 8)[i..];
  }

  /** mk_ebmlSIntSize is the length of what mk_writeSInt writes. */
  method SIntSize(v: int) returns (n: nat)
    requires IsInt64(v)
    ensures n == |EncSInt(v)|
  {
    var i := SIntStart(v);
    n := 8 - i;
  }

  /** An element: an ID and the bytes inside. */
  datatype Elem = Elem(id: nat, data: Bytes)

  predicate ElemOk(e: Elem) { ValidId(e.id) && |e.data| < 0x1_0000_0000 }

  function Ser(e: Elem): (b: Bytes)
    requires ElemOk(e)
    ensures b != []
  {
    var i := EncId(e.id);
    IdRoundTrip(e.id, []);
    i + EncSize(|e.data|) + e.data
  }

  predicate AllOk(es: seq<Elem>) { forall k :: 0 <= k < |es| ==> ElemOk(es[k]) }

  function SerAll(es: seq<Elem>): Bytes
    requires AllOk(es)
  {
    if es == [] then [] else SerAll(es[..|es| - 1]) + Ser(es[|es| - 1])
  }

  lemma SerAllLast(es: seq<Elem>, e: Elem)
    requires AllOk(es) && ElemOk(e)
    ensures AllOk(es + [e]) && SerAll(es + [e]) == SerAll(es) + Ser(e)
  {
    hide Ser, ElemOk;
    assert (es + [e])[..|es|] == es;
  }

  lemma {:induction false} SerAllAppend(a: seq<Elem>, b: seq<Elem>)
    requires AllOk(a) && AllOk(b)
    ensures AllOk(a + b) && SerAll(a + b) == SerAll(a) + SerAll(b)
    decreases |b|
  {
    hide Ser, ElemOk, SerAll;
    if b == [] {
      assert a + b == a;
      SerAllNone();
    } else {
      var n := |b| - 1;
      var c, x := b[..n], b[n];
      assert b == c + [x];
      SerAllAppend(a, c);
      SerAllLast(a + c, x);
      SerAllLast(c, x);
      assert a + b == a + c + [x];
    }
  }

  lemma SerAllNone()
    ensures SerAll([]) == []
  {
  }

  lemma SerAllOne(e: Elem)
    requires ElemOk(e)
    ensures AllOk([e]) && SerAll([e]) == Ser(e)
  {
    assert [e][..0] == [];
  }

  /** One element of known size. */
  function ReadElem(s: Bytes): Got<Elem> {
    match ReadId(s)
    case Bad => Bad
    case Got(id, s1) =>
      match ReadSize(s1)
      case Bad => Bad
      case Got(n, s2) =>
        if n == None || |s2| < n.value then Bad else Got(Elem(id, s2[..n.value]), s2[n.value..])
  }

  lemma ElemRoundTrip(e: Elem, rest: Bytes)
    requires ElemOk(e)
    ensures ReadElem(Ser(e) + rest) == Got(e, rest)
  {
    hide ReadId, ReadSize, EncId, EncSize;
    IdRoundTrip(e.id, EncSize(|e.data|) + e.data + rest);
    assert Ser(e) + rest == EncId(e.id) + (EncSize(|e.data|) + e.data + rest);
    SizeRoundTrip(|e.data|, e.data + rest);
    assert EncSize(|e.data|) + e.data + rest == EncSize(|e.data|) + (e.data + rest);
    Slices(e.data, rest);
  }

  /** All elements up to the end. */
  function ParseAll(s: Bytes): Option<seq<Elem>>
    decreases |s|
  {
    if s == [] then Some([])
    else
      match ReadElem(s)
      case Bad => None
      case Got(e, rest) =>
        if |rest| >= |s| then None
        else
          match ParseAll(rest)
          case None => None
          case Some(es) => Some([e] + es)
  }

  /** Reading is the inverse of writing. */
  lemma {:induction false} ParseSer(es: seq<Elem>)
    requires AllOk(es)
    ensures ParseAll(SerAll(es)) == Some(es)
    decreases |es|
  {
    hide ReadElem, Ser;
    if es != [] {
      var e, rest := es[0], es[1..];
      assert es == [e] + rest;
      SerAllOne(e);
      SerAllAppend([e], rest);
      ElemRoundTrip(e, SerAll(rest));
      ParseSer(rest);
    }
  }
}
