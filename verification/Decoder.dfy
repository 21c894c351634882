/** The output file as records and as bytes, and the decoder. */
module Decoder {
  import opened Chunks
  import opened Pipeline

  const SHA1_LEN: nat := 20
  const TYPE_FINGERPRINT: Byte := 0
  const TYPE_COMPRESS: Byte := 1
  const UNCOMPRESS_BOUND: nat := 10000000

  datatype Error = IncompleteChunk | WrongDigestSize | IllegalSize | UnknownType | ReadError
                 | UncompressError | MissingOriginal

  datatype Result<+T> = Ok(value: T) | Err(error: Error)

  /** The decoder's hash table and the bytes it has written. */
  datatype Decoded = Decoded(cache: map<Bytes, Bytes>, output: Bytes)

  /** The external parts do their job: a lossless compressor and 20-byte digests. `limited` says
      that the decoder decompresses into a buffer of UNCOMPRESS_BOUND bytes (gzip and bzip2). */
  ghost predicate SoundCodec(c: Codec) {
    forall b: Bytes :: b != [] ==> c.comp(b) != [] && c.decomp(c.comp(b)) == b && |c.sha(b)| == SHA1_LEN
  }

  function Uncompress(c: Codec, limited: bool, payload: Bytes): Result<Bytes> {
    var b := c.decomp(payload);
    if b == [] || (limited && |b| > UNCOMPRESS_BOUND) then Err(UncompressError) else Ok(b)
  }

  /** One turn of the decoder's loop on a record. */
  function DecodeStep(c: Codec, limited: bool, d: Decoded, rec: Record): Result<Decoded> {
    match rec
    case Data(payload) =>
      (match Uncompress(c, limited, payload)
       case Ok(b) => Ok(Decoded(d.cache[c.sha(b) := b], d.output + b))
       case Err(e) => Err(e))
    case Fingerprint(h) =>
      if h in d.cache then Ok(Decoded(d.cache, d.output + d.cache[h])) else Err(MissingOriginal)
  }

  /** The decoder on a list of records. */
  function DecodeRecords(c: Codec, limited: bool, d: Decoded, recs: seq<Record>): Result<Decoded>
    decreases |recs|
  {
    if recs == [] then Ok(d)
    else
      match DecodeStep(c, limited, d, recs[0])
      case Err(e) => Err(e)
      case Ok(d') => DecodeRecords(c, limited, d', recs[1..])
  }

  const EMPTY_DECODED := Decoded(map[], [])

  lemma {:induction false} DecodeAppend(c: Codec, limited: bool, d: Decoded, a: seq<Record>, b: seq<Record>)
    ensures DecodeRecords(c, limited, d, a + b) ==
            match DecodeRecords(c, limited, d, a)
            case Err(e) => Err(e)
            case Ok(d') => DecodeRecords(c, limited, d', b)
    decreases |a|
  {
    if a == [] {
      assert a + b == b;
    } else {
      assert (a + b)[0] == a[0] && (a + b)[1..] == a[1..] + b;
      match DecodeStep(c, limited, d, a[0]) {
        case Err(_) =>
        case Ok(d') => DecodeAppend(c, limited, d', a[1..], b);
      }
    }
  }

  /** Chunk n has the digest of an earlier one. */
  ghost predicate Seen(c: Codec, cs: seq<Chunk>, n: nat)
    requires n < |cs|
  {
    exists j :: 0 <= j < n && c.sha(cs[j].data) == c.sha(cs[n].data)
  }

  /** What the serial encoder writes for chunk n of the stream. */
  ghost function SerialRecord(c: Codec, cs: seq<Chunk>, n: nat): Record
    requires n < |cs|
  {
    if Seen(c, cs, n) then Fingerprint(c.sha(cs[n].data)) else Data(c.comp(cs[n].data))
  }

  ghost function SerialRecords(c: Codec, cs: seq<Chunk>): seq<Record> {
    if cs == [] then [] else SerialRecords(c, cs[..|cs| - 1]) + [SerialRecord(c, cs, |cs| - 1)]
  }

  lemma {:induction false} AllSerial(c: Codec, cs: seq<Chunk>, recs: seq<Record>)
    requires |recs| == |cs| && forall k :: 0 <= k < |cs| ==> recs[k] == SerialRecord(c, cs, k)
    ensures recs == SerialRecords(c, cs)
  {
    if cs != [] {
      var n := |cs| - 1;
      forall k | 0 <= k < n
        ensures SerialRecord(c, cs[..n], k) == SerialRecord(c, cs, k)
      {
        SeenEarlier(c, cs, n, k);
      }
      AllSerial(c, cs[..n], recs[..n]);
    }
  }

  lemma SeenEarlier(c: Codec, cs: seq<Chunk>, n: nat, k: nat)
    requires k < n <= |cs|
    ensures Seen(c, cs[..n], k) <==> Seen(c, cs, k)
  {
    var t := cs[..n];
    if Seen(c, cs, k) {
      var j :| 0 <= j < k && c.sha(cs[j].data) == c.sha(cs[k].data);
      assert c.sha(t[j].data) == c.sha(t[k].data);
    }
  }

  /** No two of the chunks collide in the digest. */
  predicate Injective(c: Codec, cs: seq<Chunk>) {
    forall i, j :: 0 <= i < j < |cs| && c.sha(cs[i].data) == c.sha(cs[j].data) ==> cs[i].data == cs[j].data
  }

  /** The decoder's buffer is large enough for every chunk. */
  predicate Fits(limited: bool, cs: seq<Chunk>) {
    !limited || forall j :: 0 <= j < |cs| ==> |cs[j].data| <= UNCOMPRESS_BOUND
  }

  /** The decoder has written the chunks and can find each by its digest. */
  predicate DecodedOk(c: Codec, cs: seq<Chunk>, d: Decoded) {
    && d.output == DataOf(cs)
    && (forall j :: 0 <= j < |cs| ==> c.sha(cs[j].data) in d.cache && d.cache[c.sha(cs[j].data)] == cs[j].data)
  }

  lemma DecodeSingle(c: Codec, limited: bool, d: Decoded, rec: Record)
    ensures DecodeRecords(c, limited, d, [rec]) == DecodeStep(c, limited, d, rec)
  {
    match DecodeStep(c, limited, d, rec) {
      case Err(_) =>
      case Ok(d') => assert DecodeRecords(c, limited, d', [rec][1..]) == Ok(d');
    }
  }

  lemma DecodeOne(c: Codec, limited: bool, cs: seq<Chunk>, d: Decoded)
    requires SoundCodec(c) && cs != [] && cs[|cs| - 1].data != [] && Injective(c, cs)
    requires Fits(limited, cs[..|cs| - 1]) && DecodedOk(c, cs[..|cs| - 1], d)
    ensures var n := |cs| - 1;
            var rec := SerialRecord(c, cs, n);
            var r := DecodeStep(c, limited, d, rec);
            if Fits(limited, cs) then r.Ok? && DecodedOk(c, cs, r.value) else r == Err(UncompressError)
  {
    var n := |cs| - 1;
    var t := cs[..n];
    assert forall j :: 0 <= j < n ==> t[j] == cs[j];
    if Seen(c, cs, n) {
      var j :| 0 <= j < n && c.sha(cs[j].data) == c.sha(cs[n].data);
      assert c.sha(t[j].data) in d.cache && d.cache[c.sha(t[j].data)] == cs[n].data;
    }
  }

  /** The decoder inverts the serial encoder, unless a chunk is too large for its buffer. */
  lemma {:induction false} DecodeSerial(c: Codec, limited: bool, cs: seq<Chunk>)
    requires SoundCodec(c) && Injective(c, cs) && forall j :: 0 <= j < |cs| ==> cs[j].data != []
    ensures var r := DecodeRecords(c, limited, EMPTY_DECODED, SerialRecords(c, cs));
            if Fits(limited, cs) then r.Ok? && DecodedOk(c, cs, r.value) else r == Err(UncompressError)
  {
    if cs != [] {
      var n := |cs| - 1;
      var t := cs[..n];
      DecodeSerial(c, limited, t);
      var rec := SerialRecord(c, cs, n);
      DecodeAppend(c, limited, EMPTY_DECODED, SerialRecords(c, t), [rec]);
      if Fits(limited, t) {
        var d := DecodeRecords(c, limited, EMPTY_DECODED, SerialRecords(c, t)).value;
        DecodeOne(c, limited, cs, d);
        DecodeSingle(c, limited, d, rec);
      } else {
        var j :| 0 <= j < |t| && |t[j].data| > UNCOMPRESS_BOUND;
        assert cs[j] == t[j];
      }
    }
  }

  /** A machine word of n bytes, least significant byte first. */
  function LittleEndian(v: nat, n: nat): Bytes {
    if n == 0 then [] else [v % 256] + LittleEndian(v / 256, n - 1)
  }

  function FromLittleEndian(b: Bytes): nat {
    if b == [] then 0 else b[0] + 256 * FromLittleEndian(b[1..])
  }

  function Pow256(n: nat): nat { if n == 0 then 1 else 256 * Pow256(n - 1) }

  lemma {:induction false} LittleEndianRoundTrip(v: nat, n: nat)
    requires v < Pow256(n)
    ensures |LittleEndian(v, n)| == n && FromLittleEndian(LittleEndian(v, n)) == v
  {
    if n > 0 {
      LittleEndianRoundTrip(v / 256, n - 1);
      assert LittleEndian(v, n)[1..] == LittleEndian(v / 256, n - 1);
    }
  }

  /** The last byte is the most significant. */
  lemma {:induction false} FromLittleEndianMore(b: Bytes, x: Byte)
    ensures FromLittleEndian([]) == 0 && FromLittleEndian(b + [x]) == FromLittleEndian(b) + x * Pow256(|b|)
  {
    if b == [] {
      assert [] + [x] == [x] && [x][1..] == [];
      assert FromLittleEndian([x]) == x + 256 * FromLittleEndian([]);
    } else {
      FromLittleEndianMore(b[1..], x);
      assert (b + [x])[1..] == b[1..] + [x];
      Times256(x, Pow256(|b| - 1));
    }
  }

  lemma Times256(x: nat, p: nat)
    ensures x * (256 * p) == 256 * (x * p)
  {
  }

  /** write_file: a type byte, an eight-byte length and the content. */
  function Serialize(rec: Record): Bytes {
    match rec
    case Data(b) => [TYPE_COMPRESS] + LittleEndian(|b|, 8) + b
    case Fingerprint(h) => [TYPE_FINGERPRINT] + LittleEndian(|h|, 8) + h
  }

  /** The bytes of a record: its type, the length in eight bytes and the content. */
  lemma RecordBytes(rec: Record)
    ensures var b := Serialize(rec);
            var content := if rec.Data? then rec.payload else rec.digest;
            |content| < Pow256(8) ==> |b| == 9 + |content| && b[0] == (if rec.Data? then 1 else 0) && b[9..] == content
                                      && FromLittleEndian(b[1..9]) == |content|
  {
    hide LittleEndian, FromLittleEndian, Pow256;
    var content := if rec.Data? then rec.payload else rec.digest;
    if |content| < Pow256(8) {
      LittleEndianRoundTrip(|content|, 8);
      assert Serialize(rec)[1..9] == LittleEndian(|content|, 8);
    }
  }

  function SerializeAll(recs: seq<Record>): Bytes {
    if recs == [] then [] else Serialize(recs[0]) + SerializeAll(recs[1..])
  }

  /** The value an unsigned length has after conversion to a 32-bit int. */
  function AsInt(len: nat): int {
    var low := len % 0x1_0000_0000;
    if low < 0x8000_0000 then low else low - 0x1_0000_0000
  }

  datatype Read = End | Got(rec: Record, len: int, rest: Bytes) | Failed(error: Error)

  /** read_chunk; its result is the length, narrowed to int. */
  function ReadChunk(f: Bytes): Read {
    if f == [] then End
    else if |f| < 9 then Failed(IncompleteChunk)
    else
      var len, body := FromLittleEndian(f[1..9]), f[9..];
      if f[0] == TYPE_FINGERPRINT then
        if len != SHA1_LEN then Failed(WrongDigestSize)
        else if |body| < len then Failed(IncompleteChunk)
        else Got(Fingerprint(body[..len]), AsInt(len), body[len..])
      else if f[0] == TYPE_COMPRESS then
        if len == 0 then Failed(IllegalSize)
        else if |body| < len then Failed(IncompleteChunk)
        else Got(Data(body[..len]), AsInt(len), body[len..])
      else Failed(UnknownType)
  }

  /** The decoder's loop on the rest f of the file. */
  function DecodeFile(c: Codec, limited: bool, d: Decoded, f: Bytes): Result<Decoded>
    decreases |f|
  {
    match ReadChunk(f)
    case End => Ok(d)
    case Failed(e) => Err(e)
    case Got(rec, len, rest) =>
      if len < 0 then Err(ReadError)
      else if len == 0 then Ok(d)
      else
        match DecodeStep(c, limited, d, rec)
        case Err(e) => Err(e)
        case Ok(d') => DecodeFile(c, limited, d', rest)
  }

  /** Decode, as the program runs it. */
  method Decode(c: Codec, limited: bool, file: Bytes) returns (r: Result<Bytes>)
    ensures r == match DecodeFile(c, limited, EMPTY_DECODED, file)
                 case Ok(d) => Ok(d.output)
                 case Err(e) => Err(e)
  {
    var cache: map<Bytes, Bytes>, output: Bytes, f := map[], [], file;
    while true
      invariant DecodeFile(c, limited, Decoded(cache, output), f) ==
                DecodeFile(c, limited, EMPTY_DECODED, file)
      decreases |f|
    {
      var rd := ReadChunk(f);
      if rd.Failed? {
        return Err(rd.error);
      }
      if rd.End? || rd.len == 0 {
        return Ok(output);
      }
      if rd.len < 0 {
        return Err(ReadError);
      }
      match rd.rec {
        case Data(payload) =>
          var u := Uncompress(c, limited, payload);
          if u.Err? {
            return Err(u.error);
          }
          cache, output := cache[c.sha(u.value) := u.value], output + u.value;
        case Fingerprint(h) =>
          if h !in cache {
            return Err(MissingOriginal);
          }
          output := output + cache[h];
      }
      f := rd.rest;
    }
  }

  /** A record whose length survives the trip through the file and through read_chunk. */
  predicate Storable(rec: Record) {
    match rec
    case Data(b) => 0 < |b| < 0x8000_0000
    case Fingerprint(h) => |h| == SHA1_LEN
  }

  lemma FrameSlices(t: Byte, len: Bytes, body: Bytes, rest: Bytes)
    requires |len| == 8
    ensures var f := [t] + len + body + rest;
            |f| >= 9 && f[0] == t && f[1..9] == len && f[9..] == body + rest
  {
  }

  lemma BodySlices(body: Bytes, rest: Bytes)
    ensures (body + rest)[..|body|] == body && (body + rest)[|body|..] == rest
  {
  }

  lemma LengthField(n: nat)
    requires n < 0x8000_0000
    ensures |LittleEndian(n, 8)| == 8 && FromLittleEndian(LittleEndian(n, 8)) == n && AsInt(n) == n
  {
    assert Pow256(8) == 0x1_0000_0000_0000_0000;
    LittleEndianRoundTrip(n, 8);
  }

  /** read_chunk is the inverse of write_file. */
  lemma ReadBack(rec: Record, rest: Bytes)
    requires Storable(rec)
    ensures var n := if rec.Data? then |rec.payload| else |rec.digest|;
            ReadChunk(Serialize(rec) + rest) == Got(rec, n, rest) && n > 0
  {
    var body := if rec.Data? then rec.payload else rec.digest;
    var t := if rec.Data? then TYPE_COMPRESS else TYPE_FINGERPRINT;
    LengthField(|body|);
    FrameSlices(t, LittleEndian(|body|, 8), body, rest);
    BodySlices(body, rest);
  }

  /** The narrowed length is the one number of 32 signed bits that differs from it by a multiple of 2^32. */
  lemma AsIntIs(len: nat)
    ensures -0x8000_0000 <= AsInt(len) < 0x8000_0000 && (len - AsInt(len)) % 0x1_0000_0000 == 0
  {
  }

  /** What becomes of a data record of any length that the length field can hold: its low 32 bits decide. With
      the upper one of them set the decoder gives up, with none of them set it takes the record for the end of
      the file, and else it decodes the record. */
  lemma LongRecord(c: Codec, limited: bool, d: Decoded, b: Bytes, rest: Bytes)
    requires 0 < |b| < Pow256(8)
    ensures var low, r := |b| % 0x1_0000_0000, DecodeFile(c, limited, d, Serialize(Data(b)) + rest);
            var step := DecodeStep(c, limited, d, Data(b));
            if low >= 0x8000_0000 then r == Err(ReadError)
            else if low == 0 then r == Ok(d)
            else if step.Ok? then r == DecodeFile(c, limited, step.value, rest) else r == step
  {
    hide LittleEndian, FromLittleEndian, Pow256, DecodeStep;
    LittleEndianRoundTrip(|b|, 8);
    FrameSlices(TYPE_COMPRESS, LittleEndian(|b|, 8), b, rest);
    BodySlices(b, rest);
    assert ReadChunk(Serialize(Data(b)) + rest) == Got(Data(b), AsInt(|b|), rest);
  }

  /** Decoding the bytes written for the records is decoding the records. */
  lemma {:induction false} DecodeSerialized(c: Codec, limited: bool, d: Decoded, recs: seq<Record>)
    requires forall i :: 0 <= i < |recs| ==> Storable(recs[i])
    ensures DecodeFile(c, limited, d, SerializeAll(recs)) == DecodeRecords(c, limited, d, recs)
    decreases |recs|
  {
    if recs != [] {
      ReadBack(recs[0], SerializeAll(recs[1..]));
      match DecodeStep(c, limited, d, recs[0]) {
        case Err(_) =>
        case Ok(d') => DecodeSerialized(c, limited, d', recs[1..]);
      }
    }
  }
}
