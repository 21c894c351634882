/** The Matroska writer: a header, then clusters of frames; and a reader that recovers the frames. */
module Matroska {
  import opened Chunks
  import opened Ebml

  const CLSIZE: nat := 1048576

  const ID_EBML: nat := 0x1a45dfa3
  const ID_SEGMENT: nat := 0x18538067
  const ID_INFO: nat := 0x1549a966
  const ID_TRACKS: nat := 0x1654ae6b
  const ID_CLUSTER: nat := 0x1f43b675
  const ID_TIMECODE: nat := 0xe7
  const ID_GROUP: nat := 0xa0
  const ID_BLOCK: nat := 0xa1
  const ID_REFERENCE: nat := 0xfb

  /** A frame with its scaled time; prev is the scaled time of the frame before it, which is written
      only if the frame is no keyframe. */
  datatype Frame = Frame(tc: int, key: bool, prev: int, data: Bytes)

  /** A context cannot grow beyond 2 GiB, and a cluster is closed as soon as it exceeds CLSIZE. */
  const MAX_FRAME: nat := 0x7fe0_0000

  predicate FitsDelta(d: int) { -32768 <= d <= 32767 }

  predicate FrameOk(base: int, f: Frame) {
    FitsDelta(f.tc - base) && |f.data| <= MAX_FRAME && IsInt64(f.prev - f.tc)
  }

  /** The low 16 bits of a difference of times. */
  function Bits16(d: int): nat
    requires FitsDelta(d)
  {
    if d < 0 then d + 65536 else d
  }

  /** Track number 1, the time relative to the cluster, no flags, the data. */
  function BlockData(d: int, data: Bytes): Bytes
    requires FitsDelta(d)
  {
    [0x81] + BigEndian(Bits16(d), 2) + [0] + data
  }

  function GroupElems(base: int, f: Frame): (es: seq<Elem>)
    requires FrameOk(base, f)
    ensures AllOk(es)
  {
    [Elem(ID_BLOCK, BlockData(f.tc - base, f.data))] +
        (if f.key then [] else [Elem(ID_REFERENCE, EncSInt(f.prev - f.tc))])
  }

  lemma SerBlockSize(e: Elem)
    requires ElemOk(e)
    ensures |Ser(e)| == |EncId(e.id)| + |EncSize(|e.data|)| + |e.data|
  {
  }

  /** The size that mk_flushFrame computes before it writes a block group. */
  function GroupSize(f: Frame, refSize: nat): nat {
    |f.data| + 4 + SizeSize(|f.data| + 4) + 1 + (if f.key then 0 else 1 + 1 + refSize)
  }

  /** It is the number of bytes that follow. */
  lemma GroupSizeIs(base: int, f: Frame)
    requires FrameOk(base, f)
    ensures |SerAll(GroupElems(base, f))| == GroupSize(f, |EncSInt(f.prev - f.tc)|) < 0x7fff_0000
  {
    var block := Elem(ID_BLOCK, BlockData(f.tc - base, f.data));
    SerAllOne(block);
    SerBlockSize(block);
    if !f.key {
      var r := Elem(ID_REFERENCE, EncSInt(f.prev - f.tc));
      SerAllOne(r);
      SerAllAppend([block], [r]);
      SerBlockSize(r);
    } else {
      assert GroupElems(base, f) == [block];
    }
  }

  function Group(base: int, f: Frame): (e: Elem)
    requires FrameOk(base, f)
    ensures ElemOk(e) && e.id == ID_GROUP
  {
    GroupSizeIs(base, f);
    Elem(ID_GROUP, SerAll(GroupElems(base, f)))
  }

  predicate FramesOk(base: int, fs: seq<Frame>) {
    IsInt64(base) && forall k :: 0 <= k < |fs| ==> FrameOk(base, fs[k])
  }

  function Groups(base: int, fs: seq<Frame>): (es: seq<Elem>)
    requires FramesOk(base, fs)
    ensures |es| == |fs| && AllOk(es) && forall k :: 0 <= k < |es| ==> es[k] == Group(base, fs[k])
  {
    seq(|fs|, (k: nat) requires k < |fs| && FramesOk(base, fs) => Group(base, fs[k]))
  }

  /** The bytes of a cluster: its time, then the frames. */
  function ClusterElems(base: int, fs: seq<Frame>): (es: seq<Elem>)
    requires FramesOk(base, fs)
    ensures AllOk(es)
  {
    [Elem(ID_TIMECODE, EncUInt(base))] + Groups(base, fs)
  }

  function ClusterData(base: int, fs: seq<Frame>): Bytes
    requires FramesOk(base, fs)
  {
    SerAll(ClusterElems(base, fs))
  }

  lemma ClusterMore(base: int, fs: seq<Frame>, f: Frame)
    requires FramesOk(base, fs) && FrameOk(base, f)
    ensures FramesOk(base, fs + [f]) && ClusterData(base, fs + [f]) == ClusterData(base, fs) + Ser(Group(base, f))
  {
    hide Ser, SerAll, ElemOk, Group;
    assert ClusterElems(base, fs + [f]) == ClusterElems(base, fs) + [Group(base, f)];
    SerAllLast(ClusterElems(base, fs), Group(base, f));
  }

  /** A reader of frames. */
  datatype Read = Read(tc: int, key: bool, prev: Option<int>, data: Bytes)

  function Seen(f: Frame): Read { Read(f.tc, f.key, if f.key then None else Some(f.prev), f.data) }

  function ReadGroup(base: int, e: Elem): Option<Read> {
    if e.id != ID_GROUP then None
    else
      match ParseAll(e.data)
      case None => None
      case Some(es) =>
        if !(1 <= |es| <= 2) || es[0].id != ID_BLOCK || |es[0].data| < 4 || es[0].data[0] != 0x81 || es[0].data[3] != 0
        then None
        else
          var tc := base + FromSigned(es[0].data[1..3]);
          if |es| == 1 then Some(Read(tc, true, None, es[0].data[4..]))
          else if es[1].id != ID_REFERENCE || es[1].data == [] then None
          else Some(Read(tc, false, Some(tc + FromSigned(es[1].data)), es[0].data[4..]))
  }

  lemma DeltaRoundTrip(d: int)
    requires FitsDelta(d)
    ensures FromSigned(BigEndian(Bits16(d), 2)) == d
  {
    PowTable();
    BigEndianRoundTrip(Bits16(d), 2);
    FirstByte(Bits16(d), 2);
  }

  lemma BlockSlices(d: int, data: Bytes)
    requires FitsDelta(d)
    ensures var b := BlockData(d, data);
            |b| >= 4 && b[0] == 0x81 && b[3] == 0 && b[1..3] == BigEndian(Bits16(d), 2) && b[4..] == data
  {
  }

  /** What a reader sees that takes the time of the cluster to be off by some amount. */
  function Shifted(f: Frame, off: int): Read
  {
    Seen(f).(tc := f.tc + off, prev := if f.key then None else Some(f.prev + off))
  }

  /** A block group gives back its frame. */
  lemma GroupRoundTrip(base: int, seen: int, f: Frame)
    requires FrameOk(base, f)
    ensures ReadGroup(seen, Group(base, f)) == Some(Shifted(f, seen - base))
  {
    hide BlockData, EncSInt, FromSigned, ParseAll, SerAll, BigEndian, ElemOk;
    ParseSer(GroupElems(base, f));
    BlockSlices(f.tc - base, f.data);
    DeltaRoundTrip(f.tc - base);
    SIntRoundTrip(f.prev - f.tc);
  }

  function ReadGroups(base: int, es: seq<Elem>): Option<seq<Read>> {
    if es == [] then Some([])
    else
      match ReadGroups(base, es[..|es| - 1])
      case None => None
      case Some(rs) =>
        match ReadGroup(base, es[|es| - 1])
        case None => None
        case Some(r) => Some(rs + [r])
  }

  function AllShifted(fs: seq<Frame>, off: int): (rs: seq<Read>)
    ensures |rs| == |fs| && forall k :: 0 <= k < |rs| ==> rs[k] == Shifted(fs[k], off)
  {
    seq(|fs|, (k: nat) requires k < |fs| => Shifted(fs[k], off))
  }

  function AllSeen(fs: seq<Frame>): (rs: seq<Read>)
    ensures |rs| == |fs| && forall k :: 0 <= k < |rs| ==> rs[k] == Seen(fs[k])
  {
    seq(|fs|, (k: nat) requires k < |fs| => Seen(fs[k]))
  }

  lemma {:induction false} GroupsRoundTrip(base: int, seen: int, fs: seq<Frame>)
    requires FramesOk(base, fs)
    ensures ReadGroups(seen, Groups(base, fs)) == Some(AllShifted(fs, seen - base))
  {
    hide ReadGroup, Group;
    if fs == [] {
      assert AllShifted(fs, seen - base) == [];
    } else {
      var n := |fs| - 1;
      GroupsRoundTrip(base, seen, fs[..n]);
      GroupRoundTrip(base, seen, fs[n]);
      assert Groups(base, fs)[..n] == Groups(base, fs[..n]);
      assert AllShifted(fs, seen - base) == AllShifted(fs[..n], seen - base) + [Shifted(fs[n], seen - base)];
    }
  }

  function ReadCluster(e: Elem): Option<seq<Read>> {
    if e.id != ID_CLUSTER then None
    else
      match ParseAll(e.data)
      case None => None
      case Some(es) =>
        if es == [] || es[0].id != ID_TIMECODE then None else ReadGroups(FromBytes(es[0].data), es[1..])
  }

  /** By how much the time of a cluster is misread: an unsigned element cannot hold a negative one. */
  function Misread(base: int): int { if base < 0 then 0x1_0000_0000_0000_0000 else 0 }

  /** A cluster gives back its frames, with their times exactly if its own time is not negative. */
  lemma ClusterRoundTrip(base: int, fs: seq<Frame>, e: Elem)
    requires FramesOk(base, fs) && e == Elem(ID_CLUSTER, ClusterData(base, fs))
    ensures ReadCluster(e) == Some(AllShifted(fs, Misread(base)))
    ensures fs != [] ==> (ReadCluster(e) == Some(AllSeen(fs)) <==> base >= 0)
  {
    hide ReadGroups, EncUInt, Groups;
    ParseSer(ClusterElems(base, fs));
    UIntRoundTrip(base);
    GroupsRoundTrip(base, FromBytes(EncUInt(base)), fs);
    assert ClusterElems(base, fs)[1..] == Groups(base, fs);
    SeenUnshifted(fs, Misread(base));
  }

  /** Times are right exactly if nothing is shifted. */
  lemma SeenUnshifted(fs: seq<Frame>, off: int)
    ensures off == 0 ==> AllShifted(fs, off) == AllSeen(fs)
    ensures off != 0 && fs != [] ==> AllShifted(fs, off)[0] != AllSeen(fs)[0]
  {
  }
}
