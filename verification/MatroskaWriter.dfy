/** The writer object of the Matroska muxer. */
module MatroskaWriter {
  import opened Chunks
  import opened Ebml
  import opened Matroska
  import opened MatroskaFile

  /** Division as in C: toward zero. */
  function Trunc(a: int, b: int): int
    requires b > 0
  {
    if a >= 0 then a / b else -((-a) / b)
  }

  /** Times whose differences fit 64 bits. */
  predicate TimeOk(t: int) { -0x4000_0000_0000_0000 <= t < 0x4000_0000_0000_0000 }

  lemma TruncOk(t: int, s: int)
    requires TimeOk(t) && s > 0
    ensures TimeOk(Trunc(t, s)) && (t >= 0 ==> Trunc(t, s) >= 0)
  {
    Shrinks(if t >= 0 then t else -t, s);
  }

  lemma Shrinks(t: nat, s: nat)
    requires s > 0
    ensures 0 <= t / s <= t
  {
    Larger(1, s, t / s);
    DivMod(t, s);
    assert s * (t / s) == t / s * s;
  }

  /** Every frame refers to the one before it. */
  predicate Chained(fs: seq<Frame>) { forall k: nat :: k < |fs| ==> Linked(fs, k) }

  predicate Linked(fs: seq<Frame>, k: nat)
    requires k < |fs|
  {
    fs[k].prev == if k == 0 then 0 else fs[k - 1].tc
  }

  function LastTime(fs: seq<Frame>): int { if fs == [] then 0 else fs[|fs| - 1].tc }

  predicate Ordered(fs: seq<Frame>, prev: int) { Chained(fs) && prev == LastTime(fs) }

  lemma ChainMore(fs: seq<Frame>, f: Frame)
    requires Ordered(fs, f.prev)
    ensures Ordered(fs + [f], f.tc)
  {
    forall k: nat | k <= |fs|
      ensures Linked(fs + [f], k)
    {
      assert k < |fs| ==> Linked(fs, k);
    }
  }

  /** The file so far: the header, if there is one, and the closed clusters. */
  function Head(header: Option<Header>): Bytes
    requires header.Some? ==> HeaderOk(header.value)
  {
    if header == None then [] else HeaderBytes(header.value, NO_DURATION)
  }

  /** The offset of the duration is known if there is a header. */
  predicate HeaderAt(wrote: bool, header: Option<Header>, ptr: nat) {
    && (wrote <==> header.Some?)
    && (header.Some? ==> HeaderOk(header.value) && ptr == |BeforeDuration(header.value)|)
  }

  lemma HeaderOff(wrote: bool, header: Option<Header>, ptr: nat)
    requires HeaderAt(wrote, header, ptr)
    ensures wrote <==> header.Some?
  {
  }

  lemma HeaderOn(h: Header, ptr: nat)
    requires HeaderOk(h) && ptr == |BeforeDuration(h)|
    ensures HeaderAt(true, Some(h), ptr)
  {
  }

  predicate PartsOk(header: Option<Header>, ahead: nat, closed: seq<Cluster>) {
    && (header.Some? ==> HeaderOk(header.value))
    && ClustersOk(closed) && AllAnchored(closed) && ahead <= |closed| && (header == None ==> ahead == 0)
  }

  /** The file has clusters that were written before the header, the header and the later clusters. */
  function FileBytes(header: Option<Header>, ahead: nat, closed: seq<Cluster>): Bytes
    requires PartsOk(header, ahead, closed)
  {
    SerAll(ClusterList(closed[..ahead])) + Head(header) + SerAll(ClusterList(closed[ahead..]))
  }

  predicate Stored(file: Bytes, header: Option<Header>, ahead: nat, closed: seq<Cluster>) {
    PartsOk(header, ahead, closed) && file == FileBytes(header, ahead, closed)
  }

  /** A cluster under construction holds these frames. */
  predicate Holds(b: Bytes, base: int, fs: seq<Frame>, limit: nat) {
    FramesOk(base, fs) && b == ClusterData(base, fs) && |b| <= limit
  }

  predicate OpenOk(cluster: Option<Bytes>, base: int, fs: seq<Frame>, limit: nat) {
    match cluster
    case None => fs == []
    case Some(b) => Holds(b, base, fs, limit) && Anchored(Cluster(base, fs))
  }

  const MAX_CLUSTER: nat := 0x8fff_ffff

  lemma FramesMore(cs: seq<Cluster>, c: Cluster)
    ensures FramesOf(cs + [c]) == FramesOf(cs) + c.frames
  {
    assert (cs + [c])[..|cs|] == cs;
  }

  lemma ClustersMore(cs: seq<Cluster>, c: Cluster)
    requires ClustersOk(cs) && ClusterOk(c)
    ensures ClustersOk(cs + [c]) && ClusterList(cs + [c]) == ClusterList(cs) + [ClusterElem(c)]
  {
    hide ClusterOk, ClusterElem;
  }

  lemma {:induction false} StoreMore(
      file: Bytes, header: Option<Header>, ahead: nat, closed: seq<Cluster>, b: Bytes, c: Cluster)
    requires Stored(file, header, ahead, closed) && Holds(b, c.base, c.frames, MAX_CLUSTER) && Anchored(c)
    ensures Stored(file + (EncId(ID_CLUSTER) + EncSize(|b|) + b), header, ahead, closed + [c])
    ensures FramesOf(closed + [c]) == FramesOf(closed) + c.frames
    ensures Bases(closed + [c]) == Bases(closed) + [c.base]
  {
    hide Head, ClusterData, EncId, EncSize, FramesOk, SerAll, Ser, ClusterList, FramesOf;
    FramesMore(closed, c);
    ClustersMore(closed[ahead..], c);
    SerIs(ClusterElem(c));
    SerAllLast(ClusterList(closed[ahead..]), ClusterElem(c));
    assert (closed + [c])[..ahead] == closed[..ahead] && (closed + [c])[ahead..] == closed[ahead..] + [c];
  }

  /** The times at which the clusters begin. */
  function Bases(cs: seq<Cluster>): seq<int> { seq(|cs|, (k: nat) requires k < |cs| => cs[k].base) }

  /** How frames are put into clusters: the times at which clusters begin, and the size of the last one
      as long as it takes more frames. */
  datatype Layout = Layout(starts: seq<int>, size: Option<nat>)

  predicate FrameTimesOk(f: Frame) { TimeOk(f.tc) && TimeOk(f.prev) }

  predicate TimesOk(fs: seq<Frame>) { forall k :: 0 <= k < |fs| ==> FrameTimesOk(fs[k]) }

  /** The bytes of a cluster before its frames, and what a frame adds. */
  function TimeSize(t: int): nat
    requires TimeOk(t)
  {
    2 + |EncUInt(t)|
  }

  function FrameSize(f: Frame): nat
    requires FrameTimesOk(f)
  {
    var n := GroupSize(f, |EncSInt(f.prev - f.tc)|);
    1 + SizeSize(n) + n
  }

  /** A frame goes to the cluster that takes more if its time relative to that cluster fits 16 bits;
      otherwise it begins a cluster. */
  function Room(l: Layout, t: int): (r: Layout)
    requires TimeOk(t)
    ensures r.size.Some? && r.starts != []
  {
    if l.size.Some? && l.starts != [] && FitsDelta(t - l.starts[|l.starts| - 1]) then l
    else Layout(l.starts + [t], Some(TimeSize(t)))
  }

  /** With the frame in it, a cluster of more than CLSIZE bytes takes no more. */
  function Place(l: Layout, f: Frame): Layout
    requires FrameTimesOk(f)
  {
    var r := Room(l, f.tc);
    var size := r.size.value + FrameSize(f);
    Layout(r.starts, if size > CLSIZE then None else Some(size))
  }

  function LayoutOf(fs: seq<Frame>): Layout
    requires TimesOk(fs)
  {
    if fs == [] then Layout([], None) else Place(LayoutOf(fs[..|fs| - 1]), fs[|fs| - 1])
  }

  lemma LayoutMore(fs: seq<Frame>, f: Frame)
    requires TimesOk(fs) && FrameTimesOk(f)
    ensures TimesOk(fs + [f]) && LayoutOf(fs + [f]) == Place(LayoutOf(fs), f)
  {
    assert (fs + [f])[..|fs|] == fs;
  }

  /** A cluster of more than CLSIZE bytes takes no more frames. */
  predicate Full(c: Cluster) { ClusterOk(c) && |ClusterData(c.base, c.frames)| > CLSIZE }

  /** It did take its last frame. */
  predicate NotBefore(c: Cluster) {
    ClusterOk(c) && (c.frames != [] ==> |ClusterData(c.base, c.frames[..|c.frames| - 1])| <= CLSIZE)
  }

  /** The next cluster begins because this one is full or its time is too far away. */
  predicate Parted(c: Cluster, t: int) { Full(c) || t - c.base > 32767 || t - c.base < -32768 }

  /** No cluster ends too late or too early. */
  predicate Packed(cs: seq<Cluster>) {
    (forall k :: 0 <= k < |cs| ==> NotBefore(cs[k])) && forall k :: 0 < k < |cs| ==> Parted(cs[k - 1], cs[k].base)
  }

  predicate Follows(closed: seq<Cluster>, cluster: Option<Bytes>, base: int) {
    closed != [] ==>
      if cluster.Some? then Parted(closed[|closed| - 1], base) else Full(closed[|closed| - 1])
  }

  lemma FollowsStill(closed: seq<Cluster>, a: Bytes, b: Bytes, base: int)
    requires Follows(closed, Some(a), base)
    ensures Follows(closed, Some(b), base)
  {
  }

  lemma FollowsFull(closed: seq<Cluster>, c: Cluster, base: int)
    requires Full(c)
    ensures Follows(closed + [c], None, base)
  {
    hide Full;
  }

  lemma PackedMore(cs: seq<Cluster>, c: Cluster)
    requires Packed(cs) && NotBefore(c) && (cs != [] ==> Parted(cs[|cs| - 1], c.base))
    ensures Packed(cs + [c])
  {
    hide NotBefore, Parted;
  }

  /** The clusters are those that the layout of the frames says. */
  predicate Laid(fs: seq<Frame>, closed: seq<Cluster>, cluster: Option<Bytes>, base: int) {
    TimesOk(fs) && LayoutOf(fs) == LayoutIs(closed, cluster, base) && Packed(closed) && Follows(closed, cluster, base)
  }

  function LayoutIs(closed: seq<Cluster>, cluster: Option<Bytes>, base: int): Layout {
    match cluster
    case None => Layout(Bases(closed), None)
    case Some(b) => Layout(Bases(closed) + [base], Some(|b|))
  }

  lemma HoldsSize(b: Bytes, base: int, fs: seq<Frame>, limit: nat)
    requires Holds(b, base, fs, limit)
    ensures |b| <= limit
  {
  }

  /** As long as a cluster takes more frames none of its beginnings was full. */
  lemma {:induction false} HoldsShorter(b: Bytes, base: int, fs: seq<Frame>)
    requires Holds(b, base, fs, CLSIZE)
    ensures NotBefore(Cluster(base, fs))
  {
    hide ClusterData, Group, Ser, FrameOk;
    if fs != [] {
      var n := |fs| - 1;
      assert fs == fs[..n] + [fs[n]];
      ClusterMore(base, fs[..n], fs[n]);
    }
  }

  /** One frame later it may be. */
  lemma {:induction false} HoldsLonger(b: Bytes, b': Bytes, base: int, fs: seq<Frame>, f: Frame)
    requires Holds(b, base, fs, CLSIZE) && Holds(b', base, fs + [f], MAX_CLUSTER)
    ensures NotBefore(Cluster(base, fs + [f])) && (|b'| > CLSIZE ==> Full(Cluster(base, fs + [f])))
  {
    hide ClusterData, FramesOk;
    assert (fs + [f])[..|fs|] == fs;
  }

  lemma HoldsLimit(b: Bytes, base: int, fs: seq<Frame>, limit: nat, other: nat)
    requires Holds(b, base, fs, limit) && |b| <= other
    ensures Holds(b, base, fs, other)
  {
  }

  /** A cluster starts with its time. */
  lemma {:induction false} HoldsNew(tc: int)
    requires IsInt64(tc)
    ensures Holds(EncId(ID_TIMECODE) + EncSize(|EncUInt(tc)|) + EncUInt(tc), tc, [], 32)
    ensures |EncId(ID_TIMECODE) + EncSize(|EncUInt(tc)|) + EncUInt(tc)| == 2 + |EncUInt(tc)|
  {
    hide EncUInt;
    var e := Elem(ID_TIMECODE, EncUInt(tc));
    assert ClusterElems(tc, []) == [e];
    SerAllOne(e);
    SerBlockSize(e);
    SizeLength(|EncUInt(tc)|);
    IdLengths();
  }

  lemma {:induction false} HoldsMore(b: Bytes, base: int, fs: seq<Frame>, f: Frame)
    requires Holds(b, base, fs, CLSIZE) && FrameOk(base, f) && FrameTimesOk(f)
    ensures Holds(b + Ser(Group(base, f)), base, fs + [f], MAX_CLUSTER)
    ensures |b + Ser(Group(base, f))| == |b| + FrameSize(f)
  {
    hide ClusterData, Group, Ser, GroupElems, GroupSize, FrameSize;
    ClusterMore(base, fs, f);
    GroupBytes(base, f);
  }

  lemma SizeLength(n: nat)
    requires n < 0x1_0000_0000
    ensures |EncSize(n)| == SizeSize(n)
  {
  }

  lemma IdLengths()
    ensures |EncId(ID_GROUP)| == 1 && |EncId(ID_TIMECODE)| == 1 && |EncId(ID_CLUSTER)| == 4 && |EncId(ID_EBML)| == 4
  {
  }

  lemma {:induction false} GroupBytes(base: int, f: Frame)
    requires FrameOk(base, f) && FrameTimesOk(f)
    ensures |Ser(Group(base, f))| == FrameSize(f) <= 0x7fff_0010
  {
    hide GroupElems, GroupSize, SerAll;
    GroupSizeIs(base, f);
    SerBlockSize(Group(base, f));
    SizeLength(GroupSize(f, |EncSInt(f.prev - f.tc)|));
    IdLengths();
  }

  /** mk_writeStr and mk_writeBin, and mk_closeContext on the context above. */
  method AppendElem(c: Bytes, ghost es: seq<Elem>, id: nat, data: Bytes) returns (r: Bytes)
    requires AllOk(es) && c == SerAll(es) && ElemOk(Elem(id, data))
    ensures AllOk(es + [Elem(id, data)]) && r == SerAll(es + [Elem(id, data)])
  {
    hide EncId, EncSize, SerAll;
    SerAllLast(es, Elem(id, data));
    var size := WriteSize(|data|);
    r := c + EncId(id) + size + data;
    assert r == c + (EncId(id) + size + data);
  }

  /** mk_writeUInt */
  method AppendUInt(c: Bytes, ghost es: seq<Elem>, id: nat, v: int) returns (r: Bytes)
    requires AllOk(es) && c == SerAll(es) && ValidId(id) && IsInt64(v)
    ensures AllOk(es + [UInt(id, v)]) && r == SerAll(es + [UInt(id, v)])
  {
    var b := WriteUInt(v);
    r := AppendElem(c, es, id, b);
  }

  lemma SerIs(e: Elem)
    requires ElemOk(e)
    ensures Ser(e) == EncId(e.id) + EncSize(|e.data|) + e.data
  {
  }

  lemma RefOk(r: Bytes)
    requires |r| <= 8
    ensures ElemOk(Elem(ID_REFERENCE, r))
  {
  }

  /** The bytes of a block group, piece by piece. */
  lemma {:induction false} GroupIs(base: int, f: Frame)
    requires FrameOk(base, f)
    ensures Ser(Group(base, f)) == EncId(ID_GROUP) + EncSize(GroupSize(f, |EncSInt(f.prev - f.tc)|)) +
            SerAll(GroupElems(base, f))
    ensures ElemOk(Elem(ID_BLOCK, BlockData(f.tc - base, f.data))) && ElemOk(Elem(ID_REFERENCE, EncSInt(f.prev - f.tc)))
    ensures SerAll(GroupElems(base, f)) ==
            Ser(Elem(ID_BLOCK, BlockData(f.tc - base, f.data)))
            + if f.key then [] else Ser(Elem(ID_REFERENCE, EncSInt(f.prev - f.tc)))
  {
    hide EncId, EncSize, EncSInt, BigEndian, SerAll, BlockData, GroupSize, ElemOk, Ser;
    GroupSizeIs(base, f);
    SerIs(Group(base, f));
    BlockBytes(f.tc - base, f.data);
    RefOk(EncSInt(f.prev - f.tc));
    var block := Elem(ID_BLOCK, BlockData(f.tc - base, f.data));
    SerAllOne(block);
    if f.key {
      assert GroupElems(base, f) == [block];
    } else {
      SerAllLast([block], Elem(ID_REFERENCE, EncSInt(f.prev - f.tc)));
    }
  }

  /** The part of mk_flushFrame that writes a block group, with the size computed in advance. */
  method WriteGroup(ghost f: Frame, ghost base: int, delta: int, key: bool, ref: int, data: Bytes) returns (b: Bytes)
    requires FrameOk(base, f) && delta == f.tc - base && key == f.key && data == f.data
    requires !key ==> ref == f.prev - f.tc
    ensures b == Ser(Group(base, f))
  {
    hide EncId, EncSize, EncSInt, BigEndian, Ser, SerAll, Group, GroupElems, BlockData;
    GroupSizeIs(base, f);
    GroupIs(base, f);
    var bgsize := |data| + 4 + SizeSize(|data| + 4) + 1;
    if !key {
      var n := SIntSize(ref);
      bgsize := bgsize + 1 + 1 + n;
    }
    var size := WriteSize(bgsize);
    b := EncId(ID_GROUP) + size;
    size := WriteSize(|data| + 4);
    var track := WriteSize(1);
    TrackOne();
    var inner := EncId(ID_BLOCK) + size + track;
    inner := inner + (BigEndian(Bits16(delta), 2) + [0]);
    inner := inner + data;
    BlockBytes(delta, data);
    if !key {
      var r := WriteSInt(ref);
      size := WriteSize(|r|);
      SerIs(Elem(ID_REFERENCE, r));
      inner := inner + (EncId(ID_REFERENCE) + size + r);
    }
    b := b + inner;
  }

  /** The track number is written like a size. */
  lemma TrackOne()
    ensures EncSize(1) == [0x81]
  {
    PowTable();
    assert BigEndian(0x81, 1) == [0x81] + BigEndian(0, 0);
  }

  lemma BlockBytes(d: int, data: Bytes)
    requires FitsDelta(d) && |data| <= MAX_FRAME
    ensures ElemOk(Elem(ID_BLOCK, BlockData(d, data))) && |BlockData(d, data)| == |data| + 4
    ensures EncId(ID_BLOCK) + EncSize(|data| + 4) + [0x81] + (BigEndian(Bits16(d), 2) + [0]) + data ==
            Ser(Elem(ID_BLOCK, BlockData(d, data)))
  {
    hide EncId, EncSize, BigEndian;
    var a, b, c := EncId(ID_BLOCK) + EncSize(|data| + 4), BigEndian(Bits16(d), 2), data;
    assert a + [0x81] + (b + [0]) + c == a + ([0x81] + b + [0] + c);
  }

  /** What holds of a writer that has not been called. */
  lemma NothingYet()
    ensures Stored([], None, 0, []) && Laid([], [], None, 0) && Ordered([], 0) && HeaderAt(false, None, 0)
    ensures OpenOk(None, 0, [], CLSIZE) && TimeOk(0) && FramesOf([]) == []
  {
    SerAllNone();
    NoClusters();
    var none: seq<Cluster> := [];
    assert none[..0] == [] && none[0..] == [];
  }

  class Writer {
    var file: Bytes
    var root: Bytes
    var cluster: Option<Bytes>
    var frame: Bytes
    var durationPtr: nat
    var defDuration: int
    var timescale: int
    var clusterTime: int
    var frameTime: int
    var prevTime: int
    var maxTime: int
    var wroteHeader: bool
    var inFrame: bool
    var keyframe: bool

    /** Histories: the header, the clusters written, how many of them before the header, the frames of the
        cluster that is open. */
    ghost var header: Option<Header>
    ghost var closed: seq<Cluster>
    ghost var ahead: nat
    ghost var open: seq<Frame>

    /** All frames that have left the frame buffer. */
    ghost function Frames(): seq<Frame>
      reads this
    {
      FramesOf(closed) + open
    }

    /** The frame that mk_flushFrame will write. */
    ghost function Pending(): Frame
      requires timescale > 0
      reads this
    {
      Frame(Trunc(frameTime, timescale), keyframe, prevTime, frame)
    }

    ghost predicate Valid()
      reads this
    {
      && timescale > 0 && root == [] && Stored(file, header, ahead, closed)
      && TimeOk(frameTime) && TimeOk(prevTime) && TimeOk(clusterTime) && |frame| <= MAX_FRAME
      && OpenOk(cluster, clusterTime, open, CLSIZE)
      && Ordered(Frames(), prevTime) && HeaderAt(wroteHeader, header, durationPtr)
      && Laid(Frames(), closed, cluster, clusterTime)
    }

    /** mk_createWriter */
    constructor ()
      ensures Valid() && Frames() == [] && file == []
      ensures !wroteHeader && !inFrame && maxTime == 0 && frame == [] && timescale == 1000000 && closed == []
    {
      file, root, cluster, frame, durationPtr, defDuration, timescale := [], [], None, [], 0, 0, 1000000;
      clusterTime, frameTime, prevTime, maxTime := 0, 0, 0, 0;
      wroteHeader, inFrame, keyframe := false, false, false;
      header, closed, ahead, open := None, [], 0, [];
      new;
      hide Stored, Laid, Ordered, HeaderAt, FramesOf, OpenOk, TimeOk;
      NothingYet();
    }

    /** mk_closeCluster */
    method CloseCluster()
      requires root == [] && Stored(file, header, ahead, closed) && OpenOk(cluster, clusterTime, open, MAX_CLUSTER)
      requires Packed(closed) && Follows(closed, cluster, clusterTime)
      requires cluster.Some? ==> NotBefore(Cluster(clusterTime, open))
      modifies this`file, this`root, this`cluster, this`closed, this`open
      ensures Packed(closed)
      ensures root == [] && Stored(file, header, ahead, closed) && cluster == None && open == []
      ensures Frames() == old(Frames())
      ensures closed == old(closed) + if old(cluster) == None then [] else [Cluster(clusterTime, old(open))]
      ensures Bases(closed) == old(LayoutIs(closed, cluster, clusterTime)).starts
    {
      hide Stored, Holds, FramesOf, EncId, EncSize, Packed, NotBefore, Full;
      if cluster == None {
        return;
      }
      PackedMore(closed, Cluster(clusterTime, open));
      StoreMore(file, header, ahead, closed, cluster.value, Cluster(clusterTime, open));
      HoldsSize(cluster.value, clusterTime, open, MAX_CLUSTER);
      var size := WriteSize(|cluster.value|);
      root := root + (EncId(ID_CLUSTER) + size);
      root := root + cluster.value;
      assert root == EncId(ID_CLUSTER) + EncSize(|cluster.value|) + cluster.value;
      file := file + root;
      root, cluster := [], None;
      closed, open := closed + [Cluster(clusterTime, open)], [];
    }

    /** mk_writeHeader. The place of the duration is counted from the beginning of the header. */
    method WriteHeader(h: Header) returns (ok: bool)
      requires Valid() && HeaderOk(h)
      modifies this`file, this`root, this`timescale, this`defDuration, this`durationPtr, this`wroteHeader
      modifies this`header, this`ahead
      ensures Valid() && wroteHeader && ok == !old(wroteHeader)
      ensures !ok ==> header == old(header) && timescale == old(timescale) && defDuration == old(defDuration)
      ensures !ok ==> file == old(file) && ahead == old(ahead)
      ensures ok ==> header == Some(h) && timescale == h.timescale && defDuration == h.frameDuration
      ensures ok ==> file == old(file) + HeaderBytes(h, NO_DURATION) && ahead == |closed|
      ensures Frames() == old(Frames())
    {
      hide Stored, HeaderOk, HeaderBytes, BeforeDuration, FramesOf, OpenOk, Ordered, TimeOk, Laid, HeaderAt;
      HeaderOff(wroteHeader, header, durationPtr);
      ok := !wroteHeader;
      if ok {
        PutHeader(h);
      }
    }

    method PutHeader(h: Header)
      requires root == [] && HeaderOk(h) && Stored(file, None, ahead, closed)
      modifies this`file, this`root, this`timescale, this`defDuration, this`durationPtr, this`wroteHeader
      modifies this`header, this`ahead
      ensures root == [] && Stored(file, header, ahead, closed) && HeaderAt(wroteHeader, header, durationPtr)
      ensures wroteHeader && header == Some(h) && timescale == h.timescale > 0 && defDuration == h.frameDuration
      ensures file == old(file) + HeaderBytes(h, NO_DURATION) && ahead == |closed|
    {
      hide Stored, HeaderOk, HeaderBytes, BeforeDuration, HeaderAt;
      StoredHeader(file, ahead, closed, h);
      TimescaleOk(h);
      timescale, defDuration := h.timescale, h.frameDuration;
      var b, p := BuildHeader(h);
      root := root + b;
      assert root == b;
      durationPtr := p;
      file := file + root;
      root := [];
      wroteHeader := true;
      header, ahead := Some(h), |closed|;
      HeaderOn(h, p);
    }

    /** The first part of mk_flushFrame: a cluster that can take the frame, and the time in it. */
    method MakeRoom() returns (delta: int)
      requires Valid()
      modifies this`file, this`root, this`cluster, this`closed, this`open, this`clusterTime
      ensures root == [] && Stored(file, header, ahead, closed) && Frames() == old(Frames()) && TimeOk(clusterTime)
      ensures cluster.Some? && Holds(cluster.value, clusterTime, open, CLSIZE)
      ensures delta == Trunc(frameTime, timescale) - clusterTime && FitsDelta(delta)
      ensures if open == [] then delta == 0 else Anchored(Cluster(clusterTime, open))
      ensures TimesOk(Frames()) && TimeOk(Trunc(frameTime, timescale))
      ensures LayoutIs(closed, cluster, clusterTime) == Room(LayoutOf(Frames()), Trunc(frameTime, timescale))
      ensures Packed(closed) && Follows(closed, cluster, clusterTime)
    {
      hide Stored, Holds, FramesOf, EncId, EncSize, EncUInt, Chained, LastTime, BeforeDuration, LayoutOf, TimesOk;
      hide Trunc, Packed, NotBefore, Full;
      ghost var l := LayoutOf(Frames());
      assert l == LayoutIs(closed, cluster, clusterTime);
      TruncOk(frameTime, timescale);
      delta := Trunc(frameTime, timescale) - clusterTime;
      if delta > 32767 || delta < -32768 {
        if cluster.Some? {
          HoldsSize(cluster.value, clusterTime, open, CLSIZE);
          HoldsLimit(cluster.value, clusterTime, open, CLSIZE, MAX_CLUSTER);
          HoldsShorter(cluster.value, clusterTime, open);
        }
        CloseCluster();
      }
      if cluster == None {
        clusterTime := Trunc(frameTime, timescale);
        var time := WriteUInt(clusterTime);
        var size := WriteSize(|time|);
        HoldsNew(clusterTime);
        cluster := Some(EncId(ID_TIMECODE) + size + time);
        HoldsSize(cluster.value, clusterTime, [], 32);
        HoldsLimit(cluster.value, clusterTime, [], 32, CLSIZE);
        delta := 0;
      }
    }

    /** The second part: the frame joins the cluster. */
    method AppendFrame(ghost f: Frame, delta: int)
      requires cluster.Some? && Holds(cluster.value, clusterTime, open, CLSIZE) && FrameOk(clusterTime, f)
      requires FrameTimesOk(f)
      requires delta == f.tc - clusterTime && f.key == keyframe && f.prev == prevTime && f.data == frame
      requires if open == [] then delta == 0 else Anchored(Cluster(clusterTime, open))
      modifies this`cluster, this`open, this`frame, this`inFrame, this`prevTime
      ensures cluster.Some? && Holds(cluster.value, clusterTime, open, MAX_CLUSTER)
      ensures Anchored(Cluster(clusterTime, open))
      ensures Frames() == old(Frames()) + [f] && open == old(open) + [f]
      ensures NotBefore(Cluster(clusterTime, open)) && (|cluster.value| > CLSIZE ==> Full(Cluster(clusterTime, open)))
      ensures !inFrame && frame == [] && prevTime == f.tc && |cluster.value| == |old(cluster).value| + FrameSize(f)
    {
      hide Holds, FramesOf, Group, Ser, FrameOk, FrameSize, TimeOk, NotBefore, Full;
      var ref := if keyframe then 0 else prevTime - clusterTime - delta;
      HoldsMore(cluster.value, clusterTime, open, f);
      var group := WriteGroup(f, clusterTime, delta, keyframe, ref, frame);
      HoldsLonger(cluster.value, cluster.value + group, clusterTime, open, f);
      cluster := Some(cluster.value + group);
      assert FramesOf(closed) + (open + [f]) == FramesOf(closed) + open + [f];
      open := open + [f];
      frame, inFrame, prevTime := [], false, clusterTime + delta;
    }

    /** mk_flushFrame: the frame that was collected is written, once, behind the others. */
    method FlushFrame()
      requires Valid()
      modifies this`file, this`root, this`cluster, this`closed, this`open, this`clusterTime, this`frame, this`inFrame
      modifies this`prevTime
      ensures Valid() && !inFrame
      ensures old(inFrame) ==> Frames() == old(Frames()) + [old(Pending())] && frame == []
      ensures !old(inFrame) ==> Frames() == old(Frames()) && frame == old(frame)
    {
      hide Stored, Holds, FramesOf, Ordered, HeaderAt, Trunc, FrameOk, TimeOk, Room, LayoutOf, TimesOk, FrameSize;
      hide Bases, Packed, NotBefore, Full, Follows;
      if !inFrame {
        return;
      }
      ghost var f := Pending();
      TruncOk(frameTime, timescale);
      ChainMore(Frames(), f);
      LayoutMore(Frames(), f);
      var delta := MakeRoom();
      FrameFits(clusterTime, f);
      ghost var before := cluster.value;
      AppendFrame(f, delta);
      FollowsStill(closed, before, cluster.value, clusterTime);
      if |cluster.value| > CLSIZE {
        FollowsFull(closed, Cluster(clusterTime, open), clusterTime);
        CloseCluster();
      } else {
        HoldsLimit(cluster.value, clusterTime, open, MAX_CLUSTER, CLSIZE);
      }
    }

    /** mk_startFrame */
    method StartFrame()
      requires Valid()
      modifies this`file, this`root, this`cluster, this`closed, this`open, this`clusterTime, this`frame, this`inFrame
      modifies this`prevTime
      modifies this`keyframe
      ensures Valid() && inFrame && !keyframe
      ensures old(inFrame) ==> Frames() == old(Frames()) + [old(Pending())] && frame == []
      ensures !old(inFrame) ==> Frames() == old(Frames()) && frame == old(frame)
    {
      hide Stored, OpenOk, FramesOf, Chained, LastTime, BeforeDuration, Trunc, Laid;
      FlushFrame();
      inFrame, keyframe := true, false;
    }

    /** mk_setFrameFlags */
    method SetFrameFlags(time: int, key: bool) returns (ok: bool)
      requires Valid() && TimeOk(time)
      modifies this`frameTime, this`keyframe, this`maxTime
      ensures Valid() && ok == inFrame && Frames() == old(Frames())
      ensures ok ==>
              frameTime == time && keyframe == key && maxTime == if old(maxTime) < time then time else old(maxTime)
      ensures !ok ==> frameTime == old(frameTime) && keyframe == old(keyframe) && maxTime == old(maxTime)
    {
      hide Stored, OpenOk, FramesOf, Chained, LastTime, BeforeDuration, Laid;
      if !inFrame {
        return false;
      }
      frameTime, keyframe := time, key;
      if maxTime < time {
        maxTime := time;
      }
      ok := true;
    }

    /** mk_addFrameData */
    method AddFrameData(data: Bytes) returns (ok: bool)
      requires Valid() && |frame| + |data| <= MAX_FRAME
      modifies this`frame
      ensures Valid() && ok == inFrame && Frames() == old(Frames()) && frame == old(frame) + if ok then data else []
    {
      hide Stored, OpenOk, FramesOf, Chained, LastTime, BeforeDuration, Laid;
      if !inFrame {
        return false;
      }
      frame := frame + data;
      ok := true;
    }

    /** mk_close: the last frame and cluster are written; if there is a header, the duration is written
        over four bytes of the file, those of the header if nothing is in front of it. */
    method Close(toFloat: (int, int) -> Bytes)
      requires Valid() && forall t, s :: |toFloat(t, s)| == 4
      modifies this
      ensures header == old(header) && ahead == old(ahead)
      ensures Frames() == old(Frames()) + if old(inFrame) then [old(Pending())] else []
      ensures FramesOf(closed) == Frames() && Chained(Frames())
      ensures TimesOk(Frames()) && Bases(closed) == LayoutOf(Frames()).starts && Packed(closed)
      ensures Finished(file, header, ahead, closed, toFloat(old(maxTime) + old(defDuration), old(timescale)))
    {
      hide Holds, FramesOf, Chained, LastTime, BeforeDuration, Overwrite, Stored, Finished, LayoutOf, TimesOk, Bases;
      hide Packed, NotBefore, Full;
      FlushFrame();
      if cluster.Some? {
        HoldsSize(cluster.value, clusterTime, open, CLSIZE);
        HoldsLimit(cluster.value, clusterTime, open, CLSIZE, MAX_CLUSTER);
        HoldsShorter(cluster.value, clusterTime, open);
      }
      CloseCluster();
      assert Frames() == FramesOf(closed);
      var d := toFloat(maxTime + defDuration, timescale);
      Finish(file, header, ahead, closed, d);
      if wroteHeader {
        root := d;
        file := Overwrite(file, durationPtr, root);
        root := [];
      }
    }
  }

  /** The closed file: the clusters, the header among them, and the duration written over the place that
      it has in a file that starts with the header. */
  predicate Finished(file: Bytes, header: Option<Header>, ahead: nat, closed: seq<Cluster>, d: Bytes)
    requires |d| == 4
  {
    PartsOk(header, ahead, closed) &&
    var before := FileBytes(header, ahead, closed);
    match header
    case None => file == before
    case Some(h) => |BeforeDuration(h)| + 4 <= |before| && file == Overwrite(before, |BeforeDuration(h)|, d)
  }

  lemma {:induction false} Finish(file: Bytes, header: Option<Header>, ahead: nat, closed: seq<Cluster>, d: Bytes)
    requires Stored(file, header, ahead, closed) && |d| == 4
    ensures header == None ==> Finished(file, header, ahead, closed, d)
    ensures header.Some? ==>
              && HeaderOk(header.value) && |BeforeDuration(header.value)| + 4 <= |file|
              && Finished(Overwrite(file, |BeforeDuration(header.value)|, d), header, ahead, closed, d)
  {
    hide BeforeDuration, Overwrite, HeaderBytes, SerAll, ClusterList, HeaderOk;
    if header.Some? {
      var h := header.value;
      PatchDuration(h, NO_DURATION, d, []);
    }
  }

  /** With the header in front the duration ends up in it. */
  lemma {:induction false} FinishedPatched(file: Bytes, h: Header, closed: seq<Cluster>, d: Bytes)
    requires |d| == 4 && Finished(file, Some(h), 0, closed, d)
    ensures HeaderOk(h) && ClustersOk(closed) && AllAnchored(closed)
    ensures file == HeaderBytes(h, d) + SerAll(ClusterList(closed))
  {
    hide BeforeDuration, Overwrite, HeaderBytes, SerAll, ClusterList, HeaderOk;
    var before := FileBytes(Some(h), 0, closed);
    assert closed[..0] == [] && closed[0..] == closed && ClusterList([]) == [];
    SerAllNone();
    assert before == HeaderBytes(h, NO_DURATION) + SerAll(ClusterList(closed));
    PatchDuration(h, NO_DURATION, d, SerAll(ClusterList(closed)));
  }

  lemma {:induction false} LateHeader(file: Bytes, h: Header, ahead: nat, closed: seq<Cluster>, d: Bytes)
    requires |d| == 4 && Finished(file, Some(h), ahead, closed, d) && ahead > 0
    ensures exists rest: Bytes :: file == EncId(ID_CLUSTER) + rest
  {
    hide BeforeDuration, Overwrite, HeaderBytes, SerAll, Ser, EncId, ClusterData, HeaderOk;
    var before := FileBytes(Some(h), ahead, closed);
    var es := ClusterList(closed[..ahead]);
    var id, rest := StartsWithId(es);
    assert es[0].id == ID_CLUSTER;
    var tail := Head(Some(h)) + SerAll(ClusterList(closed[ahead..]));
    assert before == id + (rest + tail);
    LongBefore(h);
    IdLengths();
    StartKept(id, rest + tail, |BeforeDuration(h)|, d);
  }

  lemma {:induction false} StartsWithId(es: seq<Elem>) returns (id: Bytes, rest: Bytes)
    requires AllOk(es) && es != []
    ensures id == EncId(es[0].id) && SerAll(es) == id + rest
  {
    hide SerAll, Ser, EncId, EncSize;
    assert es == [es[0]] + es[1..];
    SerAllAppend([es[0]], es[1..]);
    SerAllOne(es[0]);
    SerIs(es[0]);
    id, rest := EncId(es[0].id), EncSize(|es[0].data|) + es[0].data + SerAll(es[1..]);
  }

  lemma LongBefore(h: Header)
    requires HeaderOk(h)
    ensures |BeforeDuration(h)| >= 4
  {
    hide EncId, EncSize, SerAll, InfoStart, Info, EbmlElems;
    SerIs(EbmlElem());
    IdLengths();
  }

  lemma StartKept(id: Bytes, rest: Bytes, pos: nat, d: Bytes)
    requires |id| <= pos && pos + |d| <= |id + rest|
    ensures exists r: Bytes :: Overwrite(id + rest, pos, d) == id + r
  {
    assert Overwrite(id + rest, pos, d) == id + Overwrite(id + rest, pos, d)[|id|..];
  }

  /** A reader finds all frames of the file, with their times, exactly if the header was written before
      any cluster and no cluster starts before zero. */
  lemma {:induction false} FinishedRecovers(file: Bytes, h: Header, ahead: nat, closed: seq<Cluster>, d: Bytes)
    requires |d| == 4 && Finished(file, Some(h), ahead, closed, d)
    ensures HeaderOk(h) && (Recovers(file, h, d, FramesOf(closed)) <==> ahead == 0 && StartsOk(closed))
  {
    hide HeaderBytes, SerAll, ClusterList, HeaderOk, StartsOk, FramesOf, AllAnchored, EncId;
    if ahead == 0 {
      hide Recovers, Finished;
      FinishedPatched(file, h, closed, d);
      FileRoundTrip(h, d, closed);
    } else {
      LateUnread(file, h, ahead, closed, d);
    }
  }

  /** Behind a cluster the header is not found, nor anything else. */
  lemma {:induction false} LateUnread(file: Bytes, h: Header, ahead: nat, closed: seq<Cluster>, d: Bytes)
    requires |d| == 4 && Finished(file, Some(h), ahead, closed, d) && ahead > 0
    ensures ReadFile(file) == None
  {
    hide EncId, ReadFile, Finished;
    LateHeader(file, h, ahead, closed, d);
    var rest: Bytes :| file == EncId(ID_CLUSTER) + rest;
    NoEbml(rest);
  }

  lemma {:induction false} NoEbml(rest: Bytes)
    ensures ReadFile(EncId(ID_CLUSTER) + rest) == None
  {
    hide EncId, ReadId, ReadSize;
    IdRoundTrip(ID_CLUSTER, rest);
  }

  lemma FrameFits(base: int, f: Frame)
    requires FitsDelta(f.tc - base) && |f.data| <= MAX_FRAME && TimeOk(f.tc) && TimeOk(f.prev)
    ensures FrameOk(base, f)
  {
  }

  lemma NoClusters()
    ensures ClustersOk([]) && SerAll(ClusterList([])) == []
  {
    SerAllNone();
    assert ClusterList([]) == [];
  }

  lemma {:induction false} StoredHeader(file: Bytes, ahead: nat, closed: seq<Cluster>, h: Header)
    requires Stored(file, None, ahead, closed) && HeaderOk(h)
    ensures Stored(file + HeaderBytes(h, NO_DURATION), Some(h), |closed|, closed)
  {
    hide HeaderBytes, HeaderOk, SerAll, ClusterList, ClustersOk, AllAnchored;
    NoClusters();
    assert closed[..0] == [] && closed[0..] == closed && closed[..|closed|] == closed && closed[|closed|..] == [];
    assert file == SerAll(ClusterList(closed));
    assert file + HeaderBytes(h, NO_DURATION) + [] == file + HeaderBytes(h, NO_DURATION);
  }

  /** The bytes of the header and where the duration is. */
  method BuildHeader(h: Header) returns (root: Bytes, p: nat)
    requires HeaderOk(h)
    ensures root == HeaderBytes(h, NO_DURATION) && p == |BeforeDuration(h)|
  {
    hide EncId, EncSize, SerAll, Ser, EbmlElem, InfoStart, Info, Tracks;
    Ids(h);
    var ebml := EbmlContext();
    var info := InfoContext(h);
    var tracks := TracksContext(h);
    SerIs(EbmlElem());
    SerIs(Info(h, NO_DURATION));
    SerIs(Tracks(h));
    InfoBytes(h, NO_DURATION);
    var size := WriteSize(|ebml|);
    root := EncId(ID_EBML) + size + ebml;
    root := root + (EncId(ID_SEGMENT) + [0xff]);
    size := WriteSize(|info|);
    var start := root + EncId(ID_INFO) + size;
    p := |info| - 4 + |start|;
    assert start + info == root + (EncId(ID_INFO) + size + info);
    root := start + info;
    size := WriteSize(|tracks|);
    root := root + (EncId(ID_TRACKS) + size + tracks);
  }

  lemma Ids(h: Header)
    requires HeaderOk(h)
    ensures EbmlElem().id == ID_EBML && Info(h, NO_DURATION).id == ID_INFO && Tracks(h).id == ID_TRACKS
  {
  }

  method EbmlContext() returns (c: Bytes)
    ensures c == EbmlElem().data
  {
    hide UInt, SerAll, AllOk;
    SerAllNone();
    c := AppendUInt([], [], 0x4286, 1);
    ghost var es := [] + [UInt(0x4286, 1)];
    c := AppendUInt(c, es, 0x42f7, 1);
    es := es + [UInt(0x42f7, 1)];
    c := AppendUInt(c, es, 0x42f2, 4);
    es := es + [UInt(0x42f2, 4)];
    c := AppendUInt(c, es, 0x42f3, 8);
    es := es + [UInt(0x42f3, 8)];
    c := AppendElem(c, es, 0x4282, DOC_TYPE);
    es := es + [Elem(0x4282, DOC_TYPE)];
    c := AppendUInt(c, es, 0x4287, 1);
    es := es + [UInt(0x4287, 1)];
    c := AppendUInt(c, es, 0x4285, 1);
    es := es + [UInt(0x4285, 1)];
    assert es == EbmlElems();
  }

  method InfoContext(h: Header) returns (c: Bytes)
    requires HeaderOk(h)
    ensures c == Info(h, NO_DURATION).data
  {
    hide UInt, SerAll;
    SerAllNone();
    c := AppendElem([], [], 0x4d80, MUXING_APP);
    ghost var es := [] + [Elem(0x4d80, MUXING_APP)];
    c := AppendElem(c, es, 0x5741, h.app);
    es := es + [Elem(0x5741, h.app)];
    c := AppendUInt(c, es, 0x2ad7b1, h.timescale);
    es := es + [UInt(0x2ad7b1, h.timescale)];
    assert es == InfoStart(h);
    c := AppendElem(c, es, 0x4489, NO_DURATION);
  }

  method VideoContext(h: Header) returns (c: Bytes)
    requires HeaderOk(h)
    ensures c == Video(h).data
  {
    hide UInt, SerAll, AllOk;
    SerAllNone();
    c := AppendUInt([], [], 0xb0, h.width);
    ghost var es := [] + [UInt(0xb0, h.width)];
    c := AppendUInt(c, es, 0xba, h.height);
    es := es + [UInt(0xba, h.height)];
    c := AppendUInt(c, es, 0x54b0, h.dWidth);
    es := es + [UInt(0x54b0, h.dWidth)];
    c := AppendUInt(c, es, 0x54ba, h.dHeight);
    es := es + [UInt(0x54ba, h.dHeight)];
    assert es == VideoElems(h);
  }

  method TrackContext(h: Header) returns (c: Bytes, ghost es: seq<Elem>)
    requires HeaderOk(h)
    ensures AllOk(es) && c == SerAll(es) && es == TrackFixed(h)
  {
    hide UInt, SerAll, AllOk;
    SerAllNone();
    c := AppendUInt([], [], 0xd7, 1);
    es := [] + [UInt(0xd7, 1)];
    c := AppendUInt(c, es, 0x73c5, 1);
    es := es + [UInt(0x73c5, 1)];
    c := AppendUInt(c, es, 0x83, 1);
    es := es + [UInt(0x83, 1)];
    c := AppendUInt(c, es, 0x9c, 0);
    es := es + [UInt(0x9c, 0)];
    c := AppendElem(c, es, 0x86, h.codecId);
    es := es + [Elem(0x86, h.codecId)];
  }

  method TracksContext(h: Header) returns (c: Bytes)
    requires HeaderOk(h)
    ensures c == Tracks(h).data
  {
    hide UInt, SerAll, AllOk, TrackFixed, Video;
    ghost var es;
    c, es := TrackContext(h);
    if h.private != [] {
      c := AppendElem(c, es, 0x63a2, h.private);
      es := es + [Elem(0x63a2, h.private)];
    }
    if h.frameDuration != 0 {
      c := AppendUInt(c, es, 0x23e383, h.frameDuration);
      es := es + [UInt(0x23e383, h.frameDuration)];
    }
    assert es == TrackFixed(h) + TrackOptional(h);
    var v := VideoContext(h);
    VideoOk(h);
    c := AppendElem(c, es, 0xe0, v);
    EntryOk(h);
    SerAllNone();
    c := AppendElem([], [], 0xae, c);
    assert [] + [Elem(0xae, SerAll(TrackElems(h)))] == [Elem(0xae, SerAll(TrackElems(h)))];
  }

  lemma EntryOk(h: Header)
    requires HeaderOk(h)
    ensures AllOk(TrackElems(h)) && ElemOk(Elem(0xae, SerAll(TrackElems(h)))) && AllOk([])
  {
    hide TrackElems;
    SmallTracks(h);
    SerAllSmall(TrackElems(h), 8, MAX_STRING);
  }

  lemma VideoOk(h: Header)
    requires HeaderOk(h)
    ensures ElemOk(Video(h)) && Video(h).id == 0xe0
  {
    SmallVideo(h);
    SerAllSmall(VideoElems(h), 4, 8);
  }

  /** A session: what the front end does for every frame. */
  datatype Input = Input(time: int, key: bool, pieces: seq<Bytes>)

  predicate InputOk(i: Input) { TimeOk(i.time) && |Concat(i.pieces)| <= MAX_FRAME }

  predicate InputsOk(ins: seq<Input>) { forall k :: 0 <= k < |ins| ==> InputOk(ins[k]) }

  predicate NoneNegative(ins: seq<Input>) { forall k :: 0 <= k < |ins| ==> ins[k].time >= 0 }

  lemma TimescaleOk(h: Header)
    requires HeaderOk(h)
    ensures h.timescale > 0
  {
  }

  /** The frames a reader should find. */
  function Expected(ins: seq<Input>, scale: int): seq<Frame>
    requires scale > 0
  {
    if ins == [] then []
    else
      var before, i := Expected(ins[..|ins| - 1], scale), ins[|ins| - 1];
      before + [Frame(Trunc(i.time, scale), i.key, LastTime(before), Concat(i.pieces))]
  }

  lemma QuotientIs(n: nat, b: nat)
    requires b > 0
    ensures n / b >= 0 && n / b * b <= n < (n / b + 1) * b
  {
    DivMod(n, b);
    assert (n / b + 1) * b == n / b * b + b;
  }

  lemma Negated(q: int, b: int)
    ensures -q * b == -(q * b) && (-q - 1) * b == -((q + 1) * b)
  {
  }

  /** The quotient of a division toward zero. */
  lemma TruncIs(a: int, b: int)
    requires b > 0
    ensures a >= 0 ==> Trunc(a, b) >= 0 && Trunc(a, b) * b <= a < (Trunc(a, b) + 1) * b
    ensures a <= 0 ==> Trunc(a, b) <= 0 && (Trunc(a, b) - 1) * b < a <= Trunc(a, b) * b
  {
    if a >= 0 {
      QuotientIs(a, b);
    } else {
      QuotientIs(-a, b);
      Negated(-a / b, b);
    }
  }

  /** The frames that a session is to leave, one by one: the time in units of the time scale, the key flag, the
      data of all pieces, and the time of the frame before. */
  lemma {:induction false} ExpectedAre(ins: seq<Input>, scale: int, k: nat)
    requires scale > 0 && k < |ins|
    ensures |Expected(ins, scale)| == |ins|
    ensures var f, i := Expected(ins, scale)[k], ins[k];
            && f.tc == Trunc(i.time, scale) && f.key == i.key && f.data == Concat(i.pieces)
            && f.prev == if k == 0 then 0 else Expected(ins, scale)[k - 1].tc
  {
    var n := |ins| - 1;
    if k < n {
      ExpectedAre(ins[..n], scale, k);
    } else if n > 0 {
      ExpectedAre(ins[..n], scale, n - 1);
    }
  }

  lemma {:induction false} ConcatPrefix(pieces: seq<Bytes>, k: nat)
    requires k <= |pieces|
    ensures |Concat(pieces[..k])| <= |Concat(pieces)|
    decreases |pieces|
  {
    if k < |pieces| {
      ConcatPrefix(pieces[..|pieces| - 1], k);
      assert pieces[..|pieces| - 1][..k] == pieces[..k];
    } else {
      assert pieces[..k] == pieces;
    }
  }

  lemma {:induction false} ExpectedOk(ins: seq<Input>, scale: int)
    requires scale > 0 && InputsOk(ins)
    ensures TimesOk(Expected(ins, scale)) && TimeOk(LastTime(Expected(ins, scale)))
  {
    hide Concat, Trunc, TimeOk;
    assert TimeOk(0) by { ZeroOk(); }
    if ins != [] {
      ExpectedOk(ins[..|ins| - 1], scale);
      assert InputOk(ins[|ins| - 1]);
      TruncOk(ins[|ins| - 1].time, scale);
    }
  }

  lemma ZeroOk()
    ensures TimeOk(0)
  {
  }

  /** The times at which the clusters of a session begin. */
  function ClusterStarts(ins: seq<Input>, scale: int): seq<int>
    requires scale > 0 && InputsOk(ins)
  {
    ExpectedOk(ins, scale);
    LayoutOf(Expected(ins, scale)).starts
  }

  predicate NoneBelowZero(starts: seq<int>) { forall k :: 0 <= k < |starts| ==> starts[k] >= 0 }

  lemma {:induction false} ExpectedTimes(ins: seq<Input>, scale: int)
    requires scale > 0 && InputsOk(ins) && NoneNegative(ins)
    ensures forall k :: 0 <= k < |Expected(ins, scale)| ==> Expected(ins, scale)[k].tc >= 0
  {
    if ins != [] {
      ExpectedTimes(ins[..|ins| - 1], scale);
      assert InputOk(ins[|ins| - 1]);
      TruncOk(ins[|ins| - 1].time, scale);
    }
  }

  lemma {:induction false} StartsAmongFrames(cs: seq<Cluster>)
    requires AllAnchored(cs) && forall k :: 0 <= k < |FramesOf(cs)| ==> FramesOf(cs)[k].tc >= 0
    ensures StartsOk(cs)
  {
    if cs != [] {
      var n := |cs| - 1;
      var a, b := FramesOf(cs[..n]), cs[n].frames;
      assert FramesOf(cs) == a + b;
      assert (a + b)[|a|] == b[0];
      assert forall k :: 0 <= k < |a| ==> a[k] == FramesOf(cs)[k];
      StartsAmongFrames(cs[..n]);
    }
  }

  /** The data of a frame comes in pieces. */
  method AddPieces(w: Writer, pieces: seq<Bytes>)
    requires w.Valid() && w.inFrame && w.frame == [] && |Concat(pieces)| <= MAX_FRAME
    modifies w`frame
    ensures w.Valid() && w.frame == Concat(pieces) && w.Frames() == old(w.Frames())
  {
    hide Writer.Valid;
    var k := 0;
    while k < |pieces|
      invariant k <= |pieces| && w.Valid() && w.frame == Concat(pieces[..k]) && w.Frames() == old(w.Frames())
    {
      ConcatPrefix(pieces, k + 1);
      assert pieces[..k + 1][..k] == pieces[..k];
      var _ := w.AddFrameData(pieces[k]);
      k := k + 1;
    }
    assert pieces[..k] == pieces;
  }

  /** One frame of a session. */
  method WriteFrame(w: Writer, i: Input)
    requires w.Valid() && InputOk(i) && (w.frame == [] || w.inFrame)
    modifies w
    ensures w.Valid() && w.inFrame && w.header == old(w.header) && w.timescale == old(w.timescale)
    ensures w.defDuration == old(w.defDuration)
    ensures w.frameTime == i.time && w.keyframe == i.key && w.frame == Concat(i.pieces)
    ensures w.maxTime == if old(w.maxTime) < i.time then i.time else old(w.maxTime)
    ensures w.ahead == old(w.ahead)
    ensures w.Frames() == old(w.Frames()) + if old(w.inFrame) then [old(w.Pending())] else []
  {
    hide Stored, OpenOk, FramesOf, Chained, LastTime, BeforeDuration, Trunc, Concat, Laid;
    w.StartFrame();
    AddPieces(w, i.pieces);
    var _ := w.SetFrameFlags(i.time, i.key);
  }

  function Latest(ins: seq<Input>): int {
    if ins == [] then 0
    else
      var before, t := Latest(ins[..|ins| - 1]), ins[|ins| - 1].time;
      if before < t then t else before
  }

  /** The latest time is the greatest of those given, but not less than zero. */
  lemma {:induction false} LatestIs(ins: seq<Input>)
    ensures Latest(ins) >= 0 && forall k :: 0 <= k < |ins| ==> ins[k].time <= Latest(ins)
    ensures Latest(ins) == 0 || exists k :: 0 <= k < |ins| && ins[k].time == Latest(ins)
  {
    if ins != [] {
      LatestIs(ins[..|ins| - 1]);
    }
  }

  /** The frames of the session so far: all but the last have been flushed. */
  ghost predicate Going(w: Writer, h: Header, ins: seq<Input>)
    reads w
  {
    && w.Valid() && w.header == Some(h) && w.ahead == 0 && w.timescale == h.timescale &&
         w.defDuration == h.frameDuration
    && w.maxTime == Latest(ins) && (w.inFrame <==> ins != []) && (!w.inFrame ==> w.frame == [])
    && Expected(ins, h.timescale) == w.Frames() + if ins == [] then [] else [w.Pending()]
  }

  lemma ExpectedMore(ins: seq<Input>, i: Input, scale: int)
    requires scale > 0
    ensures Expected(ins + [i], scale) ==
            Expected(ins, scale) +
                [Frame(Trunc(i.time, scale), i.key, LastTime(Expected(ins, scale)), Concat(i.pieces))]
    ensures Latest(ins + [i]) == if Latest(ins) < i.time then i.time else Latest(ins)
  {
    assert (ins + [i])[..|ins|] == ins;
  }

  method SessionStep(w: Writer, h: Header, ghost ins: seq<Input>, i: Input)
    requires Going(w, h, ins) && InputOk(i)
    modifies w
    ensures Going(w, h, ins + [i])
  {
    hide Stored, OpenOk, FramesOf, Chained, BeforeDuration, Trunc, Concat, Expected, Latest, InputOk, Laid;
    ExpectedMore(ins, i, h.timescale);
    WriteFrame(w, i);
  }

  method SessionLoop(w: Writer, h: Header, ins: seq<Input>)
    requires Going(w, h, []) && InputsOk(ins)
    modifies w
    ensures Going(w, h, ins)
  {
    hide Going, InputOk, InputsOk;
    for k := 0 to |ins|
      invariant Going(w, h, ins[..k])
    {
      InputAt(ins, k);
      SessionStep(w, h, ins[..k], ins[k]);
      assert ins[..k] + [ins[k]] == ins[..k + 1];
    }
    assert ins[..|ins|] == ins;
  }

  lemma InputAt(ins: seq<Input>, k: nat)
    requires InputsOk(ins) && k < |ins|
    ensures InputOk(ins[k])
  {
  }

  /** A whole session: header, frames, close. A reader finds exactly the frames that were put in, if and
      only if no cluster begins before zero. */
  method Session(h: Header, ins: seq<Input>, toFloat: (int, int) -> Bytes)
    returns (file: Bytes, ghost clusters: seq<Cluster>)
    requires HeaderOk(h) && forall t, s :: |toFloat(t, s)| == 4
    requires InputsOk(ins)
    ensures FramesOf(clusters) == Expected(ins, h.timescale)
    ensures Finished(file, Some(h), 0, clusters, toFloat(Latest(ins) + h.frameDuration, h.timescale))
    ensures Bases(clusters) == ClusterStarts(ins, h.timescale) && Packed(clusters)
    ensures Recovers(file, h, toFloat(Latest(ins) + h.frameDuration, h.timescale), Expected(ins, h.timescale))
            <==> NoneBelowZero(ClusterStarts(ins, h.timescale))
    ensures NoneNegative(ins) ==> NoneBelowZero(ClusterStarts(ins, h.timescale))
  {
    hide Going, Writer.Valid, InputOk, Finished, Recovers, NoneNegative, HeaderOk, Expected, Latest, FramesOf;
    hide ClusterStarts, NoneBelowZero, Bases, InputsOk, Packed;
    TimescaleOk(h);
    var w := new Writer();
    Begin(w, h);
    SessionLoop(w, h, ins);
    clusters := End(w, h, ins, toFloat);
    file := w.file;
    SessionRecovers(file, h, clusters, toFloat(Latest(ins) + h.frameDuration, h.timescale), ins);
  }

  method Begin(w: Writer, h: Header)
    requires w.Valid() && !w.wroteHeader && !w.inFrame && w.frame == [] && w.closed == []
    requires w.Frames() == [] && w.maxTime == 0 && HeaderOk(h)
    modifies w
    ensures Going(w, h, [])
  {
    hide Writer.Valid, FramesOf, HeaderBytes;
    var _ := w.WriteHeader(h);
  }

  method End(w: Writer, h: Header, ghost ins: seq<Input>, toFloat: (int, int) -> Bytes)
    returns (ghost clusters: seq<Cluster>)
    requires Going(w, h, ins) && InputsOk(ins) && forall t, s :: |toFloat(t, s)| == 4
    modifies w
    ensures h.timescale > 0 && FramesOf(clusters) == Expected(ins, h.timescale)
    ensures Bases(clusters) == ClusterStarts(ins, h.timescale) && Packed(clusters)
    ensures Finished(w.file, Some(h), 0, clusters, toFloat(Latest(ins) + h.frameDuration, h.timescale))
  {
    hide OpenOk, FramesOf, Chained, LastTime, BeforeDuration, Trunc, Expected, Latest, Stored, Finished, Laid;
    hide Bases, LayoutOf, InputsOk, TimesOk, Packed;
    w.Close(toFloat);
    clusters := w.closed;
    assert w.Frames() == Expected(ins, h.timescale);
  }

  lemma BasesOk(cs: seq<Cluster>)
    ensures NoneBelowZero(Bases(cs)) <==> StartsOk(cs)
  {
    assert forall k :: 0 <= k < |cs| ==> Bases(cs)[k] == cs[k].base;
  }

  lemma {:induction false} SessionRecovers(file: Bytes, h: Header, clusters: seq<Cluster>, d: Bytes, ins: seq<Input>)
    requires |d| == 4 && h.timescale > 0 && Finished(file, Some(h), 0, clusters, d)
    requires InputsOk(ins) && FramesOf(clusters) == Expected(ins, h.timescale)
    requires Bases(clusters) == ClusterStarts(ins, h.timescale)
    ensures HeaderOk(h)
    ensures Recovers(file, h, d, Expected(ins, h.timescale)) <==> NoneBelowZero(ClusterStarts(ins, h.timescale))
    ensures NoneNegative(ins) ==> NoneBelowZero(ClusterStarts(ins, h.timescale))
  {
    hide Recovers, Expected, FramesOf, HeaderBytes, ClusterList, ClusterStarts, Finished, StartsOk, NoneBelowZero;
    hide Bases;
    hide HeaderOk, ClustersOk, InputsOk, AllAnchored, SerAll;
    FinishedRecovers(file, h, 0, clusters, d);
    FinishedPatched(file, h, clusters, d);
    BasesOk(clusters);
    if NoneNegative(ins) {
      ExpectedTimes(ins, h.timescale);
      StartsAmongFrames(clusters);
    }
  }

  /** A frame more, of a session and of its layout. */
  lemma {:induction false} StartsMore(ins: seq<Input>, i: Input, scale: int)
    requires scale > 0 && InputsOk(ins) && InputOk(i)
    ensures var fs := Expected(ins, scale);
            var f := Frame(Trunc(i.time, scale), i.key, LastTime(fs), Concat(i.pieces));
            && InputsOk(ins + [i]) && TimesOk(fs) && FrameTimesOk(f) && TimesOk(Expected(ins + [i], scale))
            && LayoutOf(Expected(ins + [i], scale)) == Place(LayoutOf(fs), f)
  {
    hide Concat, Trunc, TimeOk, LayoutOf, Place, Expected, LastTime;
    ExpectedOk(ins, scale);
    TruncOk(i.time, scale);
    ExpectedMore(ins, i, scale);
    var fs := Expected(ins, scale);
    LayoutMore(fs, Frame(Trunc(i.time, scale), i.key, LastTime(fs), Concat(i.pieces)));
  }

  lemma QuotientPositive(v: nat, p: nat, q: nat, r: nat)
    requires v == q * p + r && r < p
    ensures q > 0 <==> v >= p
  {
    if q > 0 {
      Larger(1, q, p);
    }
  }

  lemma Quotient(v: nat, p: nat)
    requires p > 0
    ensures v / p > 0 <==> v >= p
  {
    var q, r := v / p, v % p;
    DivMod(v, p);
    QuotientPositive(v, p, q, r);
  }

  lemma TruncSign(t: int, scale: int)
    requires scale > 0
    ensures t >= 0 ==> Trunc(t, scale) >= 0
    ensures t < 0 ==> -t / scale >= 0 && Trunc(t, scale) == -(-t / scale)
  {
  }

  lemma TruncNegative(t: int, scale: int)
    requires scale > 0
    ensures Trunc(t, scale) < 0 <==> t <= -scale
  {
    hide Trunc;
    TruncSign(t, scale);
    if t < 0 {
      Quotient(-t, scale);
    }
  }

  lemma TruncByOne(t: int)
    ensures Trunc(t, 1) == t
  {
  }

  lemma SmallFrame(f: Frame, t: int)
    requires |f.data| <= 1000000 && FrameTimesOk(f) && TimeOk(t)
    ensures TimeSize(t) + FrameSize(f) <= CLSIZE
  {
    hide EncUInt, EncSInt;
  }

  lemma NoFrames(scale: int)
    requires scale > 0
    ensures Expected([], scale) == [] && LayoutOf([]) == Layout([], None)
  {
  }

  lemma FirstFrame(f: Frame)
    requires FrameTimesOk(f)
    ensures Place(Layout([], None), f).starts == [f.tc]
  {
    hide FrameSize, TimeSize;
  }

  lemma SecondFrame(f: Frame, g: Frame)
    requires FrameTimesOk(f) && FrameTimesOk(g) && FitsDelta(g.tc - f.tc) && |f.data| <= 1000000
    ensures Place(Place(Layout([], None), f), g).starts == [f.tc]
  {
    hide FrameSize, TimeSize;
    SmallFrame(f, f.tc);
    assert Place(Layout([], None), f) == Layout([f.tc], Some(TimeSize(f.tc) + FrameSize(f)));
  }

  /** A session of one frame has one cluster, and it begins at that frame: a frame at a time of at most
      -scale is not recovered. */
  lemma {:induction false} OneFrame(i: Input, scale: int)
    requires scale > 0 && InputOk(i)
    ensures InputsOk([i]) && ClusterStarts([i], scale) == [Trunc(i.time, scale)]
    ensures NoneBelowZero(ClusterStarts([i], scale)) <==> i.time > -scale
  {
    hide Concat, FrameSize, TimeSize, Trunc, InputOk, Place, Room, LayoutOf, Expected;
    NoFrames(scale);
    StartsMore([], i, scale);
    assert [] + [i] == [i];
    FirstFrame(Frame(Trunc(i.time, scale), i.key, 0, Concat(i.pieces)));
    TruncNegative(i.time, scale);
    assert ClusterStarts([i], scale)[0] == Trunc(i.time, scale);
  }

  /** Of two short frames with times of either sign in one cluster the first decides. */
  lemma {:induction false} FirstDecides(a: Input, b: Input)
    requires InputOk(a) && InputOk(b) && FitsDelta(b.time - a.time) && |Concat(a.pieces)| <= 1000000
    ensures InputsOk([a, b]) && ClusterStarts([a, b], 1) == [a.time]
  {
    hide Concat, FrameSize, TimeSize, Trunc, InputOk, Place, Room, LayoutOf, Expected;
    NoFrames(1);
    StartsMore([], a, 1);
    StartsMore([a], b, 1);
    assert [] + [a] == [a] && [a] + [b] == [a, b];
    TruncByOne(a.time);
    TruncByOne(b.time);
    var f := Frame(a.time, a.key, 0, Concat(a.pieces));
    FirstFrame(f);
    SecondFrame(f, Frame(b.time, b.key, LastTime(Expected([a], 1)), Concat(b.pieces)));
  }

  /** Two frames whose times differ by more than 16 bits begin a cluster each. */
  lemma {:induction false} FarApart(f: Frame, g: Frame)
    requires FrameTimesOk(f) && FrameTimesOk(g) && !FitsDelta(g.tc - f.tc)
    ensures TimesOk([f, g]) && LayoutOf([f, g]).starts == [f.tc, g.tc]
  {
    hide FrameSize, TimeSize, LayoutOf;
    LayoutNone();
    LayoutMore([], f);
    LayoutMore([f], g);
    assert [] + [f] == [f] && [f] + [g] == [f, g];
    assert [] + [f.tc] == [f.tc] && [f.tc] + [g.tc] == [f.tc, g.tc];
  }

  lemma LayoutNone()
    ensures LayoutOf([]) == Layout([], None)
  {
  }

  /** The frames of a writer that has flushed two of them far apart are in two clusters, one of which is in
      the file. */
  lemma {:induction false} OneClosed(w: Writer, f: Frame, g: Frame)
    requires w.Valid() && w.Frames() == [f, g] && !FitsDelta(g.tc - f.tc)
    ensures |w.closed| > 0
  {
    hide LayoutOf, Stored, OpenOk, Ordered, HeaderAt, FramesOf;
    assert TimesOk([f, g]) && [f, g][0] == f && [f, g][1] == g;
    FarApart(f, g);
  }

  lemma NoHeaderYet(w: Writer)
    requires w.Valid() && !w.wroteHeader
    ensures w.header == None
  {
  }

  lemma NotWritten(w: Writer)
    requires w.Valid() && w.header == None
    ensures !w.wroteHeader
  {
  }

  /** Two frames far apart and the begin of a third. */
  method TwoClusters(a: Input, b: Input) returns (w: Writer)
    requires InputOk(a) && InputOk(b) && !FitsDelta(Trunc(b.time, 1000000) - Trunc(a.time, 1000000))
    ensures fresh(w) && w.Valid() && !w.wroteHeader && |w.closed| > 0
  {
    hide Writer.Valid, Trunc, FramesOf, InputOk;
    w := new Writer();
    NoHeaderYet(w);
    WriteFrame(w, a);
    ghost var f := w.Pending();
    WriteFrame(w, b);
    ghost var g := w.Pending();
    w.StartFrame();
    assert w.Frames() == [f, g];
    OneClosed(w, f, g);
    NotWritten(w);
  }

  /** The failure of a late header: after two frames whose times differ by more than 32767 units, with a third
      begun, a reader finds nothing at all in the file. */
  method LateHeaderSession(h: Header, a: Input, b: Input, toFloat: (int, int) -> Bytes) returns (file: Bytes)
    requires HeaderOk(h) && InputOk(a) && InputOk(b) && forall t, s :: |toFloat(t, s)| == 4
    requires !FitsDelta(Trunc(b.time, 1000000) - Trunc(a.time, 1000000))
    ensures ReadFile(file) == None
  {
    hide Writer.Valid, Trunc, FramesOf, HeaderOk, ReadFile, InputOk, Finished;
    var w := TwoClusters(a, b);
    var _ := w.WriteHeader(h);
    ghost var d := toFloat(w.maxTime + w.defDuration, w.timescale);
    w.Close(toFloat);
    file := w.file;
    LateUnread(file, h, w.ahead, w.closed, d);
  }
}
