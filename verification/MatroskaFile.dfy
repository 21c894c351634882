/** The file the Matroska muxer leaves behind, and a reader of it. */
module MatroskaFile {
  import opened Chunks
  import opened Ebml
  import opened EbmlValues
  import opened Matroska

  /** What mk_writeHeader is called with. */
  datatype Header = Header(app: Bytes, codecId: Bytes, private: Bytes, frameDuration: int, timescale: int,
                           width: nat, height: nat, dWidth: nat, dHeight: nat)

  const MAX_STRING: nat := 0x400_0000

  predicate HeaderOk(h: Header) {
    && |h.app| <= MAX_STRING && |h.codecId| <= MAX_STRING && |h.private| <= MAX_STRING
    && IsInt64(h.frameDuration) && IsInt64(h.timescale) && h.timescale > 0
    && h.width < 0x1_0000_0000 && h.height < 0x1_0000_0000 && h.dWidth < 0x1_0000_0000 && h.dHeight < 0x1_0000_0000
  }

  /** "matroska" and "Haali Matroska Writer b0" */
  const DOC_TYPE: Bytes := [109, 97, 116, 114, 111, 115, 107, 97]
  const MUXING_APP: Bytes := [72, 97, 97, 108, 105, 32, 77, 97, 116, 114, 111, 115, 107, 97, 32, 87, 114, 105, 116, 101,
      114, 32, 98, 48]

  function UInt(id: nat, v: int): (e: Elem)
    requires IsInt64(v)
    ensures e.id == id && |e.data| <= 8
  {
    Elem(id, EncUInt(v))
  }

  function EbmlElems(): seq<Elem> {
    [UInt(0x4286, 1), UInt(0x42f7, 1), UInt(0x42f2, 4), UInt(0x42f3, 8), Elem(0x4282, DOC_TYPE), UInt(0x4287, 1),
        UInt(0x4285, 1)]
  }

  /** The elements of SegmentInfo before the duration. */
  function InfoStart(h: Header): seq<Elem>
    requires HeaderOk(h)
  {
    [Elem(0x4d80, MUXING_APP), Elem(0x5741, h.app), UInt(0x2ad7b1, h.timescale)]
  }

  function VideoElems(h: Header): seq<Elem>
    requires HeaderOk(h)
  {
    [UInt(0xb0, h.width), UInt(0xba, h.height), UInt(0x54b0, h.dWidth), UInt(0x54ba, h.dHeight)]
  }

  /** At most n elements, none with more than d bytes. */
  predicate Small(es: seq<Elem>, n: nat, d: nat) {
    AllOk(es) && |es| <= n && forall k :: 0 <= k < |es| ==> |es[k].data| <= d
  }

  lemma {:induction false} SmallEbml()
    ensures Small(EbmlElems(), 7, 8)
  {
    hide UInt;
  }

  lemma {:induction false} SmallInfo(h: Header)
    requires HeaderOk(h)
    ensures Small(InfoStart(h), 3, MAX_STRING)
  {
    hide UInt;
  }

  lemma {:induction false} SmallVideo(h: Header)
    requires HeaderOk(h)
    ensures Small(VideoElems(h), 4, 8)
  {
    hide UInt;
  }

  lemma {:induction false} SerAllSmall(es: seq<Elem>, n: nat, d: nat)
    requires Small(es, n, d)
    ensures |SerAll(es)| <= |es| * (9 + d) <= n * (9 + d)
    decreases |es|
  {
    hide ElemOk, EncId, EncSize;
    Larger(|es|, n, 9 + d);
    if es != [] {
      var k := |es| - 1;
      SerAllSmall(es[..k], k, d);
      SerSmall(es[k]);
      Step(k, 9 + d);
    }
  }

  lemma Step(n: nat, d: nat)
    ensures (n + 1) * d == n * d + d
  {
  }

  lemma SerSmall(e: Elem)
    requires ElemOk(e)
    ensures |Ser(e)| <= 9 + |e.data|
  {
  }

  /** The parts of a TrackEntry: always there, there if set, and the video settings. */
  function TrackFixed(h: Header): seq<Elem>
    requires HeaderOk(h)
  {
    [UInt(0xd7, 1), UInt(0x73c5, 1), UInt(0x83, 1), UInt(0x9c, 0), Elem(0x86, h.codecId)]
  }

  function TrackOptional(h: Header): seq<Elem>
    requires HeaderOk(h)
  {
    (if h.private == [] then [] else [Elem(0x63a2, h.private)])
    + (if h.frameDuration == 0 then [] else [UInt(0x23e383, h.frameDuration)])
  }

  function Video(h: Header): Elem
    requires HeaderOk(h)
  {
    SmallVideo(h);
    Elem(0xe0, SerAll(VideoElems(h)))
  }

  function TrackElems(h: Header): seq<Elem>
    requires HeaderOk(h)
  {
    TrackFixed(h) + TrackOptional(h) + [Video(h)]
  }

  lemma {:induction false} SmallFixed(h: Header)
    requires HeaderOk(h)
    ensures Small(TrackFixed(h), 5, MAX_STRING)
  {
    hide UInt;
  }

  lemma {:induction false} SmallOptional(h: Header)
    requires HeaderOk(h)
    ensures Small(TrackOptional(h), 2, MAX_STRING)
  {
    hide UInt;
  }

  lemma {:induction false} SmallTracks(h: Header)
    requires HeaderOk(h)
    ensures Small(TrackElems(h), 8, MAX_STRING)
  {
    hide TrackFixed, TrackOptional, VideoElems, SerAll;
    SmallFixed(h);
    SmallOptional(h);
    SmallVideo(h);
    SerAllSmall(VideoElems(h), 4, 8);
  }

  function Tracks(h: Header): (e: Elem)
    requires HeaderOk(h)
    ensures ElemOk(e)
  {
    SmallTracks(h);
    SerAllSmall(TrackElems(h), 8, MAX_STRING);
    var entry := Elem(0xae, SerAll(TrackElems(h)));
    SerAllOne(entry);
    SerSmall(entry);
    Elem(ID_TRACKS, SerAll([entry]))
  }

  function Duration(d: Bytes): (e: Elem)
    requires |d| == 4
    ensures ElemOk(e)
  {
    Elem(0x4489, d)
  }

  function Info(h: Header, d: Bytes): (e: Elem)
    requires HeaderOk(h) && |d| == 4
    ensures ElemOk(e)
  {
    SmallInfo(h);
    SerAllSmall(InfoStart(h) + [Duration(d)], 4, MAX_STRING);
    Elem(ID_INFO, SerAll(InfoStart(h) + [Duration(d)]))
  }

  function EbmlElem(): (e: Elem)
    ensures ElemOk(e)
  {
    SmallEbml();
    SerAllSmall(EbmlElems(), 7, 8);
    Elem(ID_EBML, SerAll(EbmlElems()))
  }

  /** The Segment is opened with an unknown size. */
  function SegmentStart(): Bytes { EncId(ID_SEGMENT) + [0xff] }

  /** All bytes of the header, with the four bytes of the duration. */
  function HeaderBytes(h: Header, d: Bytes): Bytes
    requires HeaderOk(h) && |d| == 4
  {
    Ser(EbmlElem()) + SegmentStart() + Ser(Info(h, d)) + Ser(Tracks(h))
  }

  datatype Cluster = Cluster(base: int, frames: seq<Frame>)

  predicate ClusterOk(c: Cluster) {
    FramesOk(c.base, c.frames) && |ClusterData(c.base, c.frames)| < 0x1_0000_0000
  }

  function ClusterElem(c: Cluster): (e: Elem)
    requires ClusterOk(c)
    ensures ElemOk(e)
  {
    Elem(ID_CLUSTER, ClusterData(c.base, c.frames))
  }

  predicate ClustersOk(cs: seq<Cluster>) { forall k :: 0 <= k < |cs| ==> ClusterOk(cs[k]) }

  function ClusterList(cs: seq<Cluster>): (es: seq<Elem>)
    requires ClustersOk(cs)
    ensures |es| == |cs| && AllOk(es) && forall k :: 0 <= k < |es| ==> es[k] == ClusterElem(cs[k])
  {
    seq(|cs|, (k: nat) requires k < |cs| && ClustersOk(cs) => ClusterElem(cs[k]))
  }

  /** The frames of all clusters, in order. */
  function FramesOf(cs: seq<Cluster>): seq<Frame> {
    if cs == [] then [] else FramesOf(cs[..|cs| - 1]) + cs[|cs| - 1].frames
  }

  /** What a reader finds in a file: the header elements and the frames. */
  datatype Contents = Contents(ebml: seq<Elem>, info: Elem, tracks: Elem, frames: seq<Read>)

  function ReadClusters(es: seq<Elem>): Option<seq<Read>> {
    if es == [] then Some([])
    else
      match ReadClusters(es[..|es| - 1])
      case None => None
      case Some(rs) =>
        match ReadCluster(es[|es| - 1])
        case None => None
        case Some(r) => Some(rs + r)
  }

  function ReadFile(s: Bytes): Option<Contents> {
    match ReadElem(s)
    case Bad => None
    case Got(e, s1) =>
      match ReadId(s1)
      case Bad => None
      case Got(id, s2) =>
        match ReadSize(s2)
        case Bad => None
        case Got(n, s3) =>
          if e.id != ID_EBML || id != ID_SEGMENT || n != None then None
          else ReadSegment(e, s3)
  }

  function ReadSegment(e: Elem, s: Bytes): Option<Contents> {
    match ParseAll(e.data)
    case None => None
    case Some(ebml) =>
      match ParseAll(s)
      case None => None
      case Some(es) =>
        if |es| < 2 || es[0].id != ID_INFO || es[1].id != ID_TRACKS then None
        else
          match ReadClusters(es[2..])
          case None => None
          case Some(frames) => Some(Contents(ebml, es[0], es[1], frames))
  }

  /** What a reader sees of all frames. */
  function Visible(cs: seq<Cluster>): seq<Read> {
    if cs == [] then [] else Visible(cs[..|cs| - 1]) + AllShifted(cs[|cs| - 1].frames, Misread(cs[|cs| - 1].base))
  }

  lemma SeenAppend(a: seq<Frame>, b: seq<Frame>)
    ensures AllSeen(a + b) == AllSeen(a) + AllSeen(b)
  {
  }

  lemma {:induction false} ClustersRoundTrip(cs: seq<Cluster>)
    requires ClustersOk(cs)
    ensures ReadClusters(ClusterList(cs)) == Some(Visible(cs))
  {
    hide ReadCluster, ClusterData, AllSeen, AllShifted;
    if cs != [] {
      var n := |cs| - 1;
      ClustersRoundTrip(cs[..n]);
      assert ClusterList(cs)[..n] == ClusterList(cs[..n]);
      ClusterRoundTrip(cs[n].base, cs[n].frames, ClusterElem(cs[n]));
    }
  }

  /** A cluster begins with a frame whose time is the time of the cluster. */
  predicate Anchored(c: Cluster) { c.frames != [] && c.base == c.frames[0].tc }

  predicate AllAnchored(cs: seq<Cluster>) { forall k :: 0 <= k < |cs| ==> Anchored(cs[k]) }

  /** No cluster begins at a negative time. */
  predicate StartsOk(cs: seq<Cluster>) { forall k :: 0 <= k < |cs| ==> cs[k].base >= 0 }

  lemma {:induction false} VisibleExact(cs: seq<Cluster>)
    requires AllAnchored(cs)
    ensures |Visible(cs)| == |FramesOf(cs)| && (Visible(cs) == AllSeen(FramesOf(cs)) <==> StartsOk(cs))
  {
    hide AllSeen, AllShifted;
    if cs == [] {
      assert AllSeen([]) == [];
    } else {
      var n := |cs| - 1;
      VisibleExact(cs[..n]);
      SeenAppend(FramesOf(cs[..n]), cs[n].frames);
      SeenUnshifted(cs[n].frames, Misread(cs[n].base));
      var a, b := Visible(cs[..n]), AllShifted(cs[n].frames, Misread(cs[n].base));
      SplitEqual(a, b, AllSeen(FramesOf(cs[..n])), AllSeen(cs[n].frames));
      assert StartsOk(cs) <==> StartsOk(cs[..n]) && cs[n].base >= 0;
    }
  }

  lemma SplitEqual(a: seq<Read>, b: seq<Read>, a': seq<Read>, b': seq<Read>)
    requires |a| == |a'| && |b| == |b'|
    ensures a + b == a' + b' <==> a == a' && b == b'
  {
    Slice(a, b);
    Slice(a', b');
  }

  lemma Slice(a: seq<Read>, b: seq<Read>)
    ensures (a + b)[..|a|] == a && (a + b)[|a|..] == b
  {
  }

  lemma {:induction false} SegmentRoundTrip(rest: Bytes)
    ensures ReadId(SegmentStart() + rest) == Got(ID_SEGMENT, [0xff] + rest)
    ensures ReadSize([0xff] + rest) == Got(None, rest)
  {
    hide EncId, ReadId;
    IdRoundTrip(ID_SEGMENT, [0xff] + rest);
    assert SegmentStart() + rest == EncId(ID_SEGMENT) + ([0xff] + rest);
    Slices([0xff], rest);
    PowTable();
    assert FromBytes([0xff]) == 0xff * Pow(0) + FromBytes([]) by {
      assert [0xff][1..] == [];
    }
  }

  lemma {:induction false} IdsOf(h: Header, d: Bytes)
    requires HeaderOk(h) && |d| == 4
    ensures Info(h, d).id == ID_INFO && Tracks(h).id == ID_TRACKS
  {
  }

  /** What a reader that looks for values by their IDs finds in a header. First the settings of EBML. */
  predicate EbmlIs(es: seq<Elem>) {
    && IsNumber(Find(es, 0x4286), 1) && IsNumber(Find(es, 0x42f7), 1)
    && IsNumber(Find(es, 0x42f2), 4) && IsNumber(Find(es, 0x42f3), 8)
    && IsText(Find(es, 0x4282), "matroska") && IsNumber(Find(es, 0x4287), 1) && IsNumber(Find(es, 0x4285), 1)
  }

  /** The two programs, the time scale and the duration. */
  predicate InfoIs(info: Elem, h: Header, d: Bytes)
    requires HeaderOk(h)
  {
    && info.id == ID_INFO && IsText(Lookup(info.data, [0x4d80]), "Haali Matroska Writer b0")
    && Lookup(info.data, [0x5741]) == Some(h.app) && IsNumber(Lookup(info.data, [0x2ad7b1]), h.timescale)
    && Lookup(info.data, [0x4489]) == Some(d)
  }

  /** The track; private data and a frame duration are there exactly if they were given. */
  predicate TrackIs(tracks: Elem, h: Header) {
    var t := tracks.data;
    && tracks.id == ID_TRACKS && IsNumber(Lookup(t, [0xae, 0xd7]), 1) && IsNumber(Lookup(t, [0xae, 0x73c5]), 1)
    && IsNumber(Lookup(t, [0xae, 0x83]), 1) && IsNumber(Lookup(t, [0xae, 0x9c]), 0)
    && Lookup(t, [0xae, 0x86]) == Some(h.codecId)
    && Lookup(t, [0xae, 0x63a2]) == (if h.private == [] then None else Some(h.private))
    && (if h.frameDuration == 0 then Lookup(t, [0xae, 0x23e383]) == None
        else IsNumber(Lookup(t, [0xae, 0x23e383]), h.frameDuration % 0x1_0000_0000_0000_0000))
  }

  /** Width and height of the video, as it is and as it is to be shown. */
  predicate VideoIs(tracks: Elem, h: Header) {
    var t := tracks.data;
    && IsNumber(Lookup(t, [0xae, 0xe0, 0xb0]), h.width) && IsNumber(Lookup(t, [0xae, 0xe0, 0xba]), h.height)
    && IsNumber(Lookup(t, [0xae, 0xe0, 0x54b0]), h.dWidth) && IsNumber(Lookup(t, [0xae, 0xe0, 0x54ba]), h.dHeight)
  }

  lemma {:induction false} EbmlRead()
    ensures EbmlIs(EbmlElems())
  {
    hide EncUInt, Find, FromBytes;
    var es := EbmlElems();
    FindAt(es, 0x4286, 0);
    FindAt(es, 0x42f7, 1);
    FindAt(es, 0x42f2, 2);
    FindAt(es, 0x42f3, 3);
    FindAt(es, 0x4282, 4);
    FindAt(es, 0x4287, 5);
    FindAt(es, 0x4285, 6);
    UIntRoundTrip(1);
    UIntRoundTrip(4);
    UIntRoundTrip(8);
  }

  lemma {:induction false} InfoRead(h: Header, d: Bytes)
    requires HeaderOk(h) && |d| == 4
    ensures InfoIs(Info(h, d), h, d)
  {
    hide EncUInt, Find, FromBytes, SerAll, Lookup;
    SmallInfo(h);
    var es := InfoStart(h) + [Duration(d)];
    LookupOne(es, 0x4d80);
    LookupOne(es, 0x5741);
    LookupOne(es, 0x2ad7b1);
    LookupOne(es, 0x4489);
    FindAt(es, 0x4d80, 0);
    FindAt(es, 0x5741, 1);
    FindAt(es, 0x2ad7b1, 2);
    FindAt(es, 0x4489, 3);
    UIntRoundTrip(h.timescale);
  }

  /** A value of the track is looked up in its elements. */
  lemma {:induction false} InTrack(h: Header, path: seq<nat>)
    requires HeaderOk(h)
    ensures AllOk(TrackElems(h)) && Lookup(Tracks(h).data, [0xae] + path) == Lookup(SerAll(TrackElems(h)), path)
  {
    hide TrackElems, SerAll, Lookup;
    SmallTracks(h);
    SerAllSmall(TrackElems(h), 8, MAX_STRING);
    var entry := Elem(0xae, SerAll(TrackElems(h)));
    FindAt([entry], 0xae, 0);
    LookupMore([entry], 0xae, entry.data, path);
  }

  lemma {:induction false} TrackValue(h: Header, id: nat)
    requires HeaderOk(h)
    ensures Lookup(Tracks(h).data, [0xae, id]) == Find(TrackElems(h), id)
  {
    hide TrackElems, SerAll, Lookup, Tracks;
    InTrack(h, [id]);
    LookupOne(TrackElems(h), id);
    assert [0xae] + [id] == [0xae, id];
  }

  lemma {:induction false} VideoValue(h: Header, id: nat)
    requires HeaderOk(h)
    ensures Lookup(Tracks(h).data, [0xae, 0xe0, id]) == Find(VideoElems(h), id)
  {
    hide SerAll, Lookup, Tracks, VideoElems, TrackFixed, TrackOptional;
    SmallVideo(h);
    InTrack(h, [0xe0, id]);
    var es := TrackElems(h);
    OtherIds(h);
    FindAt(es, 0xe0, |es| - 1);
    LookupMore(es, 0xe0, SerAll(VideoElems(h)), [id]);
    LookupOne(VideoElems(h), id);
    assert [0xae] + [0xe0, id] == [0xae, 0xe0, id] && [0xe0] + [id] == [0xe0, id];
  }

  lemma {:induction false} OtherIds(h: Header)
    requires HeaderOk(h)
    ensures forall k :: 0 <= k < |TrackFixed(h)| ==> TrackFixed(h)[k].id in {0xd7, 0x73c5, 0x83, 0x9c, 0x86}
    ensures forall k :: 0 <= k < |TrackOptional(h)| ==> TrackOptional(h)[k].id in {0x63a2, 0x23e383}
  {
  }

  lemma {:induction false} TrackRead(h: Header)
    requires HeaderOk(h)
    ensures TrackIs(Tracks(h), h)
  {
    hide EncUInt, Find, FromBytes, SerAll, Lookup, Tracks;
    IdsOf(h, NO_DURATION);
    var es := TrackElems(h);
    FindAt(es, 0xd7, 0);
    FindAt(es, 0x73c5, 1);
    FindAt(es, 0x83, 2);
    FindAt(es, 0x9c, 3);
    FindAt(es, 0x86, 4);
    TrackValue(h, 0xd7);
    TrackValue(h, 0x73c5);
    TrackValue(h, 0x83);
    TrackValue(h, 0x9c);
    TrackValue(h, 0x86);
    TrackValue(h, 0x63a2);
    TrackValue(h, 0x23e383);
    UIntRoundTrip(1);
    UIntRoundTrip(0);
    OptionalRead(h);
  }

  lemma {:induction false} OptionalRead(h: Header)
    requires HeaderOk(h)
    ensures Find(TrackElems(h), 0x63a2) == (if h.private == [] then None else Some(h.private))
    ensures if h.frameDuration == 0 then Find(TrackElems(h), 0x23e383) == None
            else IsNumber(Find(TrackElems(h), 0x23e383), h.frameDuration % 0x1_0000_0000_0000_0000)
  {
    hide EncUInt, Find, FromBytes, SerAll;
    var es := TrackElems(h);
    if h.private == [] {
      FindNone(es, 0x63a2);
    } else {
      FindAt(es, 0x63a2, 5);
    }
    if h.frameDuration == 0 {
      FindNone(es, 0x23e383);
    } else {
      FindAt(es, 0x23e383, if h.private == [] then 5 else 6);
      UIntRoundTrip(h.frameDuration);
    }
  }

  lemma {:induction false} VideoRead(h: Header)
    requires HeaderOk(h)
    ensures VideoIs(Tracks(h), h)
  {
    hide EncUInt, Find, FromBytes, SerAll, Lookup, Tracks;
    var es := VideoElems(h);
    FindAt(es, 0xb0, 0);
    FindAt(es, 0xba, 1);
    FindAt(es, 0x54b0, 2);
    FindAt(es, 0x54ba, 3);
    VideoValue(h, 0xb0);
    VideoValue(h, 0xba);
    VideoValue(h, 0x54b0);
    VideoValue(h, 0x54ba);
    UIntRoundTrip(h.width);
    UIntRoundTrip(h.height);
    UIntRoundTrip(h.dWidth);
    UIntRoundTrip(h.dHeight);
  }

  /** A reader finds in the file all that was put into it. */
  predicate Recovers(file: Bytes, h: Header, d: Bytes, frames: seq<Frame>)
    requires HeaderOk(h)
  {
    match ReadFile(file)
    case None => false
    case Some(c) =>
      EbmlIs(c.ebml) && InfoIs(c.info, h, d) && TrackIs(c.tracks, h) && VideoIs(c.tracks, h) &&
      c.frames == AllSeen(frames)
  }

  /** The whole file is read back: every header element and every frame; the times of the frames are
      right exactly if no cluster begins at a negative time. */
  lemma {:induction false} FileRoundTrip(h: Header, d: Bytes, cs: seq<Cluster>)
    requires HeaderOk(h) && |d| == 4 && ClustersOk(cs)
    ensures ReadFile(HeaderBytes(h, d) + SerAll(ClusterList(cs))) ==
            Some(Contents(EbmlElems(), Info(h, d), Tracks(h), Visible(cs)))
    ensures EbmlIs(EbmlElems()) && InfoIs(Info(h, d), h, d) && TrackIs(Tracks(h), h) && VideoIs(Tracks(h), h)
    ensures AllAnchored(cs) ==> (Recovers(HeaderBytes(h, d) + SerAll(ClusterList(cs)), h, d, FramesOf(cs)) <==>
            StartsOk(cs))
  {
    hide ReadElem, ReadId, ReadSize, Ser, SerAll, ParseAll, Info, Tracks, EbmlElems, SegmentStart, ReadClusters;
    hide ClusterList, AllSeen, FramesOf, Visible, EbmlIs, InfoIs, TrackIs, VideoIs;
    EbmlRead();
    InfoRead(h, d);
    TrackRead(h);
    VideoRead(h);
    var es := [Info(h, d), Tracks(h)] + ClusterList(cs);
    var body := SerAll(es);
    SerAllAppend([Info(h, d), Tracks(h)], ClusterList(cs));
    SerAllAppend([Info(h, d)], [Tracks(h)]);
    SerAllOne(Info(h, d));
    SerAllOne(Tracks(h));
    assert [Info(h, d)] + [Tracks(h)] == [Info(h, d), Tracks(h)];
    Regroup(Ser(EbmlElem()), SegmentStart(), Ser(Info(h, d)), Ser(Tracks(h)), SerAll(ClusterList(cs)));
    ElemRoundTrip(EbmlElem(), SegmentStart() + body);
    SegmentRoundTrip(body);
    SmallEbml();
    ParseSer(EbmlElems());
    ParseSer(es);
    ClustersRoundTrip(cs);
    IdsOf(h, d);
    assert es[2..] == ClusterList(cs);
    if AllAnchored(cs) {
      VisibleExact(cs);
    }
  }

  lemma Regroup(a: Bytes, b: Bytes, c: Bytes, d: Bytes, e: Bytes)
    ensures a + b + c + d + e == a + (b + (c + d + e))
  {
  }

  /** The duration that is written first. */
  const NO_DURATION: Bytes := [0, 0, 0, 0]

  /** The header without the four bytes of the duration: what is before and after them. */
  function BeforeDuration(h: Header): Bytes
    requires HeaderOk(h)
  {
    var i := Info(h, NO_DURATION);
    SmallInfo(h);
    Ser(EbmlElem()) + SegmentStart() + EncId(ID_INFO) + EncSize(|i.data|) + SerAll(InfoStart(h)) + EncId(0x4489) +
        EncSize(4)
  }

  lemma {:induction false} InfoBytes(h: Header, d: Bytes)
    requires HeaderOk(h) && |d| == 4
    ensures |Info(h, d).data| == |Info(h, NO_DURATION).data|
    ensures AllOk(InfoStart(h)) && Info(h, d).data == SerAll(InfoStart(h)) + EncId(0x4489) + EncSize(4) + d
  {
    hide EncId, EncSize, InfoStart, SerAll;
    SmallInfo(h);
    SerAllLast(InfoStart(h), Duration(d));
    SerAllLast(InfoStart(h), Duration(NO_DURATION));
  }

  lemma {:induction false} HeaderSplit(h: Header, d: Bytes)
    requires HeaderOk(h) && |d| == 4
    ensures HeaderBytes(h, d) == BeforeDuration(h) + d + Ser(Tracks(h))
  {
    hide EncId, EncSize, InfoStart, SerAll, Tracks, EbmlElem, SegmentStart;
    InfoBytes(h, d);
    InfoId(h, d);
  }

  lemma {:induction false} InfoId(h: Header, d: Bytes)
    requires HeaderOk(h) && |d| == 4
    ensures Info(h, d).id == ID_INFO
  {
  }

  function Overwrite(file: Bytes, pos: nat, b: Bytes): Bytes
    requires pos + |b| <= |file|
  {
    file[..pos] + b + file[pos + |b|..]
  }

  lemma OverwriteMiddle(a: Bytes, d: Bytes, d': Bytes, z: Bytes)
    requires |d| == |d'|
    ensures Overwrite(a + d + z, |a|, d') == a + d' + z
  {
    assert a + d + z == a + (d + z);
  }

  /** Patching the duration changes the payload of Duration and nothing else. */
  lemma {:induction false} PatchDuration(h: Header, d: Bytes, d': Bytes, rest: Bytes)
    requires HeaderOk(h) && |d| == 4 && |d'| == 4
    ensures |BeforeDuration(h)| + 4 <= |HeaderBytes(h, d) + rest|
    ensures Overwrite(HeaderBytes(h, d) + rest, |BeforeDuration(h)|, d') == HeaderBytes(h, d') + rest
  {
    hide HeaderBytes, BeforeDuration, Tracks, Ser, Overwrite;
    HeaderSplit(h, d);
    HeaderSplit(h, d');
    var a, z := BeforeDuration(h), Ser(Tracks(h));
    Assoc(a, d, z, rest);
    Assoc(a, d', z, rest);
    OverwriteMiddle(a, d, d', z + rest);
  }

  lemma Assoc(a: Bytes, b: Bytes, c: Bytes, d: Bytes)
    ensures a + b + c + d == a + b + (c + d)
  {
  }
}
