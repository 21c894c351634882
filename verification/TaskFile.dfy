/** The whole encoder of encoder_task.h: the rounds with their tasks, the table that passes from round to
    round, and the file, which decodes to the input whatever the tasks' schedule was. */
module TaskFile {
  import opened Chunks
  import Pipeline
  import opened Decoder
  import opened TaskList
  import opened TaskRound
  import opened TaskTable
  import opened TaskOutput

  /** The state and the table at the end of a round. */
  function EndOf(t: Trace): State { if t.states == [] then Start(0) else t.states[|t.states| - 1] }

  function EndTable(t: Trace): Table { if t.tables == [] then map[] else t.tables[|t.tables| - 1] }

  /** What a round finds. */
  function StartOf(ts: seq<Trace>, r: nat): nat
    requires r <= |ts|
  {
    if r == 0 then 0 else EndOf(ts[r - 1]).seek
  }

  function TableBefore(ts: seq<Trace>, r: nat): Table
    requires r <= |ts|
  {
    if r == 0 then map[] else EndTable(ts[r - 1])
  }

  ghost predicate RoundDone(c: Pipeline.Codec, input: Bytes, ts: seq<Trace>, r: nat)
    requires r < |ts|
  {
    && RunsFrom(c, input, r, ts[r], StartOf(ts, r), TableBefore(ts, r))
    && Over(EndOf(ts[r])) && EndOf(ts[r]).seek <= |input|
  }

  ghost predicate AllDone(c: Pipeline.Codec, input: Bytes, ts: seq<Trace>) {
    forall r :: 0 <= r < |ts| ==> RoundDone(c, input, ts, r)
  }

  /** Rounds one after another, the last of which comes to the end of the input. */
  ghost predicate Encodes(c: Pipeline.Codec, input: Bytes, ts: seq<Trace>) {
    ts != [] && AllDone(c, input, ts) && StartOf(ts, |ts|) == |input|
  }

  /** The chunks of a round, as the writer walks along them. */
  function ListOf(t: Trace): seq<Id> { Walk(EndOf(t).next, EndOf(t).first, |EndOf(t).next|) }

  function ChunkAt(input: Bytes, t: Trace, x: Id): Bytes { ChunkData(input, EndOf(t).piece, x) }

  function ChunksOf(input: Bytes, r: nat, t: Trace): (cs: seq<Chunk>)
    ensures |cs| == |ListOf(t)| && forall i :: 0 <= i < |cs| ==> cs[i].data == ChunkAt(input, t, ListOf(t)[i])
  {
    var l := ListOf(t);
    seq(|l|, (i: nat) requires i < |l| => Chunk(r, i, false, ChunkAt(input, t, l[i])))
  }

  /** The chunks of all rounds. */
  function All(input: Bytes, ts: seq<Trace>): seq<Chunk> {
    if ts == [] then [] else All(input, ts[..|ts| - 1]) + ChunksOf(input, |ts| - 1, ts[|ts| - 1])
  }

  lemma AllStep(input: Bytes, ts: seq<Trace>, r: nat)
    requires r < |ts|
    ensures All(input, ts[..r + 1]) == All(input, ts[..r]) + ChunksOf(input, r, ts[r])
  {
    assert ts[..r + 1][..r] == ts[..r];
  }

  lemma {:induction false} DataIs(input: Bytes, piece: map<Id, Piece>, l: seq<Id>, cs: seq<Chunk>)
    requires |cs| == |l| && forall i :: 0 <= i < |l| ==> cs[i].data == ChunkData(input, piece, l[i])
    ensures DataOf(cs) == BytesOf(input, piece, l)
    decreases |l|
  {
    if l != [] {
      DataIs(input, piece, l[1..], cs[1..]);
      assert cs == [cs[0]] + cs[1..];
      DataOfAppend([cs[0]], cs[1..]);
      assert [cs[0]][..0] == [];
      assert DataOf([cs[0]]) == cs[0].data;
    }
  }

  lemma {:induction false} CoversNonEmpty(input: Bytes, piece: map<Id, Piece>, l: seq<Id>, lo: nat, hi: nat)
    requires Covers(piece, l, lo, hi) && hi <= |input|
    ensures forall i :: 0 <= i < |l| ==> ChunkData(input, piece, l[i]) != []
    decreases |l|
  {
    if l != [] {
      CoversBound(piece, l[1..], piece[l[0]].hi, hi);
      CoversNonEmpty(input, piece, l[1..], piece[l[0]].hi, hi);
      assert l == [l[0]] + l[1..];
    }
  }

  /** What a round leaves behind. */
  ghost predicate RoundIs(c: Pipeline.Codec, input: Bytes, ts: seq<Trace>, r: nat)
    requires r < |ts|
  {
    && StartOf(ts, r) <= StartOf(ts, r + 1) <= |input|
    && DataOf(ChunksOf(input, r, ts[r])) == input[StartOf(ts, r)..StartOf(ts, r + 1)]
    && (forall x :: x in ListOf(ts[r]) ==> ChunkAt(input, ts[r], x) != [])
    && (forall x: Id :: Visited(EndOf(ts[r]), x) <==> x in ListOf(ts[r]))
    && Distinct(ListOf(ts[r]))
    && TaskTable.TableOk(c, input, r, EndOf(ts[r]), TableBefore(ts, r), TableBefore(ts, r + 1))
  }

  lemma {:induction false} RoundEnd(c: Pipeline.Codec, input: Bytes, ts: seq<Trace>, r: nat)
    requires r < |ts| && RoundDone(c, input, ts, r)
    ensures RoundIs(c, input, ts, r)
  {
    hide Walk, BytesOf, TaskRound.Seen, Over, DataOf, ChunkData, TaskTable.TableOk, Visited, Run;
    var t, start := ts[r], StartOf(ts, r);
    var s := EndOf(t);
    RunsIsRun(c, input, r, t, start, TableBefore(ts, r));
    RoundEnds(t.states, start, input);
    DataIs(input, s.piece, ListOf(t), ChunksOf(input, r, t));
    RunTable(c, input, r, t, start, TableBefore(ts, r), |t.states| - 1);
    RoundCovers(t.states, start);
    CoversNonEmpty(input, s.piece, ListOf(t), start, s.seek);
    forall x: Id
      ensures Visited(s, x) <==> x in ListOf(t)
    {
      VisitedIsSeen(s, x);
    }
  }

  lemma {:induction false} RoundCovers(states: seq<State>, start: nat)
    requires Run(states, start) && Over(states[|states| - 1])
    ensures var s := states[|states| - 1]; Covers(s.piece, Walk(s.next, s.first, |s.next|), start, s.seek)
  {
    hide Linked, Covers, Parts, Walk;
    var s := states[|states| - 1];
    RunInv(states, start, |states| - 1);
    LinkedSize(s.next, List(s));
    assert List(s)[0..] == List(s);
    WalkVisits(s.next, List(s), 0, |s.next|);
  }

  /** The rounds so far have cut up the input so far. */
  lemma {:induction false} InputSoFar(c: Pipeline.Codec, input: Bytes, ts: seq<Trace>, r: nat)
    requires AllDone(c, input, ts) && r <= |ts|
    ensures StartOf(ts, r) <= |input| && DataOf(All(input, ts[..r])) == input[..StartOf(ts, r)]
    ensures NoneEmpty(All(input, ts[..r]))
  {
    hide RoundDone, ListOf, ChunkData, ChunkAt, ChunksOf, EndOf, Visited, TaskTable.TableOk, DataOf, NoneEmpty;
    if r == 0 {
      NoInput(input, ts);
    } else {
      InputSoFar(c, input, ts, r - 1);
      RoundEnd(c, input, ts, r - 1);
      AllStep(input, ts, r - 1);
      var a, b := All(input, ts[..r - 1]), ChunksOf(input, r - 1, ts[r - 1]);
      DataOfAppend(a, b);
      var lo, hi := StartOf(ts, r - 1), StartOf(ts, r);
      assert input[..hi] == input[..lo] + input[lo..hi];
      RoundNonEmpty(c, input, ts, r - 1);
      NoneEmptyAppend(a, b);
    }
  }

  predicate NoneEmpty(cs: seq<Chunk>) { forall n :: 0 <= n < |cs| ==> cs[n].data != [] }

  lemma NoInput(input: Bytes, ts: seq<Trace>)
    ensures StartOf(ts, 0) == 0 && DataOf(All(input, ts[..0])) == [] && NoneEmpty(All(input, ts[..0]))
  {
  }

  lemma NoneEmptyAppend(a: seq<Chunk>, b: seq<Chunk>)
    requires NoneEmpty(a) && NoneEmpty(b)
    ensures NoneEmpty(a + b)
  {
  }

  lemma RoundNonEmpty(c: Pipeline.Codec, input: Bytes, ts: seq<Trace>, r: nat)
    requires r < |ts| && RoundIs(c, input, ts, r)
    ensures NoneEmpty(ChunksOf(input, r, ts[r]))
  {
    hide ListOf, ChunkAt, Visited, TaskTable.TableOk, DataOf;
    var cs := ChunksOf(input, r, ts[r]);
    forall n | 0 <= n < |cs|
      ensures cs[n].data != []
    {
      assert ListOf(ts[r])[n] in ListOf(ts[r]);
    }
  }

  /** An entry of the table is a chunk of an earlier round that has the digest. */
  ghost predicate EntryIs(c: Pipeline.Codec, input: Bytes, ts: seq<Trace>, r: nat, h: Bytes, e: Entry)
    requires r <= |ts|
  {
    e.round < r && e.id in ListOf(ts[e.round]) && c.sha(ChunkAt(input, ts[e.round], e.id)) == h
  }

  /** Between the rounds the table has the digests of all chunks so far. */
  ghost predicate TableIs(c: Pipeline.Codec, input: Bytes, ts: seq<Trace>, r: nat)
    requires r <= |ts|
  {
    var tab := TableBefore(ts, r);
    && (forall h :: h in tab ==> EntryIs(c, input, ts, r, h, tab[h]))
    && forall n :: 0 <= n < |All(input, ts[..r])| ==> c.sha(All(input, ts[..r])[n].data) in tab
  }

  lemma {:induction false} TableSoFar(c: Pipeline.Codec, input: Bytes, ts: seq<Trace>, r: nat)
    requires AllDone(c, input, ts) && r <= |ts|
    ensures TableIs(c, input, ts, r)
  {
    hide RoundDone, RoundIs, TableIs;
    if r == 0 {
      NoTable(c, input, ts);
    } else {
      TableSoFar(c, input, ts, r - 1);
      RoundEnd(c, input, ts, r - 1);
      TableNext(c, input, ts, r - 1);
    }
  }

  lemma NoTable(c: Pipeline.Codec, input: Bytes, ts: seq<Trace>)
    ensures TableIs(c, input, ts, 0)
  {
  }

  lemma {:induction false} TableNext(c: Pipeline.Codec, input: Bytes, ts: seq<Trace>, r: nat)
    requires r < |ts| && TableIs(c, input, ts, r) && RoundIs(c, input, ts, r)
    ensures TableIs(c, input, ts, r + 1)
  {
    hide ListOf, ChunkData, Visited, DataOf, EndOf, EndTable;
    var was, tab, s := TableBefore(ts, r), TableBefore(ts, r + 1), EndOf(ts[r]);
    forall h | h in tab
      ensures EntryIs(c, input, ts, r + 1, h, tab[h])
    {
      if h in was {
        assert EntryIs(c, input, ts, r, h, was[h]);
      } else {
        assert NewEntry(c, input, r, s, h, tab[h]);
      }
    }
    AllStep(input, ts, r);
    var a, b := All(input, ts[..r]), ChunksOf(input, r, ts[r]);
    forall n | 0 <= n < |a + b|
      ensures var all: seq<Chunk> := a + b; c.sha(all[n].data) in tab
    {
      if n >= |a| {
        var x := ListOf(ts[r])[n - |a|];
        assert x in ListOf(ts[r]);
        assert Visited(s, x);
      }
    }
  }

  /** Where an address is in a list. */
  function IndexOf(l: seq<Id>, x: Id): (i: nat)
    ensures x in l ==> i < |l| && l[i] == x
  {
    if l == [] then 0 else if l[|l| - 1] == x then |l| - 1 else IndexOf(l[..|l| - 1], x)
  }

  /** The number of a chunk among those of all rounds. */
  function Number(input: Bytes, ts: seq<Trace>, e: Entry): nat {
    if e.round < |ts| then |All(input, ts[..e.round])| + IndexOf(ListOf(ts[e.round]), e.id) else 0
  }

  lemma {:induction false} AllPrefix(input: Bytes, ts: seq<Trace>, q: nat, r: nat)
    requires q <= r <= |ts|
    ensures All(input, ts[..q]) <= All(input, ts[..r])
    decreases r
  {
    if q < r {
      AllPrefix(input, ts, q, r - 1);
      AllStep(input, ts, r - 1);
    }
  }

  lemma {:induction false} NumberIs(c: Pipeline.Codec, input: Bytes, ts: seq<Trace>, r: nat, h: Bytes, e: Entry)
    requires r <= |ts| && EntryIs(c, input, ts, r, h, e)
    ensures Number(input, ts, e) < |All(input, ts[..r])| <= |All(input, ts)|
    ensures c.sha(All(input, ts)[Number(input, ts, e)].data) == h
  {
    hide ListOf, ChunkData;
    var q := e.round;
    AllStep(input, ts, q);
    AllPrefix(input, ts, q + 1, r);
    AllPrefix(input, ts, r, |ts|);
    assert ts[..|ts|] == ts;
    var k, b := Number(input, ts, e), ChunksOf(input, q, ts[q]);
    assert All(input, ts[..q + 1])[k] == b[k - |All(input, ts[..q])|];
    assert All(input, ts)[k] == All(input, ts[..q + 1])[k];
  }

  /** The table of a round, with numbers for addresses. */
  function Numbered(input: Bytes, ts: seq<Trace>, tab: Table): map<Bytes, nat> {
    map h | h in tab :: Number(input, ts, tab[h])
  }

  /** At which step of the next round each chunk of a round is written. */
  type Moments = (nat, nat) -> nat

  /** The table when chunk i of round r is written: that of some moment of the next round, if there is one. */
  function TableAt(ts: seq<Trace>, when: Moments, r: nat, i: nat): Table
    requires r < |ts|
  {
    if r + 1 < |ts| && when(r, i) < |ts[r + 1].tables| then ts[r + 1].tables[when(r, i)] else TableBefore(ts, r + 1)
  }

  function RoundOf(input: Bytes, ts: seq<Trace>, when: Moments, r: nat): Round
    requires r < |ts|
  {
    Round(|All(input, ts[..r + 1])|, Numbered(input, ts, TableBefore(ts, r + 1)),
          seq(|ListOf(ts[r])|, (i: nat) => Numbered(input, ts, TableAt(ts, when, r, i))))
  }

  function RoundsOf(input: Bytes, ts: seq<Trace>, when: Moments): seq<Round> {
    seq(|ts|, (r: nat) requires r < |ts| => RoundOf(input, ts, when, r))
  }

  lemma {:induction false} RoundLookedUp(c: Pipeline.Codec, input: Bytes, ts: seq<Trace>, when: Moments, r: nat)
    requires AllDone(c, input, ts) && r < |ts|
    ensures var d := RoundOf(input, ts, when, r); d.hi <= |All(input, ts)| && LookedUp(c, All(input, ts), d.table, d.hi)
  {
    hide RoundDone, EntryIs, Number, EndOf, EndTable;
    var d, cs, tab := RoundOf(input, ts, when, r), All(input, ts), TableBefore(ts, r + 1);
    TableSoFar(c, input, ts, r + 1);
    AllPrefix(input, ts, r + 1, |ts|);
    assert ts[..|ts|] == ts;
    forall h | h in tab
      ensures d.table[h] < d.hi && c.sha(cs[d.table[h]].data) == h
    {
      NumberIs(c, input, ts, r + 1, h, tab[h]);
    }
    forall n: nat | n < d.hi
      ensures c.sha(cs[n].data) in d.table
    {
      assert cs[n] == All(input, ts[..r + 1])[n];
    }
  }

  lemma {:induction false} TableGrows(c: Pipeline.Codec, input: Bytes, ts: seq<Trace>, when: Moments, r: nat)
    requires AllDone(c, input, ts) && r + 1 < |ts|
    ensures RoundOf(input, ts, when, r).hi <= RoundOf(input, ts, when, r + 1).hi
    ensures Extends(RoundOf(input, ts, when, r).table, RoundOf(input, ts, when, r + 1).table)
  {
    hide RoundDone, ListOf, ChunkData, Visited, DataOf, Number, EndOf, EndTable;
    AllPrefix(input, ts, r + 1, r + 2);
    RoundEnd(c, input, ts, r + 1);
  }

  lemma {:induction false} RoundsAreOk(c: Pipeline.Codec, input: Bytes, ts: seq<Trace>, when: Moments)
    requires AllDone(c, input, ts)
    ensures RoundsOk(c, All(input, ts), RoundsOf(input, ts, when))
  {
    hide AllDone, All, RoundOf, LookedUp, Extends, SeenOk;
    var rounds := RoundsOf(input, ts, when);
    forall r | 0 <= r < |rounds|
      ensures rounds[r].hi <= |All(input, ts)| && LookedUp(c, All(input, ts), rounds[r].table, rounds[r].hi)
    {
      RoundLookedUp(c, input, ts, when, r);
    }
    forall r | 0 <= r < |rounds| - 1
      ensures rounds[r].hi <= rounds[r + 1].hi && Extends(rounds[r].table, rounds[r + 1].table)
    {
      TableGrows(c, input, ts, when, r);
    }
    forall r | 0 <= r < |rounds|
      ensures SeenOk(rounds, r)
    {
      WrittenLater(c, input, ts, when, r);
    }
  }

  /** At every moment of the next round the entries of this one are in the table. */
  lemma {:induction false} LaterExtends(c: Pipeline.Codec, input: Bytes, ts: seq<Trace>, when: Moments, r: nat, i: nat)
    requires AllDone(c, input, ts) && r < |ts|
    ensures forall h :: h in TableBefore(ts, r + 1) ==>
              h in TableAt(ts, when, r, i) && TableAt(ts, when, r, i)[h] == TableBefore(ts, r + 1)[h]
  {
    hide Over, Visited, EndOf, EndTable;
    if r + 1 < |ts| && when(r, i) < |ts[r + 1].tables| {
      assert RoundDone(c, input, ts, r + 1);
      RunTable(c, input, r + 1, ts[r + 1], StartOf(ts, r + 1), TableBefore(ts, r + 1), when(r, i));
    }
  }

  lemma {:induction false} WrittenLater(c: Pipeline.Codec, input: Bytes, ts: seq<Trace>, when: Moments, r: nat)
    requires AllDone(c, input, ts) && r < |ts|
    ensures SeenOk(RoundsOf(input, ts, when), r)
  {
    hide AllDone, All, Number, EndOf, EndTable, TableAt, ListOf;
    var rounds := RoundsOf(input, ts, when);
    AllStep(input, ts, r);
    NoRounds(input, ts);
    forall i | 0 <= i < |rounds[r].seen|
      ensures Extends(rounds[r].table, rounds[r].seen[i])
    {
      LaterExtends(c, input, ts, when, r, i);
    }
  }

  lemma NoRounds(input: Bytes, ts: seq<Trace>)
    ensures All(input, ts[..0]) == []
  {
  }

  /** For every schedule of the tasks of every round, and whenever the chunks of a round are written while the
      next one runs, the records decode to the input, unless a chunk is too large for the decoder's buffer. */
  method WriteFile(c: Pipeline.Codec, input: Bytes, ts: seq<Trace>, when: Moments, ghost limited: bool)
    returns (out: seq<Pipeline.Record>)
    requires Encodes(c, input, ts) && SoundCodec(c) && Decoder.Injective(c, All(input, ts))
    ensures out == SerialRecords(c, All(input, ts))
    ensures var d := DecodeRecords(c, limited, EMPTY_DECODED, out);
            if Fits(limited, All(input, ts)) then d.Ok? && d.value.output == input else d == Err(UncompressError)
  {
    hide AllDone, All, RoundOf, SoundCodec, Decoder.Injective, RoundsOk, StartOf;
    RoundsAreOk(c, input, ts, when);
    assert ts[..|ts|] == ts;
    assert RoundOf(input, ts, when, |ts| - 1).hi == |All(input, ts)| by {
      LastRound(input, ts, when);
    }
    out := WriteRounds(c, All(input, ts), RoundsOf(input, ts, when));
    InputSoFar(c, input, ts, |ts|);
    assert input[..|input|] == input;
    DecodeSerial(c, limited, All(input, ts));
  }

  lemma LastRound(input: Bytes, ts: seq<Trace>, when: Moments)
    requires ts != []
    ensures RoundOf(input, ts, when, |ts| - 1).hi == |All(input, ts)|
  {
    hide All, Numbered;
    assert ts[..|ts|] == ts;
  }

  /** A run on one byte: the fragment task makes a chunk and hands it over, the refining task finds no cut,
      and its batch looks the chunk up. */
  function Small(c: Pipeline.Codec, b: Byte): Trace {
    var s1 := State(map[7 := None], map[7 := Piece(0, 1)], Some(7), 1, Some(7), Some(7), 0, false, [], [7]);
    var s2 := s1.(over := true, kept := [], tasks := [Spawned(Some(7), 1, [7])]);
    var s3 := s2.(tasks := [Refine(None, 0, Some(7), 1, false, [], [7], [])]);
    var s4 := s3.(tasks := [Refine(None, 0, Some(7), 0, true, [Batch(Some(7), 1, [7], [])], [], [])]);
    var s5 := s4.(tasks := [Refine(None, 0, Some(7), 0, true, [Batch(None, 0, [7], [7])], [], [])]);
    Trace([Start(0), s1, s2, s3, s4, s5], [map[], map[], map[], map[], map[], map[c.sha([b]) := Entry(0, 7)]])
  }

  lemma SetOnly<T>(s: seq<T>, x: T)
    requires |s| == 1
    ensures s[0 := x] == [x]
  {
  }

  lemma {:induction false} SmallOther(c: Pipeline.Codec, b: Byte, i: nat)
    requires i < 4
    ensures Other(Small(c, b).states[i], Small(c, b).states[i + 1])
  {
    var ss := Small(c, b).states;
    if i == 0 {
      assert Create(ss[0], ss[1], 7, 1);
    } else if i == 1 {
      assert Finish(ss[1], ss[2]);
    } else if i == 2 {
      assert [7][1..] == [] && [] + [7] == [7];
      SetOnly(ss[2].tasks, ss[3].tasks[0]);
      assert Advance(ss[2], ss[3], 0);
    } else {
      assert [] + [Batch(Some(7), 1, [7], [])] == [Batch(Some(7), 1, [7], [])];
      SetOnly(ss[3].tasks, ss[4].tasks[0]);
      assert Close(ss[3], ss[4], 0);
    }
  }

  /** So there are runs as they are assumed here. */
  lemma {:induction false} SmallEncodes(c: Pipeline.Codec, b: Byte)
    ensures Encodes(c, [b], [Small(c, b)])
  {
    var t := Small(c, b);
    var ss, x := t.states, ChunkData([b], t.states[4].piece, 7);
    assert x == [b];
    assert [] + [7] == [7];
    SetOnly(ss[4].tasks, ss[5].tasks[0]);
    SetOnly(ss[4].tasks[0].batches, ss[5].tasks[0].batches[0]);
    assert LooksUp(c, [b], 0, ss[4], t.tables[4], ss[5], t.tables[5], 0, 0);
    forall i | 0 <= i < |ss| - 1
      ensures StepAt(c, [b], 0, t, i)
    {
      hide Other, LooksUp;
      if i < 4 {
        SmallOther(c, b, i);
      }
    }
    assert Over(EndOf(t));
    assert RoundDone(c, [b], [t], 0);
  }
}
