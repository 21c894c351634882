/** The table of digests during a round of the encoder of encoder_task.h: every visit of a batch to a chunk
    is one look-up, and the first look-up of a digest enters the chunk. */
module TaskTable {
  import opened Chunks
  import Pipeline
  import opened TaskList
  import opened TaskRound

  /** A chunk of some round. */
  datatype Entry = Entry(round: nat, id: Id)

  type Table = map<Bytes, Entry>

  /** sub_Deduplicate: search, and insert if there is nothing yet, under one lock. */
  function Enter(tab: Table, h: Bytes, e: Entry): Table { if h in tab then tab else tab[h := e] }

  /** A step of a round in which nothing is looked up. */
  ghost predicate Other(s: State, s': State) {
    || (exists t, off :: Create(s, s', t, off))
    || Finish(s, s')
    || (exists k, t, mid :: Split(s, s', k, t, mid))
    || (exists k :: Advance(s, s', k))
    || (exists k :: Close(s, s', k))
  }

  /** A visit of a batch. */
  ghost predicate LooksUp(
        c: Pipeline.Codec, input: Bytes, r: nat, s: State, tab: Table, s': State, tab': Table, k: nat, i: nat)
  {
    && Process(s, s', k, i)
    && var x := s.tasks[k].batches[i].chunk.value;
       tab' == Enter(tab, c.sha(ChunkData(input, s.piece, x)), Entry(r, x))
  }

  ghost predicate TableStep(c: Pipeline.Codec, input: Bytes, r: nat, s: State, tab: Table, s': State, tab': Table) {
    (Other(s, s') && tab' == tab) || exists k: nat, i: nat :: LooksUp(c, input, r, s, tab, s', tab', k, i)
  }

  lemma TableStepIsStep(c: Pipeline.Codec, input: Bytes, r: nat, s: State, tab: Table, s': State, tab': Table)
    requires TableStep(c, input, r, s, tab, s', tab')
    ensures Step(s, s')
  {
    hide Create, Finish, Split, Advance, Close, Process, Enter;
    if !Other(s, s') {
      var k: nat, i: nat :| LooksUp(c, input, r, s, tab, s', tab', k, i);
      assert Process(s, s', k, i);
    }
  }

  /** Some batch has visited the chunk. */
  ghost predicate Visited(s: State, x: Id) { exists k: nat, i: nat :: VisitedBy(s, k, i, x) }

  predicate VisitedBy(s: State, k: nat, i: nat, x: Id) {
    k < |s.tasks| && i < |s.tasks[k].batches| && x in s.tasks[k].batches[i].seen
  }

  lemma {:induction false} SeenByMember(bs: seq<Batch>, x: Id)
    ensures x in SeenBy(bs) <==> exists i: nat :: i < |bs| && x in bs[i].seen
  {
    if bs != [] {
      var n := |bs| - 1;
      SeenByMember(bs[..n], x);
      if i: nat :| i < n && x in bs[i].seen {
        assert x in bs[..n][i].seen;
      }
    }
  }

  lemma {:induction false} SeenMember(rs: seq<Refine>, x: Id)
    ensures x in Seen(rs) <==> exists k: nat :: k < |rs| && x in SeenBy(rs[k].batches)
  {
    hide SeenBy;
    if rs != [] {
      var n := |rs| - 1;
      SeenMember(rs[..n], x);
      if k: nat :| k < n && x in SeenBy(rs[k].batches) {
        assert x in SeenBy(rs[..n][k].batches);
      }
    }
  }

  lemma {:induction false} VisitedIsSeen(s: State, x: Id)
    ensures Visited(s, x) <==> x in Seen(s.tasks)
  {
    SeenMember(s.tasks, x);
    if Visited(s, x) {
      var k: nat, i: nat :| VisitedBy(s, k, i, x);
      SeenByMember(s.tasks[k].batches, x);
    }
    if k: nat :| k < |s.tasks| && x in SeenBy(s.tasks[k].batches) {
      SeenByMember(s.tasks[k].batches, x);
      var i: nat :| i < |s.tasks[k].batches| && x in s.tasks[k].batches[i].seen;
      assert VisitedBy(s, k, i, x);
    }
  }

  predicate Settled(s: State, x: Id) { x in s.next && forall k :: 0 <= k < |s.tasks| ==> x !in s.tasks[k].rest }

  /** A visited chunk is in the list and is not one that is still to be refined. */
  lemma {:induction false} VisitedIs(s: State, x: Id, start: nat)
    requires Inv(s, start) && Visited(s, x)
    ensures Settled(s, x)
  {
    hide Covers, Parts, BatchIds;
    var k: nat, i: nat :| VisitedBy(s, k, i, x);
    assert TaskOk(s.tasks[k]) && BatchOk(s.tasks[k].batches[i]);
    assert x in s.tasks[k].batches[i].ids;
    var a, z := OwnInList(s, Batching(k, i));
    assert x in List(s);
    var p :| 0 <= p < |List(s)| && List(s)[p] == x;
    forall m | 0 <= m < |s.tasks|
      ensures x !in s.tasks[m].rest
    {
      if x in s.tasks[m].rest {
        assert x in Own(s, Refining(m));
        if k <= m {
          Ordered(s, Batching(k, i), Refining(m), x, x);
        } else {
          Ordered(s, Refining(m), Batching(k, i), x, x);
        }
      }
    }
  }

  /** The chunk of a refining task is the first of those it still has. */
  lemma AtFirst(s: State, k: nat, start: nat)
    requires Inv(s, start) && k < |s.tasks| && s.tasks[k].left > 0
    ensures s.tasks[k].rest != [] && s.tasks[k].chunk == Some(s.tasks[k].rest[0])
  {
    hide Linked, Covers, Parts;
    assert TaskOk(s.tasks[k]);
  }

  /** All batches are still there, and a new one has visited nothing. */
  ghost predicate OnlyNewBatches(s: State, s': State) {
    && |s.tasks| <= |s'.tasks|
    && (forall k :: 0 <= k < |s.tasks| ==> NewBatches(s.tasks[k].batches, s'.tasks[k].batches))
    && forall k :: |s.tasks| <= k < |s'.tasks| ==> s'.tasks[k].batches == []
  }

  predicate NewBatches(a: seq<Batch>, b: seq<Batch>) { a <= b && forall i :: |a| <= i < |b| ==> b[i].seen == [] }

  lemma SameVisits(s: State, s': State, x: Id)
    requires OnlyNewBatches(s, s')
    ensures Visited(s', x) <==> Visited(s, x)
  {
    if Visited(s, x) {
      var k: nat, i: nat :| VisitedBy(s, k, i, x);
      assert NewBatches(s.tasks[k].batches, s'.tasks[k].batches);
      assert VisitedBy(s', k, i, x);
    }
    if Visited(s', x) {
      var k: nat, i: nat :| VisitedBy(s', k, i, x);
      assert k < |s.tasks| ==> NewBatches(s.tasks[k].batches, s'.tasks[k].batches);
      assert VisitedBy(s, k, i, x);
    }
  }

  /** No other step visits a chunk or changes the part of one that has been visited. */
  lemma {:induction false} OtherKeeps(s: State, s': State, start: nat, x: Id)
    requires Inv(s, start) && Other(s, s')
    ensures Visited(s', x) <==> Visited(s, x)
    ensures Visited(s, x) ==> SamePiece(s.piece, s'.piece, x)
  {
    hide Inv, Visited, Create, Finish, Split, Advance, Close, OnlyNewBatches, SamePiece, Settled;
    if Visited(s, x) {
      VisitedIs(s, x, start);
    }
    if t, off :| Create(s, s', t, off) {
      CreateKeeps(s, s', t, off, x);
    } else if Finish(s, s') {
      FinishKeeps(s, s', x);
    } else if k, t, mid :| Split(s, s', k, t, mid) {
      SplitKeeps(s, s', k, t, mid, start, x);
    } else if k :| Advance(s, s', k) {
      AdvanceKeeps(s, s', k, x);
    } else {
      var k :| Close(s, s', k);
      CloseKeeps(s, s', k, x);
    }
    SameVisits(s, s', x);
  }

  predicate SamePiece(piece: map<Id, Piece>, piece': map<Id, Piece>, x: Id) {
    (x in piece' <==> x in piece) && (x in piece ==> piece'[x] == piece[x])
  }

  lemma CreateKeeps(s: State, s': State, t: Id, off: nat, x: Id)
    requires Create(s, s', t, off)
    ensures OnlyNewBatches(s, s') && (Settled(s, x) ==> SamePiece(s.piece, s'.piece, x))
  {
  }

  lemma FinishKeeps(s: State, s': State, x: Id)
    requires Finish(s, s')
    ensures OnlyNewBatches(s, s') && SamePiece(s.piece, s'.piece, x)
  {
  }

  lemma CountedBatches(r: Refine, y: Id, chunk: Option<Id>)
    ensures NewBatches(r.batches, Counted(r, y, chunk).batches)
  {
  }

  lemma SplitKeeps(s: State, s': State, k: nat, t: Id, mid: nat, start: nat, x: Id)
    requires Inv(s, start) && Split(s, s', k, t, mid)
    ensures OnlyNewBatches(s, s')
    ensures Settled(s, x) ==> SamePiece(s.piece, s'.piece, x)
  {
    hide Inv, Counted;
    AtFirst(s, k, start);
    CountedBatches(s.tasks[k], s.tasks[k].chunk.value, Some(t));
  }

  lemma AdvanceKeeps(s: State, s': State, k: nat, x: Id)
    requires Advance(s, s', k)
    ensures OnlyNewBatches(s, s') && SamePiece(s.piece, s'.piece, x)
  {
    hide Counted;
    CountedBatches(s.tasks[k], s.tasks[k].chunk.value, s.next[s.tasks[k].chunk.value]);
  }

  lemma CloseKeeps(s: State, s': State, k: nat, x: Id)
    requires Close(s, s', k)
    ensures OnlyNewBatches(s, s') && SamePiece(s.piece, s'.piece, x)
  {
  }

  lemma ProcessVisits(s: State, s': State, k: nat, i: nat, x: Id)
    requires Process(s, s', k, i)
    ensures s'.piece == s.piece
    ensures Visited(s', x) <==> Visited(s, x) || s.tasks[k].batches[i].chunk == Some(x)
  {
    var b := s.tasks[k].batches[i];
    if Visited(s, x) {
      var m: nat, j: nat :| VisitedBy(s, m, j, x);
      assert VisitedBy(s', m, j, x);
    }
    if b.chunk == Some(x) {
      assert VisitedBy(s', k, i, x);
    }
    if Visited(s', x) {
      var m: nat, j: nat :| VisitedBy(s', m, j, x);
      if b.chunk != Some(x) {
        assert VisitedBy(s, m, j, x);
      }
    }
  }

  /** In the middle of round r: the entries of the rounds before are there, a new entry is a chunk of this
      round that has been visited and has the digest, and the digest of every visited chunk is there. */
  ghost predicate TableOk(c: Pipeline.Codec, input: Bytes, r: nat, s: State, was: Table, tab: Table) {
    && (forall h :: h in was ==> h in tab && tab[h] == was[h])
    && (forall h :: h in tab && h !in was ==> NewEntry(c, input, r, s, h, tab[h]))
    && forall x: Id :: Visited(s, x) ==> c.sha(ChunkData(input, s.piece, x)) in tab
  }

  ghost predicate NewEntry(c: Pipeline.Codec, input: Bytes, r: nat, s: State, h: Bytes, e: Entry) {
    e.round == r && Visited(s, e.id) && c.sha(ChunkData(input, s.piece, e.id)) == h
  }

  lemma {:induction false} StepTable(
      c: Pipeline.Codec, input: Bytes, r: nat, s: State, was: Table, tab: Table, s': State, tab': Table, start: nat)
    requires Inv(s, start) && TableOk(c, input, r, s, was, tab) && TableStep(c, input, r, s, tab, s', tab')
    ensures TableOk(c, input, r, s', was, tab')
  {
    hide Inv, TableOk, LooksUp, Other;
    if Other(s, s') && tab' == tab {
      OtherTable(c, input, r, s, was, tab, s', start);
    } else {
      var k: nat, i: nat :| LooksUp(c, input, r, s, tab, s', tab', k, i);
      LookUpTable(c, input, r, s, was, tab, s', tab', k, i);
    }
  }

  lemma {:induction false} OtherTable(
      c: Pipeline.Codec, input: Bytes, r: nat, s: State, was: Table, tab: Table, s': State, start: nat)
    requires Inv(s, start) && TableOk(c, input, r, s, was, tab) && Other(s, s')
    ensures TableOk(c, input, r, s', was, tab)
  {
    hide Inv, Visited, Other, ChunkData;
    forall x: Id
      ensures Visited(s', x) <==> Visited(s, x)
      ensures Visited(s, x) ==> ChunkData(input, s'.piece, x) == ChunkData(input, s.piece, x)
    {
      OtherKeeps(s, s', start, x);
      if Visited(s, x) {
        SameData(input, s.piece, s'.piece, x);
      }
    }
    forall h | h in tab && h !in was
      ensures NewEntry(c, input, r, s', h, tab[h])
    {
      assert NewEntry(c, input, r, s, h, tab[h]);
    }
  }

  lemma {:induction false} LookUpTable(
      c: Pipeline.Codec, input: Bytes, r: nat, s: State, was: Table, tab: Table, s': State, tab': Table, k: nat, i: nat)
    requires TableOk(c, input, r, s, was, tab) && LooksUp(c, input, r, s, tab, s', tab', k, i)
    ensures TableOk(c, input, r, s', was, tab')
  {
    var x := s.tasks[k].batches[i].chunk.value;
    forall y: Id
      ensures s'.piece == s.piece && (Visited(s', y) <==> Visited(s, y) || y == x)
    {
      ProcessVisits(s, s', k, i, y);
    }
    hide Visited, Process, ChunkData;
    forall h | h in tab' && h !in was
      ensures NewEntry(c, input, r, s', h, tab'[h])
    {
      assert h in tab ==> NewEntry(c, input, r, s, h, tab[h]);
    }
  }

  lemma SameData(input: Bytes, piece: map<Id, Piece>, piece': map<Id, Piece>, x: Id)
    requires SamePiece(piece, piece', x)
    ensures ChunkData(input, piece', x) == ChunkData(input, piece, x)
  {
  }

  /** A run of round r, with the table after each step. */
  datatype Trace = Trace(states: seq<State>, tables: seq<Table>)

  ghost predicate StepAt(c: Pipeline.Codec, input: Bytes, r: nat, t: Trace, i: nat)
    requires |t.states| == |t.tables| && i + 1 < |t.states|
  {
    TableStep(c, input, r, t.states[i], t.tables[i], t.states[i + 1], t.tables[i + 1])
  }

  ghost predicate RunsFrom(c: Pipeline.Codec, input: Bytes, r: nat, t: Trace, start: nat, was: Table) {
    && |t.states| == |t.tables| > 0 && t.states[0] == Start(start) && t.tables[0] == was
    && forall i :: 0 <= i < |t.states| - 1 ==> StepAt(c, input, r, t, i)
  }

  lemma RunsIsRun(c: Pipeline.Codec, input: Bytes, r: nat, t: Trace, start: nat, was: Table)
    requires RunsFrom(c, input, r, t, start, was)
    ensures Run(t.states, start)
  {
    hide TableStep, Step;
    forall i | 0 <= i < |t.states| - 1
      ensures Goes(t.states, i)
    {
      assert StepAt(c, input, r, t, i);
      TableStepIsStep(c, input, r, t.states[i], t.tables[i], t.states[i + 1], t.tables[i + 1]);
    }
  }

  lemma {:induction false} RunTable(c: Pipeline.Codec, input: Bytes, r: nat, t: Trace, start: nat, was: Table, i: nat)
    requires RunsFrom(c, input, r, t, start, was) && i < |t.states|
    ensures TableOk(c, input, r, t.states[i], was, t.tables[i])
  {
    hide Inv, TableStep;
    if i > 0 {
      RunTable(c, input, r, t, start, was, i - 1);
      RunsIsRun(c, input, r, t, start, was);
      RunInv(t.states, start, i - 1);
      assert StepAt(c, input, r, t, i - 1);
      StepTable(c, input, r, t.states[i - 1], was, t.tables[i - 1], t.states[i], t.tables[i], start);
    }
  }
}
