/** One round of the encoder of encoder_task.h: the fragment task, the refining tasks and the batches that they hand
    to DeduplicateAndCompress, in any interleaving. */
module TaskRound {
  import opened Chunks
  import opened TaskList

  const TASK_CUTOFF_FRAGMENT: nat := 1
  const TASK_CUTOFF_FRAGMENT_REFINE: nat := 20

  /** A DeduplicateAndCompress task. Histories: the chunks it is meant for, and those it has visited. */
  datatype Batch = Batch(chunk: Option<Id>, left: nat, ids: seq<Id>, seen: seq<Id>)

  /** A FragmentRefine task. Histories: the chunks it has counted for the next batch, and those not counted yet. */
  datatype Refine = Refine(chunk: Option<Id>, left: nat, childHead: Option<Id>, childNum: nat, done: bool,
                           batches: seq<Batch>, counted: seq<Id>, rest: seq<Id>)

  /** The memory of the chunks, and the variables of the fragment task. History: chunks not handed over yet. */
  datatype State = State(next: map<Id, Option<Id>>, piece: map<Id, Piece>, first: Option<Id>,
                         seek: nat, head: Option<Id>, childHead: Option<Id>, childNum: nat, over: bool,
                         tasks: seq<Refine>, kept: seq<Id>)

  function Start(seek: nat): State { State(map[], map[], None, seek, None, None, 0, false, [], []) }

  function Spawned(head: Option<Id>, num: nat, ids: seq<Id>): Refine { Refine(head, num, head, 0, false, [], [], ids) }

  /** The fragment task makes a chunk that reaches to off and links it behind the last one. */
  ghost predicate Create(s: State, s': State, t: Id, off: nat) {
    && !s.over && t !in s.next && s.seek < off
    && (s.head.Some? ==> s.head.value in s.next)
    && var linked := if s.head == None then s.next[t := None] else s.next[t := None][s.head.value := Some(t)];
       var num := if s.head == None then 0 else s.childNum + 1;
       var hand := s.head.Some? && num >= TASK_CUTOFF_FRAGMENT;
       s' == s.(next := linked, piece := s.piece[t := Piece(s.seek, off)], seek := off, head := Some(t),
                first := if s.first == None then Some(t) else s.first,
                childHead := if hand || s.childHead == None then Some(t) else s.childHead,
                childNum := if hand then 0 else num,
                tasks := if hand then s.tasks + [Spawned(s.childHead, num, s.kept)] else s.tasks,
                kept := if hand then [t] else s.kept + [t])
  }

  /** The fragment task hands over what is left and waits. */
  ghost predicate Finish(s: State, s': State) {
    && !s.over
    && s' == s.(over := true, kept := [],
                tasks := s.tasks + [Spawned(s.childHead, s.childNum + if s.head == None then 0 else 1, s.kept)])
  }

  /** A chunk has been dealt with: it is counted, and enough of them make a batch. */
  function Counted(r: Refine, c: Id, chunk: Option<Id>): Refine {
    if r.childNum + 1 >= TASK_CUTOFF_FRAGMENT_REFINE then
      r.(chunk := chunk, childHead := chunk, childNum := 0, counted := [],
         batches := r.batches + [Batch(r.childHead, r.childNum + 1, r.counted + [c], [])])
    else
      r.(chunk := chunk, childNum := r.childNum + 1, counted := r.counted + [c])
  }

  function Tail(l: seq<Id>): seq<Id> { if l == [] then [] else l[1..] }

  /** A refining task finds a cut inside its chunk. */
  ghost predicate Split(s: State, s': State, k: nat, t: Id, mid: nat) {
    && k < |s.tasks|
    && var r := s.tasks[k];
       !r.done && r.left > 0 && r.chunk.Some? && t !in s.next
       && var c := r.chunk.value;
          c in s.next && c in s.piece && s.piece[c].lo < mid < s.piece[c].hi
          && s' == s.(next := s.next[t := s.next[c]][c := Some(t)],
                      piece := s.piece[t := Piece(mid, s.piece[c].hi)][c := Piece(s.piece[c].lo, mid)],
                      tasks := s.tasks[k := Counted(r, c, Some(t)).(rest := [t] + Tail(r.rest))])
  }

  /** It finds none and goes on to the next chunk. */
  ghost predicate Advance(s: State, s': State, k: nat) {
    && k < |s.tasks|
    && var r := s.tasks[k];
       !r.done && r.left > 0 && r.chunk.Some? && r.chunk.value in s.next
       && var r' := Counted(r, r.chunk.value, s.next[r.chunk.value]);
          s' == s.(tasks := s.tasks[k := r'.(left := r.left - 1, rest := Tail(r.rest))])
  }

  /** It has no chunk left and hands over the last batch. */
  ghost predicate Close(s: State, s': State, k: nat) {
    && k < |s.tasks|
    && var r := s.tasks[k];
       !r.done && r.left == 0
       && var last := Batch(r.childHead, r.childNum, r.counted, []);
          s' == s.(tasks := s.tasks[k := r.(done := true, childNum := 0, counted := [], batches := r.batches + [last])])
  }

  /** A batch processes a chunk and follows its link. */
  ghost predicate Process(s: State, s': State, k: nat, i: nat) {
    && k < |s.tasks| && i < |s.tasks[k].batches|
    && var b := s.tasks[k].batches[i];
       b.left > 0 && b.chunk.Some? && b.chunk.value in s.next
       && s' == s.(tasks := s.tasks[k := s.tasks[k].(batches := s.tasks[k].batches[i :=
                     b.(chunk := s.next[b.chunk.value], left := b.left - 1, seen := b.seen + [b.chunk.value])])])
  }

  ghost predicate Step(s: State, s': State) {
    || (exists t, off :: Create(s, s', t, off))
    || Finish(s, s')
    || (exists k, t, mid :: Split(s, s', k, t, mid))
    || (exists k :: Advance(s, s', k))
    || (exists k :: Close(s, s', k))
    || (exists k, i :: Process(s, s', k, i))
  }

  /** What the batches hold, what a refining task holds, what all hold. */
  function BatchIds(bs: seq<Batch>): seq<Id> { if bs == [] then [] else BatchIds(bs[..|bs| - 1]) + bs[|bs| - 1].ids }

  function Part(r: Refine): seq<Id> { BatchIds(r.batches) + r.counted + r.rest }

  function Parts(rs: seq<Refine>): seq<Id> { if rs == [] then [] else Parts(rs[..|rs| - 1]) + Part(rs[|rs| - 1]) }

  function List(s: State): seq<Id> { Parts(s.tasks) + s.kept }

  predicate BatchOk(b: Batch) {
    && b.left <= |b.ids| && b.seen == b.ids[..|b.ids| - b.left]
    && (b.left > 0 ==> b.chunk == Some(b.ids[|b.ids| - b.left]))
  }

  predicate TaskOk(r: Refine) {
    && r.left == |r.rest| && (r.rest != [] ==> r.chunk == Some(r.rest[0]))
    && r.childNum == |r.counted| && (r.counted + r.rest != [] ==> r.childHead == Some((r.counted + r.rest)[0]))
    && (r.done ==> r.counted == [] && r.rest == [])
    && forall i :: 0 <= i < |r.batches| ==> BatchOk(r.batches[i])
  }

  predicate FragmentOk(s: State) {
    && (s.kept == [] ==> s.childHead == None && s.childNum == 0 && s.head == None && s.tasks == [])
    && (s.kept != [] ==>
         s.childHead == Some(s.kept[0]) && s.childNum == |s.kept| - 1 && s.head == Some(s.kept[|s.kept| - 1]))
  }

  predicate TasksOk(rs: seq<Refine>) { forall k :: 0 <= k < |rs| ==> TaskOk(rs[k]) }

  predicate Inv(s: State, start: nat) {
    && Linked(s.next, List(s)) && Covers(s.piece, List(s), start, s.seek) && s.first == Head(List(s))
    && TasksOk(s.tasks)
    && (if s.over then s.kept == [] else FragmentOk(s))
  }

  lemma {:induction false} PartsAppend(a: seq<Refine>, b: seq<Refine>)
    ensures Parts(a + b) == Parts(a) + Parts(b)
    decreases |b|
  {
    if b == [] {
      assert a + b == a;
    } else {
      var n := |b| - 1;
      assert (a + b)[..|a + b| - 1] == a + b[..n];
      PartsAppend(a, b[..n]);
    }
  }

  lemma PartsOne(r: Refine)
    ensures Parts([r]) == Part(r)
  {
    assert [r][..0] == [];
  }

  /** The list around the part of refining task k. */
  lemma PartsAt(rs: seq<Refine>, k: nat, r: Refine)
    requires k < |rs|
    ensures Parts(rs) == Parts(rs[..k]) + Part(rs[k]) + Parts(rs[k + 1..])
    ensures Parts(rs[k := r]) == Parts(rs[..k]) + Part(r) + Parts(rs[k + 1..])
  {
    assert rs == rs[..k] + [rs[k]] + rs[k + 1..];
    assert rs[k := r] == rs[..k] + [r] + rs[k + 1..];
    PartsAppend(rs[..k] + [rs[k]], rs[k + 1..]);
    PartsAppend(rs[..k], [rs[k]]);
    PartsAppend(rs[..k] + [r], rs[k + 1..]);
    PartsAppend(rs[..k], [r]);
    PartsOne(rs[k]);
    PartsOne(r);
  }

  lemma BatchMore(bs: seq<Batch>, b: Batch)
    ensures BatchIds(bs + [b]) == BatchIds(bs) + b.ids
  {
    assert (bs + [b])[..|bs|] == bs;
  }

  lemma {:induction false} BatchSame(bs: seq<Batch>, i: nat, b: Batch)
    requires i < |bs| && b.ids == bs[i].ids
    ensures BatchIds(bs[i := b]) == BatchIds(bs)
    decreases |bs|
  {
    var n := |bs| - 1;
    if i < n {
      BatchSame(bs[..n], i, b);
      assert bs[i := b][..n] == bs[..n][i := b];
    } else {
      assert bs[i := b][..n] == bs[..n];
    }
  }

  /** Counting a chunk keeps it in the part of its task. */
  lemma CountedPart(r: Refine, c: Id, chunk: Option<Id>)
    ensures var r' := Counted(r, c, chunk); BatchIds(r'.batches) + r'.counted == BatchIds(r.batches) + r.counted + [c]
    ensures Counted(r, c, chunk).rest == r.rest && Counted(r, c, chunk).left == r.left
    ensures Counted(r, c, chunk).done == r.done
  {
    BatchMore(r.batches, Batch(r.childHead, r.childNum + 1, r.counted + [c], []));
  }

  /** The variables of a task after it has counted its chunk. */
  lemma CountedOk(r: Refine, rest: seq<Id>, chunk: Option<Id>)
    requires TaskOk(r) && !r.done && r.rest != [] && (rest != [] ==> chunk == Some(rest[0]))
    ensures TaskOk(Counted(r, r.rest[0], chunk).(left := |rest|, rest := rest))
  {
    var r' := Counted(r, r.rest[0], chunk).(left := |rest|, rest := rest);
    var b := Batch(r.childHead, r.childNum + 1, r.counted + [r.rest[0]], []);
    assert BatchOk(b);
    forall i | 0 <= i < |r'.batches|
      ensures BatchOk(r'.batches[i])
    {
      assert i < |r.batches| ==> BatchOk(r.batches[i]);
    }
  }

  /** The list before and behind the chunk that task k is at. */
  function Before(s: State, k: nat): seq<Id>
    requires k < |s.tasks|
  {
    Parts(s.tasks[..k]) + (BatchIds(s.tasks[k].batches) + s.tasks[k].counted)
  }

  function Behind(s: State, k: nat): seq<Id>
    requires k < |s.tasks|
  {
    Tail(s.tasks[k].rest) + (Parts(s.tasks[k + 1..]) + s.kept)
  }

  lemma {:induction false} Around(s: State, k: nat)
    requires k < |s.tasks| && s.tasks[k].rest != []
    ensures List(s) == Before(s, k) + [s.tasks[k].rest[0]] + Behind(s, k)
  {
    hide Parts, BatchIds;
    var r := s.tasks[k];
    PartsAt(s.tasks, k, r);
    assert r.rest == [r.rest[0]] + Tail(r.rest);
  }

  /** The list after task k has become r. */
  lemma {:induction false} Changed(s: State, k: nat, r: Refine, x: seq<Id>, rest: seq<Id>)
    requires k < |s.tasks| && BatchIds(r.batches) + r.counted == BatchIds(s.tasks[k].batches) + s.tasks[k].counted + x
    requires r.rest == rest
    ensures List(s.(tasks := s.tasks[k := r])) == Before(s, k) + (x + rest) + (Parts(s.tasks[k + 1..]) + s.kept)
  {
    hide Parts, BatchIds;
    PartsAt(s.tasks, k, r);
    assert Part(r) == BatchIds(s.tasks[k].batches) + s.tasks[k].counted + x + rest;
  }

  lemma TasksSet(rs: seq<Refine>, k: nat, r: Refine)
    requires TasksOk(rs) && k < |rs| && TaskOk(r)
    ensures TasksOk(rs[k := r])
  {
    hide TaskOk;
  }

  lemma {:induction false} AdvanceInv(s: State, s': State, k: nat, start: nat)
    requires Inv(s, start) && Advance(s, s', k)
    ensures Inv(s', start)
  {
    hide Linked, Covers, Part, Parts, BatchIds, Counted;
    var r := s.tasks[k];
    var c := r.rest[0];
    assert TaskOk(r);
    Around(s, k);
    LinkedAt(s.next, Before(s, k), c, Behind(s, k));
    HeadAppend(Tail(r.rest), Parts(s.tasks[k + 1..]) + s.kept);
    var r' := Counted(r, c, s.next[c]).(left := r.left - 1, rest := Tail(r.rest));
    CountedPart(r, c, s.next[c]);
    CountedOk(r, Tail(r.rest), s.next[c]);
    Changed(s, k, r', [c], Tail(r.rest));
    TasksSet(s.tasks, k, r');
    assert [c] + Tail(r.rest) == r.rest;
    SameList(s, s', Before(s, k), r.rest, Parts(s.tasks[k + 1..]), s.kept);
  }

  lemma SameList(s: State, s': State, a: seq<Id>, b: seq<Id>, c: seq<Id>, d: seq<Id>)
    requires List(s') == a + b + (c + d) && b != []
    requires List(s) == a + [b[0]] + (Tail(b) + (c + d))
    ensures List(s') == List(s)
  {
    assert b == [b[0]] + Tail(b);
  }

  lemma {:induction false} SplitInv(s: State, s': State, k: nat, t: Id, mid: nat, start: nat)
    requires Inv(s, start) && Split(s, s', k, t, mid)
    ensures Inv(s', start)
  {
    hide Linked, Covers, Part, Parts, BatchIds, Counted;
    var r := s.tasks[k];
    var c := r.rest[0];
    assert TaskOk(r);
    Around(s, k);
    var a, b := Before(s, k), Behind(s, k);
    LinkedAt(s.next, a, c, b);
    LinkedKnown(s.next, a + [c] + b, t);
    SplitLinked(s.next, a, c, b, t);
    SplitCovers(s.piece, a, c, b, t, mid, start, s.seek);
    var r' := Counted(r, c, Some(t)).(rest := [t] + Tail(r.rest));
    CountedPart(r, c, Some(t));
    CountedOk(r, [t] + Tail(r.rest), Some(t));
    Changed(s, k, r', [c], [t] + Tail(r.rest));
    TasksSet(s.tasks, k, r');
    assert a + ([c] + ([t] + Tail(r.rest))) + (Parts(s.tasks[k + 1..]) + s.kept) == a + [c, t] + b;
    HeadSplit(a, c, t, b);
  }

  lemma HeadSplit(a: seq<Id>, c: Id, t: Id, b: seq<Id>)
    ensures Head(a + [c, t] + b) == Head(a + [c] + b)
  {
  }

  lemma {:induction false} CloseInv(s: State, s': State, k: nat, start: nat)
    requires Inv(s, start) && Close(s, s', k)
    ensures Inv(s', start)
  {
    hide Linked, Covers, Parts, BatchIds;
    var r := s.tasks[k];
    assert TaskOk(r);
    var b := Batch(r.childHead, r.childNum, r.counted, []);
    var r' := r.(done := true, childNum := 0, counted := [], batches := r.batches + [b]);
    BatchMore(r.batches, b);
    assert BatchOk(b);
    assert Part(r') == Part(r);
    PartsAt(s.tasks, k, r');
    forall i | 0 <= i < |r'.batches|
      ensures BatchOk(r'.batches[i])
    {
      assert i < |r.batches| ==> BatchOk(r.batches[i]);
    }
    TasksSet(s.tasks, k, r');
  }

  /** A batch visits exactly its chunks, whatever the others do meanwhile. */
  lemma {:induction false} ProcessInv(s: State, s': State, k: nat, i: nat, start: nat)
    requires Inv(s, start) && Process(s, s', k, i)
    ensures Inv(s', start)
  {
    hide Linked, Covers, Parts, BatchIds;
    var r := s.tasks[k];
    var b := r.batches[i];
    assert TaskOk(r) && BatchOk(b);
    var b' := b.(chunk := s.next[b.chunk.value], left := b.left - 1, seen := b.seen + [b.chunk.value]);
    var r' := r.(batches := r.batches[i := b']);
    BatchLink(s, k, i, start);
    BatchSame(r.batches, i, b');
    assert Part(r') == Part(r);
    PartsAt(s.tasks, k, r');
    forall e | 0 <= e < |r'.batches|
      ensures BatchOk(r'.batches[e])
    {
      assert BatchOk(r.batches[e]);
    }
    TasksSet(s.tasks, k, r');
  }

  lemma {:induction false} BatchAt(bs: seq<Batch>, i: nat) returns (a: seq<Id>, z: seq<Id>)
    requires i < |bs|
    ensures BatchIds(bs) == a + bs[i].ids + z
    decreases |bs|
  {
    var n := |bs| - 1;
    if i == n {
      a, z := BatchIds(bs[..n]), [];
    } else {
      a, z := BatchAt(bs[..n], i);
      z := z + bs[n].ids;
    }
  }

  /** The link of a chunk in a batch leads to the next chunk of the batch. */
  lemma {:induction false} BatchLink(s: State, k: nat, i: nat, start: nat)
    requires Inv(s, start) && k < |s.tasks| && i < |s.tasks[k].batches| && s.tasks[k].batches[i].left > 0
    ensures var b := s.tasks[k].batches[i]; var m := |b.ids| - b.left;
            0 <= m < |b.ids| && b.ids[m] in s.next && (m + 1 < |b.ids| ==> s.next[b.ids[m]] == Some(b.ids[m + 1]))
  {
    hide Linked, Covers, Parts, BatchIds;
    var b := s.tasks[k].batches[i];
    assert TaskOk(s.tasks[k]) && BatchOk(b);
    var m := |b.ids| - b.left;
    PartsAt(s.tasks, k, s.tasks[k]);
    var a, z := BatchAt(s.tasks[k].batches, i);
    InMiddle(Parts(s.tasks[..k]), a, b.ids, z, s.tasks[k].counted + s.tasks[k].rest, Parts(s.tasks[k + 1..]) + s.kept,
        m);
    var x, y := Parts(s.tasks[..k]) + a + b.ids[..m],
        b.ids[m + 1..] + (z + (s.tasks[k].counted + s.tasks[k].rest) + (Parts(s.tasks[k + 1..]) + s.kept));
    assert List(s) == Parts(s.tasks[..k]) + (a + b.ids + z + (s.tasks[k].counted + s.tasks[k].rest)) +
        (Parts(s.tasks[k + 1..]) + s.kept);
    LinkedAt(s.next, x, b.ids[m], y);
  }

  lemma InMiddle(p: seq<Id>, a: seq<Id>, ids: seq<Id>, z: seq<Id>, c: seq<Id>, e: seq<Id>, m: nat)
    requires m < |ids|
    ensures p + (a + ids + z + c) + e == p + a + ids[..m] + [ids[m]] + (ids[m + 1..] + (z + c + e))
  {
    assert ids == ids[..m] + [ids[m]] + ids[m + 1..];
  }

  lemma LinkedKnown(next: map<Id, Option<Id>>, l: seq<Id>, t: Id)
    requires Linked(next, l)
    ensures Distinct(l) && (t !in next ==> t !in l)
  {
  }

  lemma NewTask(rs: seq<Refine>, head: Option<Id>, ids: seq<Id>)
    requires TasksOk(rs) && (ids != [] ==> head == Some(ids[0]))
    ensures TasksOk(rs + [Spawned(head, |ids|, ids)])
    ensures Parts(rs + [Spawned(head, |ids|, ids)]) == Parts(rs) + ids
  {
    hide Parts;
    var r := Spawned(head, |ids|, ids);
    PartsAppend(rs, [r]);
    PartsOne(r);
    assert Part(r) == ids;
    forall k | 0 <= k < |rs + [r]|
      ensures TaskOk((rs + [r])[k])
    {
      assert k < |rs| ==> TaskOk(rs[k]);
    }
  }

  lemma CoverOne(piece: map<Id, Piece>, l: seq<Id>, t: Id, lo: nat, seek: nat, off: nat)
    requires Covers(piece, l, lo, seek) && t !in l && seek < off
    ensures Covers(piece[t := Piece(seek, off)], l + [t], lo, off)
  {
    var piece' := piece[t := Piece(seek, off)];
    CoversSame(piece, piece', l, lo, seek);
    assert [t][1..] == [];
    assert Covers(piece', [t], seek, off);
    CoversAppend(piece', l, [t], lo, seek, off);
  }

  lemma {:induction false} CreateInv(s: State, s': State, t: Id, off: nat, start: nat)
    requires Inv(s, start) && Create(s, s', t, off)
    ensures Inv(s', start)
  {
    hide Linked, Covers, Parts;
    LinkedKnown(s.next, List(s), t);
    CoverOne(s.piece, List(s), t, start, s.seek, off);
    AppendLinked(s.next, List(s), t);
    if s.kept == [] {
      PartsNone();
      assert List(s) == [] && s'.kept == [t];
    } else {
      assert List(s)[|List(s)| - 1] == s.kept[|s.kept| - 1];
      NewTask(s.tasks, s.childHead, s.kept);
      HeadAppend(List(s), [t]);
      assert Parts(s.tasks) + s.kept + [t] == Parts(s.tasks) + (s.kept + [t]);
    }
  }

  lemma PartsNone()
    ensures Parts([]) == []
  {
  }

  lemma {:induction false} FinishInv(s: State, s': State, start: nat)
    requires Inv(s, start) && Finish(s, s')
    ensures Inv(s', start)
  {
    hide Linked, Covers, Parts;
    NewTask(s.tasks, s.childHead, s.kept);
    assert List(s') == List(s);
  }

  lemma {:induction false} StartInv(start: nat)
    ensures Inv(Start(start), start)
  {
  }

  lemma {:induction false} StepInv(s: State, s': State, start: nat)
    requires Inv(s, start) && Step(s, s')
    ensures Inv(s', start)
  {
    hide Inv, Create, Finish, Split, Advance, Close, Process;
    if t, off :| Create(s, s', t, off) {
      CreateInv(s, s', t, off, start);
    } else if Finish(s, s') {
      FinishInv(s, s', start);
    } else if k, t, mid :| Split(s, s', k, t, mid) {
      SplitInv(s, s', k, t, mid, start);
    } else if k :| Advance(s, s', k) {
      AdvanceInv(s, s', k, start);
    } else if k :| Close(s, s', k) {
      CloseInv(s, s', k, start);
    } else {
      var k, i :| Process(s, s', k, i);
      ProcessInv(s, s', k, i, start);
    }
  }

  /** A run of a round that begins where the input has been read up to start. */
  ghost predicate Run(states: seq<State>, start: nat) {
    && states != [] && states[0] == Start(start)
    && forall i :: 0 <= i < |states| - 1 ==> Goes(states, i)
  }

  ghost predicate Goes(states: seq<State>, i: nat)
    requires i + 1 < |states|
  {
    Step(states[i], states[i + 1])
  }

  lemma {:induction false} RunInv(states: seq<State>, start: nat, i: nat)
    requires Run(states, start) && i < |states|
    ensures Inv(states[i], start)
  {
    hide Inv, Step;
    StartInv(start);
    if i > 0 {
      RunInv(states, start, i - 1);
      assert Goes(states, i - 1);
      StepInv(states[i - 1], states[i], start);
    }
  }

  /** Everybody has come to an end. */
  predicate Over(s: State) {
    s.over && forall k :: 0 <= k < |s.tasks| ==> s.tasks[k].done && AllVisited(s.tasks[k].batches)
  }

  predicate AllVisited(bs: seq<Batch>) { forall i :: 0 <= i < |bs| ==> bs[i].left == 0 }

  /** The chunks that the batches have visited. */
  function SeenBy(bs: seq<Batch>): seq<Id> { if bs == [] then [] else SeenBy(bs[..|bs| - 1]) + bs[|bs| - 1].seen }

  function Seen(rs: seq<Refine>): seq<Id>
  {
    if rs == [] then [] else Seen(rs[..|rs| - 1]) + SeenBy(rs[|rs| - 1].batches)
  }

  lemma {:induction false} SeenAllBatches(bs: seq<Batch>)
    requires AllVisited(bs) && forall i :: 0 <= i < |bs| ==> BatchOk(bs[i])
    ensures SeenBy(bs) == BatchIds(bs)
  {
    if bs != [] {
      var n := |bs| - 1;
      SeenAllBatches(bs[..n]);
      assert BatchOk(bs[n]);
      assert bs[n].ids[..|bs[n].ids|] == bs[n].ids;
    }
  }

  lemma {:induction false} SeenAll(rs: seq<Refine>)
    requires TasksOk(rs) && forall k :: 0 <= k < |rs| ==> rs[k].done && AllVisited(rs[k].batches)
    ensures Seen(rs) == Parts(rs)
  {
    if rs != [] {
      var n := |rs| - 1;
      SeenAll(rs[..n]);
      assert TaskOk(rs[n]);
      SeenAllBatches(rs[n].batches);
    }
  }

  /** Whatever the order in which the tasks ran: at the end the links lead through all chunks, the
      chunks hold the input of the round in order, and the batches have visited each of them once. */
  lemma {:induction false} RoundEnds(states: seq<State>, start: nat, input: Bytes)
    requires Run(states, start) && Over(states[|states| - 1]) && states[|states| - 1].seek <= |input|
    ensures var s := states[|states| - 1]; var l := Walk(s.next, s.first, |s.next|);
            start <= s.seek && BytesOf(input, s.piece, l) == input[start..s.seek]
            && Distinct(l) && Seen(s.tasks) == l
  {
    hide Linked, Covers, Parts, Seen, BytesOf, Walk;
    var s := states[|states| - 1];
    RunInv(states, start, |states| - 1);
    assert List(s) == Parts(s.tasks);
    LinkedKnown(s.next, List(s), 0);
    LinkedSize(s.next, List(s));
    assert List(s)[0..] == List(s);
    WalkVisits(s.next, List(s), 0, |s.next|);
    CoversData(input, s.piece, List(s), start, s.seek);
    SeenAll(s.tasks);
  }

  function Elements(l: seq<Id>): set<Id> { set x | x in l }

  lemma LinkedSize(next: map<Id, Option<Id>>, l: seq<Id>)
    requires Linked(next, l)
    ensures |l| <= |next|
  {
    Injective(l);
    assert Elements(l) <= next.Keys;
    SubsetSize(Elements(l), next.Keys);
    assert |next| == |next.Keys|;
  }

  lemma {:induction false} Injective(l: seq<Id>)
    requires Distinct(l)
    ensures |Elements(l)| == |l|
  {
    if l != [] {
      var n := |l| - 1;
      Injective(l[..n]);
      assert l == l[..n] + [l[n]];
      assert Elements(l) == Elements(l[..n]) + {l[n]};
    }
  }

  lemma {:induction false} SubsetSize(a: set<Id>, b: set<Id>)
    requires a <= b
    ensures |a| <= |b|
  {
    if a != {} {
      var x :| x in a;
      SubsetSize(a - {x}, b - {x});
    }
  }

  /** The assertions of the tasks hold: a task that has chunks left has a chunk, and the last chunk of
      the fragment task has no successor when it is handed over. */
  lemma {:induction false} AssertionsHold(states: seq<State>, start: nat, i: nat)
    requires Run(states, start) && i < |states|
    ensures forall k :: 0 <= k < |states[i].tasks| && states[i].tasks[k].left > 0 ==> states[i].tasks[k].chunk.Some?
    ensures forall k, j :: 0 <= k < |states[i].tasks| && 0 <= j < |states[i].tasks[k].batches| ==>
              states[i].tasks[k].batches[j].left > 0 ==> states[i].tasks[k].batches[j].chunk.Some?
    ensures !states[i].over && states[i].head.Some? ==>
              states[i].head.value in states[i].next && states[i].next[states[i].head.value] == None
  {
    hide Covers, Parts;
    var s := states[i];
    RunInv(states, start, i);
    forall k | 0 <= k < |s.tasks|
      ensures TaskOk(s.tasks[k])
    {
    }
    if !s.over && s.head.Some? {
      var l := List(s);
      assert l[|l| - 1] == s.kept[|s.kept| - 1] && l[|l| - 1 + 1..] == [];
    }
  }

  /** Who works on chunks: the fragment task, a refining task, a batch. */
  datatype Worker = Fragmenting | Refining(k: nat) | Batching(k: nat, i: nat)

  predicate Exists(s: State, w: Worker) {
    match w
    case Fragmenting => true
    case Refining(k) => k < |s.tasks|
    case Batching(k, i) => k < |s.tasks| && i < |s.tasks[k].batches|
  }

  /** The chunks that a worker may read and change. */
  function Own(s: State, w: Worker): seq<Id>
    requires Exists(s, w)
  {
    match w
    case Fragmenting => s.kept
    case Refining(k) => s.tasks[k].counted + s.tasks[k].rest
    case Batching(k, i) => s.tasks[k].batches[i].ids
  }

  /** The chunk whose link a worker reads or writes next. */
  function Working(s: State, w: Worker): Option<Id>
    requires Exists(s, w)
  {
    match w
    case Fragmenting => if s.over then None else s.head
    case Refining(k) => if s.tasks[k].left > 0 then s.tasks[k].chunk else None
    case Batching(k, i) => if s.tasks[k].batches[i].left > 0 then s.tasks[k].batches[i].chunk else None
  }

  /** A step of a worker. */
  ghost predicate StepBy(s: State, s': State, w: Worker) {
    match w
    case Fragmenting => (exists t, off :: Create(s, s', t, off)) || Finish(s, s')
    case Refining(k) => (exists t, mid :: Split(s, s', k, t, mid)) || Advance(s, s', k) || Close(s, s', k)
    case Batching(k, i) => Process(s, s', k, i)
  }

  /** Of the chunks that are there a worker changes none but this one, and a batch visits no other. */
  lemma {:induction false} StepTouches(s: State, s': State, w: Worker)
    requires StepBy(s, s', w)
    ensures Exists(s, w) && Exists(s', w)
    ensures forall x :: x in s.next ==> x in s'.next && (s'.next[x] != s.next[x] ==> Working(s, w) == Some(x))
    ensures forall x :: x in s.next && x in s.piece ==>
              x in s'.piece && (s'.piece[x] != s.piece[x] ==> Working(s, w) == Some(x))
    ensures w.Batching? ==>
            var b, b' := s.tasks[w.k].batches[w.i], s'.tasks[w.k].batches[w.i];
            && Working(s, w).Some? && Working(s, w).value in s.next && b'.seen == b.seen + [Working(s, w).value]
            && b'.chunk == s.next[Working(s, w).value]
    ensures w.Refining? && s'.tasks[w.k].done == s.tasks[w.k].done ==> Working(s, w).Some?
  {
  }

  lemma {:induction false} WorksOnOwn(s: State, w: Worker, start: nat)
    requires Inv(s, start) && Exists(s, w) && Working(s, w).Some?
    ensures Working(s, w).value in Own(s, w)
  {
    hide Linked, Covers, Parts;
    match w
    case Fragmenting =>
    case Refining(k) => assert TaskOk(s.tasks[k]);
    case Batching(k, i) => assert TaskOk(s.tasks[k]) && BatchOk(s.tasks[k].batches[i]);
  }

  /** Before and behind in the list: the part of a worker splits it. */
  lemma {:induction false} OwnInList(s: State, w: Worker) returns (a: seq<Id>, b: seq<Id>)
    requires Exists(s, w)
    ensures List(s) == a + Own(s, w) + b
    ensures match w
            case Fragmenting => b == [] && a == Parts(s.tasks)
            case Refining(k) => a == Parts(s.tasks[..k]) + BatchIds(s.tasks[k].batches) &&
                |a| + |Own(s, w)| == |Parts(s.tasks[..k + 1])|
            case Batching(k, i) => |a| == |Parts(s.tasks[..k])| + |BatchIds(s.tasks[k].batches[..i])|
                                   && |a| + |Own(s, w)| <= |Parts(s.tasks[..k])| + |BatchIds(s.tasks[k].batches)|
  {
    hide Parts, BatchIds;
    match w
    case Fragmenting =>
      a, b := Parts(s.tasks), [];
      assert List(s) == a + s.kept + b;
    case Refining(k) =>
      PartsAt(s.tasks, k, s.tasks[k]);
      PartsUpTo(s.tasks, k);
      a, b := Parts(s.tasks[..k]) + BatchIds(s.tasks[k].batches), Parts(s.tasks[k + 1..]) + s.kept;
      assert List(s) == a + (s.tasks[k].counted + s.tasks[k].rest) + b;
    case Batching(k, i) =>
      PartsAt(s.tasks, k, s.tasks[k]);
      var z;
      z := BatchesAt(s.tasks[k].batches, i);
      a := Parts(s.tasks[..k]) + BatchIds(s.tasks[k].batches[..i]);
      b := z + (s.tasks[k].counted + s.tasks[k].rest) + (Parts(s.tasks[k + 1..]) + s.kept);
      assert List(s) == a + s.tasks[k].batches[i].ids + b;
  }

  lemma PartsUpTo(rs: seq<Refine>, k: nat)
    requires k < |rs|
    ensures Parts(rs[..k + 1]) == Parts(rs[..k]) + Part(rs[k])
  {
    assert rs[..k + 1][..k] == rs[..k];
  }

  lemma {:induction false} BatchesAt(bs: seq<Batch>, i: nat) returns (z: seq<Id>)
    requires i < |bs|
    ensures BatchIds(bs) == BatchIds(bs[..i]) + bs[i].ids + z
    decreases |bs|
  {
    var n := |bs| - 1;
    if i == n {
      z := [];
    } else {
      z := BatchesAt(bs[..n], i);
      assert bs[..n][..i] == bs[..i];
      z := z + bs[n].ids;
    }
  }

  /** Where the part of a worker begins and ends. */
  lemma Position(l: seq<Id>, a: seq<Id>, own: seq<Id>, b: seq<Id>, x: Id) returns (p: nat)
    requires l == a + own + b && x in own
    ensures |a| <= p < |a| + |own| && p < |l| && l[p] == x
  {
    var q :| 0 <= q < |own| && own[q] == x;
    p := |a| + q;
  }

  predicate Earlier(v: Worker, w: Worker) {
    match (v, w)
    case (Fragmenting, _) => false
    case (_, Fragmenting) => true
    case (Refining(k), Refining(m)) => k < m
    case (Refining(k), Batching(m, _)) => k < m
    case (Batching(k, _), Refining(m)) => k <= m
    case (Batching(k, i), Batching(m, j)) => k < m || (k == m && i < j)
  }

  lemma {:induction false} PartsGrow(rs: seq<Refine>, i: nat, j: nat)
    requires i <= j <= |rs|
    ensures |Parts(rs[..i])| <= |Parts(rs[..j])|
    decreases j
  {
    if i < j {
      PartsGrow(rs, i, j - 1);
      PartsUpTo(rs, j - 1);
    }
  }

  lemma {:induction false} BatchesGrow(bs: seq<Batch>, i: nat, j: nat)
    requires i < j <= |bs|
    ensures |BatchIds(bs[..i])| + |bs[i].ids| <= |BatchIds(bs[..j])|
    decreases j
  {
    assert bs[..j][..j - 1] == bs[..j - 1];
    if i < j - 1 {
      BatchesGrow(bs, i, j - 1);
    }
  }

  lemma {:induction false} Ordered(s: State, v: Worker, w: Worker, x: Id, y: Id)
    requires Linked(s.next, List(s)) && Exists(s, v) && Exists(s, w) && Earlier(v, w) && x in Own(s, v)
    requires y in Own(s, w)
    ensures x != y
  {
    hide Parts, BatchIds, Linked;
    var a, b := OwnInList(s, v);
    var e, f := OwnInList(s, w);
    var p := Position(List(s), a, Own(s, v), b, x);
    var q := Position(List(s), e, Own(s, w), f, y);
    LinkedKnown(s.next, List(s), 0);
    Gap(s, v, w, |a| + |Own(s, v)|, |e|);
  }

  /** The part of the one ends before that of the other begins. */
  lemma {:induction false} Gap(s: State, v: Worker, w: Worker, end: nat, begin: nat)
    requires Exists(s, v) && Exists(s, w) && Earlier(v, w)
    requires match v
             case Fragmenting => true
             case Refining(k) => end == |Parts(s.tasks[..k + 1])|
             case Batching(k, i) => end == |Parts(s.tasks[..k])| + |BatchIds(s.tasks[k].batches[..i])|
                                           + |s.tasks[k].batches[i].ids|
                                    && end <= |Parts(s.tasks[..k])| + |BatchIds(s.tasks[k].batches)|
    requires match w
             case Fragmenting => begin == |Parts(s.tasks)|
             case Refining(k) => begin == |Parts(s.tasks[..k])| + |BatchIds(s.tasks[k].batches)|
             case Batching(k, i) => begin == |Parts(s.tasks[..k])| + |BatchIds(s.tasks[k].batches[..i])|
    ensures end <= begin
  {
    hide Parts, BatchIds;
    assert s.tasks[..|s.tasks|] == s.tasks;
    var m := if w.Fragmenting? then |s.tasks| else w.k;
    PartsUpTo(s.tasks, v.k);
    if v.k < m {
      PartsGrow(s.tasks, v.k + 1, m);
    } else if w.Batching? {
      BatchesGrow(s.tasks[m].batches, v.i, w.i);
    }
  }

  /** No two workers ever touch the same chunk, so their steps cannot disturb each other. */
  lemma {:induction false} NobodyMeets(states: seq<State>, start: nat, n: nat, v: Worker, w: Worker)
    requires Run(states, start) && n < |states| && Exists(states[n], v) && Exists(states[n], w) && v != w
    requires Working(states[n], v).Some? && Working(states[n], w).Some?
    ensures Working(states[n], v).value in Own(states[n], v)
    ensures Working(states[n], v).value != Working(states[n], w).value
  {
    hide Parts, BatchIds, Linked, Covers, TaskOk, Own, Working;
    var s := states[n];
    RunInv(states, start, n);
    WorksOnOwn(s, v, start);
    WorksOnOwn(s, w, start);
    if Earlier(v, w) {
      Ordered(s, v, w, Working(s, v).value, Working(s, w).value);
    } else {
      Ordered(s, w, v, Working(s, w).value, Working(s, v).value);
    }
  }
}
