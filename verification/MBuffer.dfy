/** The memory buffers of dedup: several pieces share one allocation, which is freed with the last of them. */
module MBuffer {
  import opened Chunks

  /** The control block of an allocation. History: the pieces that are alive. */
  class Mcb {
    var i: nat
    var data: Bytes
    var freed: bool
    ghost var pieces: set<Buffer>

    /** The counter is the number of live pieces; these lie in the allocation, apart from each other. */
    ghost predicate Valid()
      reads this, pieces
    {
      && !freed && i == |pieces| && i >= 1
      && (forall p :: p in pieces ==> p.mcb == this && p.n > 0 && p.ptr + p.n <= |data|)
      && forall p, q :: p in pieces && q in pieces && p != q ==> Apart(p, q)
    }

    constructor (size: nat, b: Buffer)
      ensures i == 1 && |data| == size && !freed && pieces == {b}
    {
      i, freed := 1, false;
      data := seq(size, _ => 0);
      pieces := {b};
    }
  }

  ghost predicate Apart(p: Buffer, q: Buffer)
    reads p, q
  {
    p.ptr + p.n <= q.ptr || q.ptr + q.n <= p.ptr
  }

  /** realloc keeps the bytes that both sizes have room for and leaves the others open. */
  predicate IsMoved(was: Bytes, size: nat, now: Bytes) {
    |now| == size && if size <= |was| then now == was[..size] else was <= now
  }

  class Buffer {
    var ptr: nat
    var n: nat
    var mcb: Mcb?

    constructor ()
      ensures mcb == null
    {
      ptr, n, mcb := 0, 0, null;
    }

    /** The buffer is in use. */
    ghost predicate Alive()
      reads this, mcb, if mcb == null then {} else mcb.pieces
    {
      mcb != null && this in mcb.pieces && mcb.Valid()
    }

    function Contents(): Bytes
      requires Alive()
      reads this, mcb, if mcb == null then {} else mcb.pieces
    {
      mcb.data[ptr..ptr + n]
    }

    /** mbuffer_create */
    method Create(size: nat)
      requires size > 0
      modifies this
      ensures Alive() && fresh(mcb) && mcb.pieces == {this} && ptr == 0 && n == size
    {
      var m := new Mcb(size, this);
      mcb, ptr, n := m, 0, size;
    }

    /** mbuffer_free: the allocation goes with its last piece, and not before. */
    method Free()
      requires Alive()
      modifies mcb
      ensures mcb == old(mcb) && mcb.pieces == old(mcb.pieces) - {this} && mcb.data == old(mcb.data)
      ensures mcb.freed <==> old(mcb.pieces) == {this}
      ensures !mcb.freed ==> mcb.Valid()
    {
      Removed(mcb.pieces, this);
      mcb.i := mcb.i - 1;
      mcb.pieces := mcb.pieces - {this};
      if mcb.i == 0 {
        mcb.freed := true;
      }
    }

    /** mbuffer_split: this keeps the first part, m2 gets the rest; nothing is copied or lost. */
    method Split(m2: Buffer, split: nat)
      requires Alive() && 0 < split < n && m2 !in mcb.pieces
      modifies this`n, mcb`i, mcb`pieces, m2
      ensures Alive() && m2.Alive() && m2.mcb == mcb && mcb.pieces == old(mcb.pieces) + {m2}
      ensures mcb.data == old(mcb.data)
      ensures Contents() + m2.Contents() == old(Contents()) && n == split
      ensures forall p :: p in old(mcb.pieces) && p != this ==> unchanged(p)
    {
      hide Mcb.Valid, Contents;
      Known(mcb);
      ContentsAre(this);
      ghost var was := mcb.pieces;
      mcb.i := mcb.i + 1;
      mcb.pieces := mcb.pieces + {m2};
      m2.ptr, m2.n, m2.mcb := ptr + split, n - split, mcb;
      n := split;
      forall p, q | p in was && q in was && p != q
        ensures Apart(p, q)
      {
        assert old(Apart(p, q));
      }
      forall p | p in was
        ensures Apart(p, m2)
      {
        assert p != this ==> old(Apart(p, this));
      }
      hide Apart;
      PiecesMore(mcb, was, m2);
      ContentsAre(this);
      ContentsAre(m2);
      SliceJoin(mcb.data, ptr, ptr + n, m2.ptr + m2.n);
    }

    /** mbuffer_realloc: only the one piece that begins the allocation can be resized. moved is what the
        library's realloc gives, None if there is no memory. */
    method Realloc(size: nat, moved: Option<Bytes>) returns (ok: bool)
      requires Alive() && size > 0 && (moved.Some? ==> IsMoved(mcb.data, size, moved.value))
      modifies this`n, mcb`data
      ensures Alive() && ok == (mcb.pieces == {this} && ptr == 0 && moved.Some?)
      ensures ok ==> n == size && mcb.data == moved.value
      ensures ok ==> if size <= old(n) then Contents() == old(Contents())[..size] else old(Contents()) <= Contents()
      ensures !ok ==> n == old(n) && mcb.data == old(mcb.data)
    {
      OneElement(mcb.pieces, this);
      if mcb.i > 1 || ptr != 0 {
        return false;
      }
      if moved.Some? {
        mcb.data := moved.value;
        n := size;
      }
      ok := moved.Some?;
    }

    /** mbuffer_renew: this gives up its piece and takes that of m, which is no longer a buffer. */
    method Renew(m: Buffer)
      requires Alive() && m.Alive() && m != this
      modifies this, mcb, m.mcb
      ensures Alive() && mcb == old(m.mcb) && Contents() == old(m.Contents())
      ensures mcb.pieces == old(m.mcb.pieces) - {m} + {this}
      ensures old(mcb) != mcb ==>
              old(mcb).pieces == old(mcb.pieces) - {this} && (old(mcb).freed <==> old(mcb.pieces) == {this})
    {
      hide Mcb.Valid, Apart;
      Belong(m.mcb);
      Free();
      TakeOver(m);
    }

    /** The second half of it. */
    method TakeOver(m: Buffer)
      requires m.Alive() && this !in m.mcb.pieces
      modifies this, m.mcb`pieces
      ensures Alive() && mcb == old(m.mcb) && mcb.pieces == old(m.mcb.pieces) - {m} + {this}
      ensures Contents() == old(m.Contents())
    {
      hide Contents;
      ContentsAre(m);
      ghost var was := m.mcb.pieces;
      ptr, n, mcb := m.ptr, m.n, m.mcb;
      Removed(was, m);
      mcb.pieces := was - {m} + {this};
      forall p, q | p in mcb.pieces && q in mcb.pieces && p != q
        ensures Apart(p, q)
      {
        assert p != this && q != this ==> old(Apart(p, q));
        assert p == this ==> old(Apart(m, q));
        assert q == this ==> old(Apart(p, m));
      }
      ContentsAre(this);
    }
  }

  lemma ContentsAre(b: Buffer)
    requires b.Alive()
    ensures b.ptr + b.n <= |b.mcb.data| && b.Contents() == b.mcb.data[b.ptr..b.ptr + b.n]
  {
  }

  lemma Removed(s: set<Buffer>, b: Buffer)
    requires b in s
    ensures |s - {b}| == |s| - 1 && (|s| == 1 <==> s == {b})
  {
    assert s == s - {b} + {b};
  }

  lemma SliceJoin(d: Bytes, a: nat, b: nat, c: nat)
    requires a <= b <= c <= |d|
    ensures d[a..b] + d[b..c] == d[a..c]
  {
  }

  lemma Belong(m: Mcb)
    requires m.Valid()
    ensures forall p :: p in m.pieces ==> p.mcb == m
  {
  }

  lemma Known(m: Mcb)
    requires m.Valid()
    ensures !m.freed && m.i == |m.pieces| && m.i >= 1
    ensures forall p :: p in m.pieces ==> p.mcb == m && p.n > 0 && p.ptr + p.n <= |m.data|
    ensures forall p, q :: p in m.pieces && q in m.pieces && p != q ==> Apart(p, q)
  {
  }

  /** A piece that is apart from all others may be added. */
  lemma PiecesMore(m: Mcb, was: set<Buffer>, c: Buffer)
    requires !m.freed && m.pieces == was + {c} && c !in was && m.i == |was| + 1
    requires forall p :: p in m.pieces ==> p.mcb == m && p.n > 0 && p.ptr + p.n <= |m.data|
    requires forall p, q :: p in was && q in was && p != q ==> Apart(p, q)
    requires forall p :: p in was ==> Apart(p, c)
    ensures m.Valid()
  {
  }

  lemma OneElement(s: set<Buffer>, b: Buffer)
    requires b in s
    ensures |s| <= 1 <==> s == {b}
  {
    Removed(s, b);
  }
}
