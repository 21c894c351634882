/** What the encoder of encoder_task.h writes: round by round, whichever chunk of a digest got into the table first. */
module TaskOutput {
  import opened Chunks
  import opened Pipeline
  import opened Decoder

  /** The table: for every digest the chunk that the tasks of some round entered first. */
  predicate TableOk(c: Codec, cs: seq<Chunk>, table: map<Bytes, nat>) {
    forall h :: h in table ==> table[h] < |cs| && c.sha(cs[table[h]].data) == h
  }

  /** After the tasks of a round all chunks before position hi have been looked up, and all entries come from there. */
  predicate LookedUp(c: Codec, cs: seq<Chunk>, table: map<Bytes, nat>, hi: nat)
    requires hi <= |cs|
  {
    && TableOk(c, cs, table)
    && (forall h :: h in table ==> table[h] < hi)
    && forall n: nat :: n < hi ==> c.sha(cs[n].data) in table
  }

  /** Exactly the originals of the chunks that have been written are in state FLUSHED. */
  predicate FlushedOk(c: Codec, cs: seq<Chunk>, table: map<Bytes, nat>, flushed: set<nat>, lo: nat)
    requires lo <= |cs| && forall n: nat :: n < lo ==> c.sha(cs[n].data) in table
  {
    && (forall n: nat :: n < lo ==> table[c.sha(cs[n].data)] in flushed)
    && forall m :: m in flushed ==>
         m < |cs| && exists n: nat :: n < lo && c.sha(cs[n].data) in table && table[c.sha(cs[n].data)] == m
  }

  ghost predicate SerialUpTo(c: Codec, cs: seq<Chunk>, out: seq<Record>, n: nat)
    requires n <= |cs|
  {
    |out| == n && forall k: nat :: k < n ==> out[k] == SerialRecord(c, cs, k)
  }

  lemma {:induction false} FlushedIff(c: Codec, cs: seq<Chunk>, table: map<Bytes, nat>, flushed: set<nat>, n: nat)
    requires n < |cs| && TableOk(c, cs, table) && (forall k: nat :: k <= n ==> c.sha(cs[k].data) in table)
    requires FlushedOk(c, cs, table, flushed, n)
    ensures table[c.sha(cs[n].data)] in flushed <==> Seen(c, cs, n)
  {
    var h := c.sha(cs[n].data);
    if table[h] in flushed {
      var k: nat :| k < n && c.sha(cs[k].data) in table && table[c.sha(cs[k].data)] == table[h];
      assert c.sha(cs[k].data) == h;
    }
    if Seen(c, cs, n) {
      var k: nat :| k < n && c.sha(cs[k].data) == h;
    }
  }

  /** The records of chunks lo to n. */
  ghost predicate SerialFrom(c: Codec, cs: seq<Chunk>, out: seq<Record>, lo: nat, n: nat)
    requires lo <= n <= |cs|
  {
    |out| == n - lo && forall k: nat :: k < n - lo ==> out[k] == SerialRecord(c, cs, lo + k)
  }

  /** A duplicate stands for its original: its record is the serial one whichever of the two comes first. */
  lemma {:induction false} RecordIs(
        c: Codec, cs: seq<Chunk>, table: map<Bytes, nat>, flushed: set<nat>, n: nat, hi: nat)
    requires n < hi <= |cs| && Injective(c, cs) && LookedUp(c, cs, table, hi) && FlushedOk(c, cs, table, flushed, n)
    ensures var m := table[c.sha(cs[n].data)];
            && m < |cs|
            && SerialRecord(c, cs, n) ==
               (if m in flushed then Fingerprint(c.sha(cs[m].data)) else Data(c.comp(cs[m].data)))
            && FlushedOk(c, cs, table, flushed + {m}, n + 1) &&
                 (m in flushed ==> FlushedOk(c, cs, table, flushed, n + 1))
  {
    hide FlushedOk, Injective;
    FlushedIff(c, cs, table, flushed, n);
    SameData(c, cs, table[c.sha(cs[n].data)], n);
    FlushedNext(c, cs, table, flushed, n);
  }

  lemma FromMore(c: Codec, cs: seq<Chunk>, out: seq<Record>, lo: nat, n: nat)
    requires lo <= n < |cs| && SerialFrom(c, cs, out, lo, n)
    ensures SerialFrom(c, cs, out + [SerialRecord(c, cs, n)], lo, n + 1)
  {
    hide SerialRecord;
  }

  predicate Extends(a: map<Bytes, nat>, b: map<Bytes, nat>) { forall h :: h in a ==> h in b && b[h] == a[h] }

  /** write_all_chunks_to_file on the chunks lo..hi of one round. It runs while the tasks of the next round fill
      the table: seen is the table at the moment when each chunk is written. */
  method WriteRound(c: Codec, cs: seq<Chunk>, ghost table: map<Bytes, nat>, seen: seq<map<Bytes, nat>>,
                    flushed0: set<nat>, lo: nat, hi: nat)
    returns (out: seq<Record>, flushed: set<nat>)
    requires lo <= hi <= |cs| && Injective(c, cs) && LookedUp(c, cs, table, hi) && FlushedOk(c, cs, table, flushed0, lo)
    requires |seen| == hi - lo && forall i :: 0 <= i < |seen| ==> Extends(table, seen[i])
    ensures SerialFrom(c, cs, out, lo, hi) && FlushedOk(c, cs, table, flushed, hi)
  {
    hide FlushedOk, Injective, SerialRecord, TableOk;
    out, flushed := [], flushed0;
    for n := lo to hi
      invariant SerialFrom(c, cs, out, lo, n) && FlushedOk(c, cs, table, flushed, n)
    {
      hide SerialFrom;
      RecordIs(c, cs, table, flushed, n, hi);
      FromMore(c, cs, out, lo, n);
      assert Extends(table, seen[n - lo]);
      var m := seen[n - lo][c.sha(cs[n].data)];
      if m !in flushed {
        out := out + [Data(c.comp(cs[m].data))];
        flushed := flushed + {m};
      } else {
        out := out + [Fingerprint(c.sha(cs[m].data))];
      }
    }
  }

  lemma SameData(c: Codec, cs: seq<Chunk>, m: nat, n: nat)
    requires m < |cs| && n < |cs| && Injective(c, cs) && c.sha(cs[m].data) == c.sha(cs[n].data)
    ensures cs[m].data == cs[n].data
  {
  }

  lemma {:induction false} FlushedNext(c: Codec, cs: seq<Chunk>, table: map<Bytes, nat>, flushed: set<nat>, n: nat)
    requires n < |cs| && TableOk(c, cs, table) && (forall k: nat :: k <= n ==> c.sha(cs[k].data) in table)
    requires FlushedOk(c, cs, table, flushed, n)
    ensures FlushedOk(c, cs, table, flushed + {table[c.sha(cs[n].data)]}, n + 1)
    ensures table[c.sha(cs[n].data)] in flushed ==> FlushedOk(c, cs, table, flushed, n + 1)
  {
    var m := table[c.sha(cs[n].data)];
    forall f | f in flushed + {m}
      ensures f < |cs| && exists k: nat :: k < n + 1 && c.sha(cs[k].data) in table && table[c.sha(cs[k].data)] == f
    {
      if f in flushed {
        var k: nat :| k < n && c.sha(cs[k].data) in table && table[c.sha(cs[k].data)] == f;
      }
    }
    assert m in flushed ==> flushed + {m} == flushed;
  }

  /** The table grows between rounds; entries stay. */
  lemma {:induction false} FlushedStays(
        c: Codec, cs: seq<Chunk>, table: map<Bytes, nat>, table': map<Bytes, nat>, flushed: set<nat>, lo: nat)
    requires lo <= |cs| && (forall n: nat :: n < lo ==> c.sha(cs[n].data) in table)
    requires FlushedOk(c, cs, table, flushed, lo)
    requires forall h :: h in table ==> h in table' && table'[h] == table[h]
    ensures FlushedOk(c, cs, table', flushed, lo)
  {
    forall m | m in flushed
      ensures exists n: nat :: n < lo && c.sha(cs[n].data) in table' && table'[c.sha(cs[n].data)] == m
    {
      var n: nat :| n < lo && c.sha(cs[n].data) in table && table[c.sha(cs[n].data)] == m;
    }
  }

  /** The rounds of Fragment: where each ends, the table when its tasks are done, and the table when each of
      its chunks is written. */
  datatype Round = Round(hi: nat, table: map<Bytes, nat>, seen: seq<map<Bytes, nat>>)

  /** Where a round begins. */
  function Low(rounds: seq<Round>, r: nat): nat
    requires r <= |rounds|
  {
    if r == 0 then 0 else rounds[r - 1].hi
  }

  predicate RoundsOk(c: Codec, cs: seq<Chunk>, rounds: seq<Round>) {
    && (forall r :: 0 <= r < |rounds| ==> rounds[r].hi <= |cs| && LookedUp(c, cs, rounds[r].table, rounds[r].hi))
    && (forall r :: 0 <= r < |rounds| - 1 ==>
         rounds[r].hi <= rounds[r + 1].hi && Extends(rounds[r].table, rounds[r + 1].table))
    && (forall r :: 0 <= r < |rounds| ==> SeenOk(rounds, r))
  }

  predicate SeenOk(rounds: seq<Round>, r: nat)
    requires r < |rounds|
  {
    Low(rounds, r) + |rounds[r].seen| == rounds[r].hi &&
    forall i :: 0 <= i < |rounds[r].seen| ==> Extends(rounds[r].table, rounds[r].seen[i])
  }

  lemma SerialMore(c: Codec, cs: seq<Chunk>, out: seq<Record>, more: seq<Record>, lo: nat, hi: nat)
    requires lo <= hi <= |cs| && SerialUpTo(c, cs, out, lo) && SerialFrom(c, cs, more, lo, hi)
    ensures SerialUpTo(c, cs, out + more, hi)
  {
    hide SerialRecord;
    forall k: nat | k < hi
      ensures (out + more)[k] == SerialRecord(c, cs, k)
    {
      if k >= lo {
        assert more[k - lo] == SerialRecord(c, cs, lo + (k - lo));
      }
    }
  }

  /** What holds between the rounds. */
  ghost predicate Between(c: Codec, cs: seq<Chunk>, rounds: seq<Round>, r: nat, flushed: set<nat>, lo: nat)
    requires RoundsOk(c, cs, rounds) && r <= |rounds|
  {
    if r == 0 then lo == 0 && flushed == {} else lo == rounds[r - 1].hi && KnownFlushed(c, cs, rounds[r - 1], flushed)
  }

  predicate KnownFlushed(c: Codec, cs: seq<Chunk>, round: Round, flushed: set<nat>)
    requires round.hi <= |cs| && LookedUp(c, cs, round.table, round.hi)
  {
    FlushedOk(c, cs, round.table, flushed, round.hi)
  }

  lemma {:induction false} Ready(c: Codec, cs: seq<Chunk>, rounds: seq<Round>, r: nat, flushed: set<nat>, lo: nat)
    requires RoundsOk(c, cs, rounds) && r < |rounds| && Between(c, cs, rounds, r, flushed, lo)
    ensures lo <= rounds[r].hi <= |cs| && LookedUp(c, cs, rounds[r].table, rounds[r].hi)
    ensures FlushedOk(c, cs, rounds[r].table, flushed, lo)
    ensures |rounds[r].seen| == rounds[r].hi - lo
    ensures forall i :: 0 <= i < |rounds[r].seen| ==> Extends(rounds[r].table, rounds[r].seen[i])
  {
    hide TableOk, FlushedOk;
    assert SeenOk(rounds, r);
    if r == 0 {
      NoneFlushed(c, cs, rounds[0].table);
    } else {
      assert rounds[r - 1].hi <= rounds[r - 1 + 1].hi;
      FlushedStays(c, cs, rounds[r - 1].table, rounds[r].table, flushed, lo);
    }
  }

  lemma NoneFlushed(c: Codec, cs: seq<Chunk>, table: map<Bytes, nat>)
    ensures FlushedOk(c, cs, table, {}, 0)
  {
  }

  /** All rounds: the file is what the serial encoder writes. */
  method WriteRounds(c: Codec, cs: seq<Chunk>, rounds: seq<Round>) returns (out: seq<Record>)
    requires Injective(c, cs) && RoundsOk(c, cs, rounds) && rounds != [] && rounds[|rounds| - 1].hi == |cs|
    ensures out == SerialRecords(c, cs)
  {
    hide Injective, RoundsOk, FlushedOk, LookedUp, SerialUpTo, SerialFrom;
    out := [];
    NoneWritten(c, cs);
    var flushed: set<nat> := {};
    var lo: nat := 0;
    for r := 0 to |rounds|
      invariant lo <= |cs| && SerialUpTo(c, cs, out, lo) && Between(c, cs, rounds, r, flushed, lo)
    {
      Ready(c, cs, rounds, r, flushed, lo);
      var more;
      more, flushed := WriteRound(c, cs, rounds[r].table, rounds[r].seen, flushed, lo, rounds[r].hi);
      SerialMore(c, cs, out, more, lo, rounds[r].hi);
      out := out + more;
      lo := rounds[r].hi;
    }
    AllWritten(c, cs, out);
  }

  lemma NoneWritten(c: Codec, cs: seq<Chunk>)
    ensures SerialUpTo(c, cs, [], 0)
  {
  }

  lemma AllWritten(c: Codec, cs: seq<Chunk>, out: seq<Record>)
    requires SerialUpTo(c, cs, out, |cs|)
    ensures out == SerialRecords(c, cs)
  {
    AllSerial(c, cs, out);
  }
}
