/** The serial encoder: one thread reads, cuts, looks up, compresses and writes. */
module SerialEncoder {
  import opened Chunks
  import opened CutSearch
  import opened Pipeline
  import opened Decoder

  /** The hash table, from digests to the numbers of the chunks, and the file. History: the chunks so far. */
  class Archive {
    const codec: Codec
    var table: map<Bytes, nat>
    var count: nat
    var out: seq<Record>
    ghost var done: seq<Bytes>

    /** The table has the digests of all chunks, each with the first chunk that has it. */
    ghost predicate TableOk()
      reads this
    {
      && (forall h :: h in table ==> IsFirst(codec, done, h, table[h]))
      && forall k :: 0 <= k < |done| ==> codec.sha(done[k]) in table
    }

    ghost predicate Valid()
      reads this
    {
      TableOk() && count == |done| && out == SerialRecords(codec, Wrapped(done))
    }

    constructor (c: Codec)
      ensures Valid() && done == [] && codec == c
    {
      codec, table, count, out, done := c, map[], 0, [], [];
    }

    /** sub_Deduplicate, for the chunk that is next. */
    method Deduplicate(digest: Bytes) returns (duplicate: bool)
      requires Valid()
      modifies this`table
      ensures duplicate <==> exists k :: 0 <= k < |done| && codec.sha(done[k]) == digest
      ensures table == if duplicate then old(table) else old(table)[digest := |done|]
    {
      duplicate := digest in table;
      if !duplicate {
        table := table[digest := count];
      }
    }

    /** A chunk from the cut to the file: sub_Deduplicate, sub_Compress if it is unique, and
        write_chunk_to_file. */
    method Add(data: Bytes)
      requires Valid()
      modifies this
      ensures Valid() && done == old(done) + [data]
    {
      hide SerialRecords, IsFirst, Wrapped, Datas;
      RecordsMore(codec, done, data);
      var digest := codec.sha(data);
      var duplicate := Deduplicate(digest);
      if duplicate {
        out := out + [Fingerprint(digest)];
      } else {
        out := out + [Data(codec.comp(data))];
      }
      FirstMore(codec, done, data, table);
      count, done := count + 1, done + [data];
    }
  }

  /** Chunk k is the first with the digest. */
  predicate IsFirst(c: Codec, ds: seq<Bytes>, h: Bytes, k: nat) {
    k < |ds| && c.sha(ds[k]) == h && forall j :: 0 <= j < k ==> c.sha(ds[j]) != h
  }

  lemma FirstMore(c: Codec, ds: seq<Bytes>, d: Bytes, table: map<Bytes, nat>)
    requires forall h :: h in table ==>
               IsFirst(c, ds, h, table[h])
               || (h == c.sha(d) && table[h] == |ds| && forall k :: 0 <= k < |ds| ==> c.sha(ds[k]) != h)
    ensures forall h :: h in table ==> IsFirst(c, ds + [d], h, table[h])
  {
    assert forall k :: 0 <= k < |ds| ==> (ds + [d])[k] == ds[k];
  }

  lemma {:induction false} RecordsMore(c: Codec, ds: seq<Bytes>, d: Bytes)
    ensures SerialRecords(c, Wrapped(ds + [d])) == SerialRecords(c, Wrapped(ds)) +
            [if exists k :: 0 <= k < |ds| && c.sha(ds[k]) == c.sha(d) then Fingerprint(c.sha(d)) else Data(c.comp(d))]
  {
    var cs := Wrapped(ds + [d]);
    assert cs[..|ds|] == Wrapped(ds);
    assert forall k :: 0 <= k < |ds| ==> cs[k].data == Datas(cs)[k] == ds[k];
    assert cs[|ds|].data == Datas(cs)[|ds|] == d;
    assert Seen(c, cs, |ds|) <==> exists k :: 0 <= k < |ds| && c.sha(ds[k]) == c.sha(d);
  }

  /** SerialIntegratedPipeline: whatever the size of its buffer, the chunks are the cuts of the input, and the
      file has their records. */
  method SerialIntegratedPipeline(c: Codec, cut: Search, input: Bytes) returns (out: seq<Record>)
    requires SearchOk(cut) && Stable(cut)
    ensures out == SerialRecords(c, Wrapped(Cuts(cut, input)))
  {
    hide SearchOk, Stable, Cuts, Archive.Valid;
    var archive := new Archive(c);
    var left, rest: Bytes := [], input;
    assert [] + input == input && [] + Cuts(cut, input) == Cuts(cut, input);
    while true
      invariant fresh(archive) && archive.Valid() && archive.codec == c
      invariant archive.done + Cuts(cut, left + rest) == Cuts(cut, input)
      invariant left != [] ==> cut(left) >= |left|
      decreases |rest|
    {
      var n := Min(MAXBUF, |rest|);
      var chunk := left + rest[..n];
      if chunk == [] {
        NothingLeft(cut, left, rest);
        break;
      }
      if n == 0 {
        LastPiece(cut, left, rest);
        archive.Add(chunk);
        break;
      }
      assert left + rest == chunk + rest[n..];
      rest := rest[n..];
      left := SplitBuffer(archive, cut, chunk, rest, input);
    }
    out := Records(archive, c);
    assert archive.done == Cuts(cut, input);
  }

  method Records(archive: Archive, c: Codec) returns (out: seq<Record>)
    requires archive.Valid() && archive.codec == c
    ensures out == SerialRecords(c, Wrapped(archive.done))
  {
    out := archive.out;
  }

  lemma NothingLeft(cut: Search, left: Bytes, rest: Bytes)
    requires left + rest[..Min(MAXBUF, |rest|)] == []
    ensures left + rest == [] && Cuts(cut, left + rest) == []
  {
  }

  lemma LastPiece(cut: Search, left: Bytes, rest: Bytes)
    requires rest == [] && left != [] && cut(left) >= |left|
    ensures left + rest[..0] == left && Cuts(cut, left + rest) == [left]
  {
    assert left + rest == left;
  }

  /** The loop over one buffer; what is behind the last cut is left over. */
  method SplitBuffer(archive: Archive, cut: Search, buffer: Bytes, ghost rest: Bytes, ghost input: Bytes)
    returns (left: Bytes)
    requires archive.Valid() && SearchOk(cut) && Stable(cut) && buffer != []
    requires archive.done + Cuts(cut, buffer + rest) == Cuts(cut, input)
    modifies archive
    ensures archive.Valid()
    ensures archive.done + Cuts(cut, left + rest) == Cuts(cut, input)
    ensures left != [] && cut(left) >= |left|
  {
    hide SearchOk, Stable, Cuts, Archive.Valid;
    left := buffer;
    while cut(left) < |left|
      invariant archive.Valid() && left != []
      invariant archive.done + Cuts(cut, left + rest) == Cuts(cut, input)
      decreases |left|
    {
      var offset := cut(left);
      CutsFirst(cut, left, rest);
      archive.Add(left[..offset]);
      left := left[offset..];
    }
  }

  /** The decoder inverts it, exactly if every chunk fits its buffer. */
  lemma SerialDecodes(c: Codec, cut: Search, input: Bytes, limited: bool)
    requires SoundCodec(c) && Injective(c, Wrapped(Cuts(cut, input)))
    ensures var r := DecodeRecords(c, limited, EMPTY_DECODED, SerialRecords(c, Wrapped(Cuts(cut, input))));
            if Fits(limited, Wrapped(Cuts(cut, input))) then r.Ok? && r.value.output == input
            else r == Err(UncompressError)
  {
    var cs := Wrapped(Cuts(cut, input));
    CutsJoin(cut, input);
    DataIsConcat(cs);
    assert forall j :: 0 <= j < |cs| ==> cs[j].data == Datas(cs)[j];
    DecodeSerial(c, limited, cs);
  }
}
