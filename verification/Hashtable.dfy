/** The digest table: chains of entries, one lock per chain. */
module Hashtable {
  import opened Chunks

  /** A chain of entries; an entry is never changed once it is in a chain. */
  datatype Chain = End | Entry(h: nat, k: Bytes, v: nat, next: Chain)

  /** What a search of the chain finds: the first entry with the key. */
  function Find(c: Chain, k: Bytes): Option<nat> {
    match c
    case End => None
    case Entry(_, key, v, next) => if key == k then Some(v) else Find(next, k)
  }

  class Table {
    const hash: Bytes -> nat
    const table: array<Chain>

    /** indexFor: the chain of a key, and the number of its lock. */
    function Index(k: Bytes): (i: nat)
      requires table.Length > 0
      ensures i < table.Length
    {
      hash(k) % table.Length
    }

    /** Every entry is in the chain of its key, with the hash value of its key. */
    ghost predicate InPlace(c: Chain, i: nat)
      requires table.Length > 0
    {
      match c
      case End => true
      case Entry(h, k, _, next) => h == hash(k) && Index(k) == i && InPlace(next, i)
    }

    ghost predicate Valid()
      reads table
    {
      table.Length > 0 && forall i: nat :: i < table.Length ==> InPlace(table[i], i)
    }

    /** The table as a map. */
    ghost function Lookup(k: Bytes): Option<nat>
      requires table.Length > 0
      reads table
    {
      Find(table[Index(k)], k)
    }

    /** hashtable_create */
    constructor (size: nat, hash: Bytes -> nat)
      requires size > 0
      ensures Valid() && fresh(table) && table.Length == size && this.hash == hash && forall k :: Lookup(k) == None
    {
      this.hash := hash;
      table := new Chain[size](_ => End);
    }

    /** hashtable_search: the hash values are compared before the keys. */
    method Search(k: Bytes) returns (r: Option<nat>)
      requires Valid()
      ensures r == Lookup(k)
    {
      var hashvalue := hash(k);
      var index := Index(k);
      var e := table[index];
      assert InPlace(e, index);
      while e != End
        invariant InPlace(e, index) && Find(e, k) == Lookup(k)
        decreases e
      {
        if hashvalue == e.h && k == e.k {
          return Some(e.v);
        }
        e := e.next;
      }
      r := None;
    }

    /** hashtable_insert: only the chain whose lock is held changes. */
    method Insert(k: Bytes, v: nat)
      requires Valid()
      modifies table
      ensures Valid() && Lookup(k) == Some(v) && forall q :: q != k ==> Lookup(q) == old(Lookup(q))
      ensures forall i: nat :: i < table.Length && i != Index(k) ==> table[i] == old(table[i])
    {
      var index := Index(k);
      assert InPlace(table[index], index);
      table[index] := Entry(hash(k), k, v, table[index]);
    }

    /** What sub_Deduplicate does under the lock of the key: the first chunk with a digest stays its
        original for ever, and every later one is told which it is. */
    method SearchOrInsert(k: Bytes, v: nat) returns (isDuplicate: bool, original: nat)
      requires Valid()
      modifies table
      ensures Valid() && isDuplicate == old(Lookup(k)).Some? && Lookup(k) == Some(original)
      ensures if isDuplicate then old(Lookup(k)) == Some(original) else original == v
      ensures forall q :: q != k ==> Lookup(q) == old(Lookup(q))
      ensures forall i: nat :: i < table.Length && i != Index(k) ==> table[i] == old(table[i])
    {
      var entry := Search(k);
      isDuplicate := entry != None;
      if !isDuplicate {
        Insert(k, v);
        original := v;
      } else {
        original := entry.value;
      }
    }
  }
}
