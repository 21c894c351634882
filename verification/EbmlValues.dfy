/** Reading the values of EBML elements by their IDs. */
module EbmlValues {
  import opened Chunks
  import opened Ebml

  /** The payload of the first element with an ID. */
  function Find(es: seq<Elem>, id: nat): Option<Bytes> {
    if es == [] then None else if es[0].id == id then Some(es[0].data) else Find(es[1..], id)
  }

  /** The payload of the element that a path of IDs leads to, from the bytes inside an element. */
  function Lookup(data: Bytes, path: seq<nat>): Option<Bytes>
    decreases |path|
  {
    if path == [] then Some(data)
    else
      match ParseAll(data)
      case None => None
      case Some(es) =>
        match Find(es, path[0])
        case None => None
        case Some(inside) => Lookup(inside, path[1..])
  }

  /** The element is there and holds an unsigned number. */
  predicate IsNumber(value: Option<Bytes>, v: nat) { value.Some? && FromBytes(value.value) == v }

  /** The element is there and holds a text. */
  predicate IsText(value: Option<Bytes>, text: string) {
    value.Some? && |value.value| == |text| && forall i :: 0 <= i < |text| ==> value.value[i] == text[i] as int
  }

  lemma {:induction false} FindAt(es: seq<Elem>, id: nat, k: nat)
    requires k < |es| && es[k].id == id && forall j :: 0 <= j < k ==> es[j].id != id
    ensures Find(es, id) == Some(es[k].data)
  {
    if k > 0 {
      FindAt(es[1..], id, k - 1);
    }
  }

  lemma {:induction false} FindNone(es: seq<Elem>, id: nat)
    requires forall j :: 0 <= j < |es| ==> es[j].id != id
    ensures Find(es, id) == None
  {
    if es != [] {
      FindNone(es[1..], id);
    }
  }

  lemma LookupOne(es: seq<Elem>, id: nat)
    requires AllOk(es)
    ensures Lookup(SerAll(es), [id]) == Find(es, id)
  {
    hide ParseAll, SerAll, Find;
    ParseSer(es);
  }

  lemma LookupMore(es: seq<Elem>, id: nat, inside: Bytes, path: seq<nat>)
    requires AllOk(es) && Find(es, id) == Some(inside)
    ensures Lookup(SerAll(es), [id] + path) == Lookup(inside, path)
  {
    hide ParseAll, SerAll, Find;
    ParseSer(es);
    assert ([id] + path)[1..] == path;
  }
}
