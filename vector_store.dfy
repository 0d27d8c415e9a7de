/** The vector store the scripts talk to, reduced to what they use of it: named
    collections, each an ordered list of records (id, document text, metadata),
    with `get`, `add` and `delete`. Embeddings and similarity ranking are not part
    of this model. */
module VectorStore {
  import opened Wrappers
  import opened PyDict

  type Metadata = Dict<Json>

  /** One stored record; a record stored without metadata reads back as None. */
  datatype Entry = Entry(id: string, document: string, metadata: Option<Metadata>)

  /** The `ids` list of `collection.get()`, in store order. */
  function Ids(es: seq<Entry>): (r: seq<string>)
    ensures |r| == |es|
    ensures forall i :: 0 <= i < |es| ==> r[i] == es[i].id
  {
    seq(|es|, i requires 0 <= i < |es| => es[i].id)
  }

  /** The `metadatas` list of `collection.get()`, aligned with `Ids`. */
  function Metadatas(es: seq<Entry>): (r: seq<Option<Metadata>>)
    ensures |r| == |es|
    ensures forall i :: 0 <= i < |es| ==> r[i] == es[i].metadata
  {
    seq(|es|, i requires 0 <= i < |es| => es[i].metadata)
  }

  /** A collection holds each id at most once. */
  predicate DistinctIds(es: seq<Entry>) {
    forall i, j :: 0 <= i < j < |es| ==> es[i].id != es[j].id
  }

  /** The collection after `delete(ids=gone)`: the other records, in their
      order. Ids that are not stored are ignored. */
  function Without(es: seq<Entry>, gone: seq<string>): (r: seq<Entry>)
    ensures |r| <= |es|
    ensures forall e :: e in r <==> e in es && e.id !in gone
  {
    if es == [] then []
    else (if es[0].id in gone then [] else [es[0]]) + Without(es[1..], gone)
  }

  /** Deleting in two rounds removes what one round of the union removes. */
  lemma {:induction false} WithoutWithout(es: seq<Entry>, a: seq<string>, b: seq<string>)
    ensures Without(Without(es, a), b) == Without(es, a + b)
  {
    if es != [] {
      WithoutWithout(es[1..], a, b);
      var head := if es[0].id in a then [] else [es[0]];
      assert Without(es, a) == head + Without(es[1..], a);
      if es[0].id in a {
        assert Without(es, a) == Without(es[1..], a);
      } else {
        assert Without(es, a)[1..] == Without(es[1..], a);
      }
    }
  }

  /** Deleting no id leaves the collection as it is. */
  lemma {:induction false} WithoutNothing(es: seq<Entry>)
    ensures Without(es, []) == es
  {
    if es != [] {
      WithoutNothing(es[1..]);
      assert [es[0]] + es[1..] == es;
    }
  }

  /** Deleting keeps the remaining ids distinct. */
  lemma {:induction false} WithoutDistinct(es: seq<Entry>, gone: seq<string>)
    requires DistinctIds(es)
    ensures DistinctIds(Without(es, gone))
  {
    if es != [] {
      WithoutDistinct(es[1..], gone);
      var rest := Without(es[1..], gone);
      forall e | e in rest ensures e.id != es[0].id {
        var k :| 0 <= k < |es[1..]| && es[1..][k] == e;
        assert es[k + 1] == e;
      }
    }
  }

  /** The records of `get(ids=[id])`. */
  function WithId(es: seq<Entry>, id: string): (r: seq<Entry>)
    ensures forall e :: e in r <==> e in es && e.id == id
  {
    if es == [] then []
    else (if es[0].id == id then [es[0]] else []) + WithId(es[1..], id)
  }

  /** `get(ids=[id])` finds nothing for an id that is not stored. */
  lemma {:induction false} WithIdAbsent(es: seq<Entry>, id: string)
    requires id !in Ids(es)
    ensures WithId(es, id) == []
  {
    if es != [] {
      assert Ids(es) == [es[0].id] + Ids(es[1..]);
      WithIdAbsent(es[1..], id);
    }
  }

  /** The collection after `add` of one record: a record whose id is already
      stored is not added again. */
  function Added(es: seq<Entry>, e: Entry): (r: seq<Entry>)
    ensures DistinctIds(es) ==> DistinctIds(r)
    ensures e.id in Ids(r)
    ensures |r| == if e.id in Ids(es) then |es| else |es| + 1
    ensures r[..|es|] == es
    ensures forall x :: x in r <==> x in es || (x == e && e.id !in Ids(es))
  {
    if e.id in Ids(es) then es
    else
      assert Ids(es + [e])[|es|] == e.id;
      es + [e]
  }

  /** A persistent client: its collections by name. */
  class Store {
    var collections: map<string, seq<Entry>>

    ghost predicate Valid()
      reads this
    {
      forall name :: name in collections ==> DistinctIds(collections[name])
    }

    constructor (initial: map<string, seq<Entry>>)
      requires forall name :: name in initial ==> DistinctIds(initial[name])
      ensures Valid() && collections == initial
    {
      collections := initial;
    }

    /** `get_or_create_collection(name)`. */
    method GetOrCreate(name: string)
      requires Valid()
      modifies this
      ensures Valid()
      ensures name in collections
      ensures collections == if name in old(collections) then old(collections) else old(collections)[name := []]
    {
      if name !in collections {
        collections := collections[name := []];
      }
    }

    /** `collection.add(...)` of one record. */
    method Add(name: string, e: Entry)
      requires Valid() && name in collections
      modifies this
      ensures Valid()
      ensures collections == old(collections)[name := Added(old(collections)[name], e)]
    {
      collections := collections[name := Added(collections[name], e)];
    }

    /** `collection.delete(ids=ids)`. */
    method Delete(name: string, ids: seq<string>)
      requires Valid() && name in collections
      modifies this
      ensures Valid()
      ensures collections == old(collections)[name := Without(old(collections)[name], ids)]
    {
      WithoutDistinct(collections[name], ids);
      collections := collections[name := Without(collections[name], ids)];
    }
  }
}
