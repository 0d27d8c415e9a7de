/** Deleting every chunk of one source directory from a knowledge-base collection
    (src/delete_from_ark.py): fetch all metadata, keep the ids whose `source`
    lies under the directory, and delete them in batches of 500. */
module DeleteFromArk {
  import opened Wrappers
  import opened PyStr
  import opened PyDict
  import opened VectorStore

  /** The number of ids handed to one `collection.delete` call. */
  const BatchSize: nat := 500

  /** `os.path.sep` on POSIX. */
  const Sep: char := '/'

  /** The source path made to end in exactly one separator, so that it names a
      directory: a separator is appended unless one is already there. */
  function DirPrefix(sourcePath: string): (r: string)
    ensures EndsWith(r, [Sep])
    ensures StartsWith(r, sourcePath)
    ensures EndsWith(sourcePath, [Sep]) ==> r == sourcePath
    ensures !EndsWith(sourcePath, [Sep]) ==> |r| == |sourcePath| + 1
  {
    if EndsWith(sourcePath, [Sep]) then sourcePath else sourcePath + [Sep]
  }

  /** Making the prefix twice changes nothing more. */
  lemma DirPrefixIdempotent(sourcePath: string)
    ensures DirPrefix(DirPrefix(sourcePath)) == DirPrefix(sourcePath)
  {
  }

  /** A path only matches below the directory itself: `/a/b` never selects a
      source under `/a/bc/`, because the character after the path must be the
      separator. */
  lemma NoSiblingMatch(sourcePath: string, source: string)
    requires !EndsWith(sourcePath, [Sep])
    requires StartsWith(source, DirPrefix(sourcePath))
    ensures StartsWith(source, sourcePath)
    ensures |source| > |sourcePath| && source[|sourcePath|] == Sep
  {
    var r := DirPrefix(sourcePath);
    assert r == sourcePath + [Sep];
    assert source[..|r|] == r;
    assert source[..|sourcePath|] == source[..|r|][..|sourcePath|];
    assert source[|sourcePath|] == source[..|r|][|sourcePath|];
  }

  /** The test of one record's metadata: an absent or empty metadata dict, or one
      without `source`, is skipped; a `source` that is not a string makes
      `startswith` raise AttributeError, which the script does not catch. */
  function Matches(meta: Option<Metadata>, prefix: string): (r: Result<bool, string>)
    ensures r.Failure? <==> meta.Some? && Get(meta.value, "source").Some? && !Get(meta.value, "source").value.Str?
    ensures r == Success(true) <==>
      meta.Some? && Get(meta.value, "source").Some? && Get(meta.value, "source").value.Str?
      && StartsWith(Get(meta.value, "source").value.s, prefix)
  {
    match meta
    case None => Success(false)
    case Some(m) =>
      if m == [] then Success(false)
      else match Get(m, "source")
        case None => Success(false)
        case Some(v) =>
          if v.Str? then Success(StartsWith(v.s, prefix))
          else Failure("'" + TypeName(v) + "' object has no attribute 'startswith'")
  }

  /** `ids_to_delete` after the filtering loop over the records in store order,
      or the error that stops the loop. */
  function SelectedIds(es: seq<Entry>, prefix: string): (r: Result<seq<string>, string>)
    ensures r.Success? ==> |r.value| <= |es|
  {
    if es == [] then Success([])
    else
      var last := es[|es| - 1];
      match SelectedIds(es[..|es| - 1], prefix)
      case Failure(msg) => Failure(msg)
      case Success(ids) =>
        match Matches(last.metadata, prefix)
        case Failure(msg) => Failure(msg)
        case Success(hit) => Success(if hit then ids + [last.id] else ids)
  }

  /** The filter fails exactly when some record's `source` is not a string. */
  lemma {:induction false} SelectedIdsFails(es: seq<Entry>, prefix: string)
    ensures SelectedIds(es, prefix).Failure?
        <==> exists i :: 0 <= i < |es| && Matches(es[i].metadata, prefix).Failure?
  {
    if es != [] {
      var init := es[..|es| - 1];
      SelectedIdsFails(init, prefix);
      SomeFailsSnoc(init, es[|es| - 1], prefix);
      assert es == init + [es[|es| - 1]];
    }
  }

  /** Some record fails to match exactly when some earlier record does or the
      last one does. */
  lemma SomeFailsSnoc(init: seq<Entry>, last: Entry, prefix: string)
    ensures (exists i :: 0 <= i < |init| + 1 && Matches((init + [last])[i].metadata, prefix).Failure?)
        <==> (exists i :: 0 <= i < |init| && Matches(init[i].metadata, prefix).Failure?)
             || Matches(last.metadata, prefix).Failure?
  {
    var es := init + [last];
    if exists i :: 0 <= i < |init| && Matches(init[i].metadata, prefix).Failure? {
      var i :| 0 <= i < |init| && Matches(init[i].metadata, prefix).Failure?;
      assert es[i] == init[i];
    }
    assert es[|init|] == last;
    if exists i :: 0 <= i < |es| && Matches(es[i].metadata, prefix).Failure? {
      var i :| 0 <= i < |es| && Matches(es[i].metadata, prefix).Failure?;
      if i < |init| { assert init[i] == es[i]; }
    }
  }

  /** An id is selected exactly when a record with that id has a string
      `source` starting with the prefix. */
  lemma {:induction false} SelectedIdsMembers(es: seq<Entry>, prefix: string, id: string)
    requires SelectedIds(es, prefix).Success?
    ensures id in SelectedIds(es, prefix).value
        <==> exists i :: 0 <= i < |es| && es[i].id == id && Matches(es[i].metadata, prefix) == Success(true)
  {
    if es != [] {
      var init := es[..|es| - 1];
      SelectedIdsMembers(init, prefix, id);
      if exists i :: 0 <= i < |init| && init[i].id == id && Matches(init[i].metadata, prefix) == Success(true) {
        var i :| 0 <= i < |init| && init[i].id == id && Matches(init[i].metadata, prefix) == Success(true);
        assert es[i] == init[i];
      }
      if exists i :: 0 <= i < |es| && es[i].id == id && Matches(es[i].metadata, prefix) == Success(true) {
        var i :| 0 <= i < |es| && es[i].id == id && Matches(es[i].metadata, prefix) == Success(true);
        if i < |init| { assert init[i] == es[i]; }
      }
    }
  }

  /** The selected ids keep the store order: filtering a longer listing only
      appends to what the shorter listing selected. */
  lemma {:induction false} SelectedIdsPrefix(es: seq<Entry>, k: nat, prefix: string)
    requires k <= |es|
    requires SelectedIds(es, prefix).Success?
    ensures SelectedIds(es[..k], prefix).Success?
    ensures StartsWithSeq(SelectedIds(es, prefix).value, SelectedIds(es[..k], prefix).value)
  {
    if k < |es| {
      assert es[..|es| - 1][..k] == es[..k];
      SelectedIdsPrefix(es[..|es| - 1], k, prefix);
    } else {
      assert es[..k] == es;
    }
  }

  predicate StartsWithSeq(s: seq<string>, p: seq<string>) {
    |p| <= |s| && s[..|p|] == p
  }

  /** The filtering loop of lines 42-46. */
  method SelectIds(es: seq<Entry>, prefix: string) returns (r: Result<seq<string>, string>)
    ensures r == SelectedIds(es, prefix)
  {
    var ids: seq<string> := [];
    var i := 0;
    while i < |es|
      invariant 0 <= i <= |es|
      invariant SelectedIds(es[..i], prefix) == Success(ids)
    {
      assert es[..i + 1][..i] == es[..i];
      match Matches(es[i].metadata, prefix)
      case Failure(msg) =>
        FailureStays(es, i + 1, prefix);
        return Failure(msg);
      case Success(hit) =>
        if hit {
          ids := ids + [es[i].id];
        }
      i := i + 1;
    }
    assert es[..i] == es;
    r := Success(ids);
  }

  /** Once a prefix of the listing fails, the whole listing fails with the same
      message: the loop stops at the first bad record. */
  lemma {:induction false} FailureStays(es: seq<Entry>, k: nat, prefix: string)
    requires k <= |es|
    requires SelectedIds(es[..k], prefix).Failure?
    ensures SelectedIds(es, prefix) == SelectedIds(es[..k], prefix)
  {
    if k < |es| {
      assert es[..|es| - 1][..k] == es[..k];
      FailureStays(es[..|es| - 1], k, prefix);
    } else {
      assert es[..k] == es;
    }
  }

  /** The slices `ids[i:i + size]` for `i` in `range(0, len(ids), size)`:
      every batch is non-empty and at most `size` long; all but the last are
      full. */
  function Batches(ids: seq<string>, size: nat): (r: seq<seq<string>>)
    requires size > 0
    ensures forall j :: 0 <= j < |r| ==> 0 < |r[j]| <= size
    ensures forall j :: 0 <= j < |r| - 1 ==> |r[j]| == size
    decreases |ids|
  {
    if ids == [] then []
    else
      var rest := Batches(ids[Min(size, |ids|)..], size);
      var r := [ids[..Min(size, |ids|)]] + rest;
      assert forall j :: 1 <= j < |r| ==> r[j] == rest[j - 1];
      r
  }

  function Flatten(bs: seq<seq<string>>): seq<string> {
    if bs == [] then [] else bs[0] + Flatten(bs[1..])
  }

  /** The batches, put back together, are exactly the selected ids: every id is
      deleted once, in order, and nothing else is asked for. */
  lemma {:induction false} BatchesFlatten(ids: seq<string>, size: nat)
    requires size > 0
    ensures Flatten(Batches(ids, size)) == ids
    decreases |ids|
  {
    if ids != [] {
      var n := Min(size, |ids|);
      BatchesFlatten(ids[n..], size);
      assert ids[..n] + ids[n..] == ids;
    }
  }

  /** There are ceil(len(ids) / 500) batches, the count the progress line prints. */
  lemma {:induction false} BatchesCount(ids: seq<string>)
    ensures |Batches(ids, BatchSize)| == (|ids| + BatchSize - 1) / BatchSize
    decreases |ids|
  {
    if ids != [] {
      var n := Min(BatchSize, |ids|);
      BatchesCount(ids[n..]);
    }
  }

  /** How a run of the script ends. */
  datatype Outcome =
    | NoDatabase                      // the database directory does not exist
    | NoCollection                    // the collection does not exist
    | SourceNotText(message: string)  // AttributeError raised by the filter
    | NothingToDelete
    | Deleted(batches: seq<seq<string>>, deletedCount: nat)

  /** `main(collection_name, source_path)`. `dbExists` stands for
      `os.path.exists("db")`; `batches` are the `delete` calls in the order issued. */
  method DeleteSource(dbExists: bool, store: Store, collectionName: string, sourcePath: string)
    returns (outcome: Outcome)
    requires store.Valid()
    modifies store
    ensures store.Valid()
    ensures !dbExists ==> outcome == NoDatabase && store.collections == old(store.collections)
    ensures dbExists && collectionName !in old(store.collections) ==>
      outcome == NoCollection && store.collections == old(store.collections)
    ensures dbExists && collectionName in old(store.collections) ==>
      var es := old(store.collections)[collectionName];
      match SelectedIds(es, DirPrefix(sourcePath))
      case Failure(msg) =>
        outcome == SourceNotText(msg) && store.collections == old(store.collections)
      case Success(ids) =>
        if ids == [] then
          outcome == NothingToDelete && store.collections == old(store.collections)
        else
          && outcome == Deleted(Batches(ids, BatchSize), |ids|)
          && store.collections == old(store.collections)[collectionName := Without(es, ids)]
  {
    if !dbExists {
      return NoDatabase;
    }
    if collectionName !in store.collections {
      return NoCollection;
    }
    var es := store.collections[collectionName];
    var prefix := DirPrefix(sourcePath);
    var selection := SelectIds(es, prefix);
    if selection.Failure? {
      return SourceNotText(selection.error);
    }
    var ids := selection.value;
    if ids == [] {
      return NothingToDelete;
    }
    var batches := DeleteInBatches(store, collectionName, ids);
    outcome := Deleted(batches, |ids|);
  }

  /** One step of the batch loop: the next batch is the head of the remaining
      batches. */
  lemma BatchStep(ids: seq<string>, deleted: nat, batch: seq<string>)
    requires deleted < |ids|
    requires batch == ids[deleted..Min(deleted + BatchSize, |ids|)]
    ensures Batches(ids[deleted..], BatchSize) == [batch] + Batches(ids[deleted + |batch|..], BatchSize)
  {
    assert ids[deleted..][..Min(BatchSize, |ids[deleted..]|)] == batch;
    assert ids[deleted..][Min(BatchSize, |ids[deleted..]|)..] == ids[deleted + |batch|..];
  }

  /** A second update of the same collection replaces the first. */
  lemma UpdateTwice(m: map<string, seq<Entry>>, name: string, first: seq<Entry>, second: seq<Entry>)
    ensures m[name := first][name := second] == m[name := second]
  {
  }

  /** Moving the next batch from the batches still to issue to those issued. */
  lemma IssueNext(issued: seq<seq<string>>, batch: seq<string>, rest: seq<seq<string>>, all: seq<seq<string>>)
    requires issued + ([batch] + rest) == all
    ensures (issued + [batch]) + rest == all
  {
    assert issued + ([batch] + rest) == (issued + [batch]) + rest;
  }

  /** One step of the batch loop: deleting the next batch from what is left
      equals deleting the longer prefix of the ids from the original. */
  lemma DeleteStep(es: seq<Entry>, ids: seq<string>, deleted: nat, batch: seq<string>)
    requires deleted + |batch| <= |ids|
    requires batch == ids[deleted..deleted + |batch|]
    ensures Without(Without(es, ids[..deleted]), batch) == Without(es, ids[..deleted + |batch|])
  {
    WithoutWithout(es, ids[..deleted], batch);
    assert ids[..deleted + |batch|] == ids[..deleted] + batch;
  }

  /** The delete loop of lines 59-64: `delete` is called once per batch, in
      order, and the store loses exactly the selected ids. Returns the batches
      issued. */
  method DeleteInBatches(store: Store, collectionName: string, ids: seq<string>)
    returns (issued: seq<seq<string>>)
    requires store.Valid() && collectionName in store.collections
    modifies store
    ensures store.Valid()
    ensures issued == Batches(ids, BatchSize)
    ensures store.collections ==
      old(store.collections)[collectionName := Without(old(store.collections)[collectionName], ids)]
  {
    ghost var es := store.collections[collectionName];
    ghost var before := store.collections;
    var total := |ids|;
    var deleted := 0;
    issued := [];
    var i: nat := 0;
    WithoutNothing(es);
    assert ids[..0] == [];
    assert store.collections == store.collections[collectionName := es];
    while i < total
      invariant deleted == Min(i, total)
      invariant issued + Batches(ids[deleted..], BatchSize) == Batches(ids, BatchSize)
      invariant store.Valid() && collectionName in store.collections
      invariant store.collections == before[collectionName := Without(es, ids[..deleted])]
    {
      var batch := ids[i..Min(i + BatchSize, total)];
      assert deleted == i && deleted + |batch| == Min(i + BatchSize, total);
      ghost var remaining := Without(es, ids[..deleted]);
      store.Delete(collectionName, batch);
      BatchStep(ids, deleted, batch);
      IssueNext(issued, batch, Batches(ids[deleted + |batch|..], BatchSize), Batches(ids, BatchSize));
      DeleteStep(es, ids, deleted, batch);
      UpdateTwice(before, collectionName, remaining, Without(remaining, batch));
      deleted := deleted + |batch|;
      issued := issued + [batch];
      i := i + BatchSize;
    }
    assert deleted == total;
    assert ids[deleted..] == [];
    assert issued == issued + Batches([], BatchSize);
    assert ids[..deleted] == ids;
  }

  /** The script removes exactly the records whose `source` lies under the
      directory and keeps every other record in its place. */
  lemma DeletionKeepsOthers(es: seq<Entry>, sourcePath: string, e: Entry)
    requires DistinctIds(es)
    requires SelectedIds(es, DirPrefix(sourcePath)).Success?
    ensures var ids := SelectedIds(es, DirPrefix(sourcePath)).value;
      e in Without(es, ids) <==> e in es && Matches(e.metadata, DirPrefix(sourcePath)) == Success(false)
  {
    var prefix := DirPrefix(sourcePath);
    var ids := SelectedIds(es, prefix).value;
    SelectedIdsMembers(es, prefix, e.id);
    SelectedIdsFails(es, prefix);
    if e in es {
      var k :| 0 <= k < |es| && es[k] == e;
      assert Matches(es[k].metadata, prefix).Success?;
    }
  }
}
