/** Retrieval for the question-answering chain (src/rag_utils.py): the
    missing-collection check of `create_rag_chain` and the context text that
    `retrieve_context` builds from a query's results. The embedding model,
    the similarity ranking and the language model are not part of this model:
    the ranked records are a parameter. */
module RagUtils {
  import opened Wrappers
  import opened PyStr
  import opened PyDict
  import opened VectorStore

  const DefaultNResults: nat := 10
  const UnknownSource: Json := Str("Unknown source")
  const BlockSeparator: string := "\n\n"

  /** A chain over one collection, with its prompt template. */
  datatype RagChain = RagChain(collectionName: string, records: seq<Entry>, promptTemplate: string)

  /** The ValueError `create_rag_chain` raises for a collection that is not stored. */
  function MissingCollectionMessage(name: string): string {
    "Collection '" + name + "' does not exist. Please ingest data first using ingest.py"
  }

  /** `create_rag_chain(collection_name, prompt_template)`. */
  function CreateRagChain(collections: map<string, seq<Entry>>, name: string, promptTemplate: string)
    : (r: Result<RagChain, string>)
    ensures r.Failure? <==> name !in collections
    ensures r.Failure? ==> r.error == MissingCollectionMessage(name)
    ensures r.Success? ==> r.value.records == collections[name] && r.value.collectionName == name
  {
    if name !in collections then Failure(MissingCollectionMessage(name))
    else Success(RagChain(name, collections[name], promptTemplate))
  }

  /** What `collection.query(..., n_results=n)` returns for one query: the
      documents and metadatas of the first `n` records of the ranking. */
  function QueryResults(ranked: seq<Entry>, nResults: nat): (r: (seq<string>, seq<Option<Metadata>>))
    ensures |r.0| == |r.1| == Min(|ranked|, nResults)
    ensures forall i :: 0 <= i < |r.0| ==> r.0[i] == ranked[i].document && r.1[i] == ranked[i].metadata
  {
    var top := if |ranked| <= nResults then ranked else ranked[..nResults];
    (seq(|top|, i requires 0 <= i < |top| => top[i].document), Metadatas(top))
  }

  /** The text of one block: the `source` metadata (or "Unknown source") in
      a header line, then the document. */
  function BlockText(doc: string, meta: Metadata): string {
    "--- CONTEXT FROM: " + Format(GetOr(meta, "source", UnknownSource)) + " ---\n" + doc
  }

  /** A block is the fixed header, the source text and the document: both can
      be read back from between the fixed pieces. */
  lemma BlockTextParts(doc: string, meta: Metadata)
    ensures var r := BlockText(doc, meta);
      && |r| == 18 + |Format(GetOr(meta, "source", UnknownSource))| + 5 + |doc|
      && StartsWith(r, "--- CONTEXT FROM: ") && EndsWith(r, " ---\n" + doc)
      && r[18..|r| - |" ---\n" + doc|] == Format(GetOr(meta, "source", UnknownSource))
  {
    var r := BlockText(doc, meta);
    var source := Format(GetOr(meta, "source", UnknownSource));
    assert r[..18] == "--- CONTEXT FROM: ";
    assert r[18..18 + |source|] == source;
    assert r[18 + |source|..] == " ---\n" + doc;
  }

  /** One context block: the record's `source` (or "Unknown source") in a
      header line, then the document. A record without metadata makes
      `meta.get` raise. */
  function Block(doc: string, meta: Option<Metadata>): (r: Result<string, string>)
    ensures r.Failure? <==> meta.None?
    ensures r.Success? ==> StartsWith(r.value, "--- CONTEXT FROM: ") && EndsWith(r.value, " ---\n" + doc)
  {
    match meta
    case None => Failure("'NoneType' object has no attribute 'get'")
    case Some(m) =>
      BlockTextParts(doc, m);
      Success(BlockText(doc, m))
  }

  /** The blocks of the first `n` pairs of `zip(docs, metas)`, or the error of
      the first pair whose block raises. */
  function Blocks(docs: seq<string>, metas: seq<Option<Metadata>>, n: nat): (r: Result<seq<string>, string>)
    requires n <= |docs| && n <= |metas|
    ensures r.Success? ==> |r.value| == n
  {
    if n == 0 then Success([])
    else match Blocks(docs, metas, n - 1)
      case Failure(e) => Failure(e)
      case Success(blocks) =>
        match Block(docs[n - 1], metas[n - 1])
        case Failure(e) => Failure(e)
        case Success(b) => Success(blocks + [b])
  }

  /** The context text: the blocks of the pairs, truncated to the shorter
      list, joined with blank lines. It fails, with the error of `meta.get` on
      None, exactly when a paired record has no metadata; no pairs give the
      empty context. */
  function RenderContext(docs: seq<string>, metas: seq<Option<Metadata>>): (r: Result<string, string>)
    ensures r.Failure? <==> exists i :: 0 <= i < Min(|docs|, |metas|) && metas[i].None?
    ensures r.Failure? ==> r.error == "'NoneType' object has no attribute 'get'"
    ensures Min(|docs|, |metas|) == 0 ==> r == Success("")
  {
    BlocksSucceed(docs, metas, Min(|docs|, |metas|));
    match Blocks(docs, metas, Min(|docs|, |metas|))
    case Failure(e) => Failure(e)
    case Success(blocks) => Success(Join(blocks, BlockSeparator))
  }

  /** `retrieve_context(query_text, n_results)` over the ranking the query
      gives: takes the top results, builds the blocks in a loop, then joins
      them. The chain calls it with `DefaultNResults`. */
  method RetrieveContext(ranked: seq<Entry>, nResults: nat) returns (context: Result<string, string>)
    ensures context == RenderContext(QueryResults(ranked, nResults).0, QueryResults(ranked, nResults).1)
  {
    var results := QueryResults(ranked, nResults);
    var docs, metas := results.0, results.1;
    var n := Min(|docs|, |metas|);
    var blocks: seq<string> := [];
    var i := 0;
    while i < n
      invariant 0 <= i <= n
      invariant Blocks(docs, metas, i) == Success(blocks)
    {
      var meta := metas[i];
      if meta.None? {
        FailureStays(docs, metas, i + 1, n);
        RenderOfBlocks(docs, metas);
        return Failure("'NoneType' object has no attribute 'get'");
      }
      var source := GetOr(meta.value, "source", UnknownSource);
      var block := "--- CONTEXT FROM: " + Format(source) + " ---\n" + docs[i];
      BlocksStep(docs, metas, i, blocks);
      blocks := blocks + [block];
      i := i + 1;
    }
    RenderOfBlocks(docs, metas);
    context := Success(Join(blocks, BlockSeparator));
  }

  /** The context is the outcome of the blocks of the paired results. */
  lemma RenderOfBlocks(docs: seq<string>, metas: seq<Option<Metadata>>)
    ensures var b := Blocks(docs, metas, Min(|docs|, |metas|));
      RenderContext(docs, metas) == if b.Failure? then Failure(b.error) else Success(Join(b.value, BlockSeparator))
  {
  }

  /** A pair with metadata extends the blocks so far by its own block. */
  lemma BlocksStep(docs: seq<string>, metas: seq<Option<Metadata>>, i: nat, blocks: seq<string>)
    requires i < |docs| && i < |metas| && metas[i].Some?
    requires Blocks(docs, metas, i) == Success(blocks)
    ensures Blocks(docs, metas, i + 1) == Success(blocks + [BlockText(docs[i], metas[i].value)])
  {
  }

  /** Once a pair raises, every longer prefix raises the same error. */
  lemma {:induction false} FailureStays(docs: seq<string>, metas: seq<Option<Metadata>>, m: nat, n: nat)
    requires m <= n <= |docs| && n <= |metas|
    requires Blocks(docs, metas, m).Failure?
    ensures Blocks(docs, metas, n) == Blocks(docs, metas, m)
    decreases n - m
  {
    if m < n {
      FailureStays(docs, metas, m, n - 1);
    }
  }

  /** The `i`-th block belongs to the `i`-th pair: it names that record's source,
      or "Unknown source" when the metadata has none, and holds its document. */
  lemma {:induction false} BlockAt(docs: seq<string>, metas: seq<Option<Metadata>>, n: nat, i: nat)
    requires n <= |docs| && n <= |metas| && i < n
    requires Blocks(docs, metas, n).Success?
    ensures metas[i].Some?
    ensures Blocks(docs, metas, n).value[i]
         == BlockText(docs[i], metas[i].value)
  {
    if i < n - 1 {
      BlockAt(docs, metas, n - 1, i);
    }
  }

  /** The pairs render iff every paired record has metadata; otherwise the
      error is the one of `meta.get` on None. */
  lemma {:induction false} BlocksSucceed(docs: seq<string>, metas: seq<Option<Metadata>>, n: nat)
    requires n <= |docs| && n <= |metas|
    ensures Blocks(docs, metas, n).Success? <==> forall i :: 0 <= i < n ==> metas[i].Some?
    ensures Blocks(docs, metas, n).Failure? ==> Blocks(docs, metas, n).error == "'NoneType' object has no attribute 'get'"
  {
    if n > 0 {
      BlocksSucceed(docs, metas, n - 1);
      var prev := Blocks(docs, metas, n - 1);
      AllSomeStep(metas, n);
      if prev.Success? {
        assert Blocks(docs, metas, n).Success? <==> Block(docs[n - 1], metas[n - 1]).Success?;
      }
    }
  }

  /** Every one of the first `n` metadatas is present iff the first `n - 1`
      are and the `n`-th is. */
  lemma AllSomeStep(metas: seq<Option<Metadata>>, n: nat)
    requires 0 < n <= |metas|
    ensures (forall i :: 0 <= i < n ==> metas[i].Some?)
        <==> (forall i :: 0 <= i < n - 1 ==> metas[i].Some?) && metas[n - 1].Some?
  {
  }

  /** The context of a query holds one block per top-ranked record, at most
      `nResults` of them (ten for the chain), in ranking order, each naming
      that record's source and holding its document. */
  lemma {:induction false} RetrievedBlocks(ranked: seq<Entry>, nResults: nat)
    ensures var q := QueryResults(ranked, nResults);
      var k := Min(|ranked|, nResults);
      RenderContext(q.0, q.1).Success? ==>
        && Blocks(q.0, q.1, k).Success?
        && RenderContext(q.0, q.1).value == Join(Blocks(q.0, q.1, k).value, BlockSeparator)
        && |Blocks(q.0, q.1, k).value| == k <= nResults
        && forall i :: 0 <= i < k ==>
             ranked[i].metadata.Some?
             && Blocks(q.0, q.1, k).value[i] == BlockText(ranked[i].document, ranked[i].metadata.value)
  {
    var q := QueryResults(ranked, nResults);
    var k := Min(|ranked|, nResults);
    if RenderContext(q.0, q.1).Success? {
      forall i | 0 <= i < k
        ensures ranked[i].metadata.Some?
        ensures Blocks(q.0, q.1, k).value[i] == BlockText(ranked[i].document, ranked[i].metadata.value)
      {
        BlockAt(q.0, q.1, k, i);
      }
    }
  }

  /** The chain calls `retrieve_context(question)` with the default of ten
      results: its context holds the blocks of the first ten ranked records, or
      of all of them when there are fewer. */
  lemma ChainContextBlocks(ranked: seq<Entry>)
    ensures var q := QueryResults(ranked, DefaultNResults);
      RenderContext(q.0, q.1).Success? ==> |Blocks(q.0, q.1, Min(|q.0|, |q.1|)).value| == Min(|ranked|, 10)
  {
  }

  /** A single result renders as its block alone, with no separator. */
  lemma SingleContext(doc: string, meta: Metadata)
    ensures RenderContext([doc], [Some(meta)])
         == Success(BlockText(doc, meta))
  {
    assert Blocks([doc], [Some(meta)], 0) == Success([]);
  }

  /** Each further result adds a blank line and its block after the context so
      far, so blocks appear in retrieval order. */
  lemma {:induction false} ContextGrows(docs: seq<string>, metas: seq<Option<Metadata>>, doc: string, meta: Metadata)
    requires |docs| == |metas| && docs != []
    requires RenderContext(docs, metas).Success?
    ensures RenderContext(docs + [doc], metas + [Some(meta)])
         == Success(RenderContext(docs, metas).value + BlockSeparator + BlockText(doc, meta))
  {
    var n := |docs|;
    BlocksPrefix(docs, metas, doc, Some(meta), n);
    var blocks := Blocks(docs, metas, n).value;
    assert (docs + [doc])[n] == doc && (metas + [Some(meta)])[n] == Some(meta);
    assert Blocks(docs + [doc], metas + [Some(meta)], n + 1)
        == Success(blocks + [BlockText(doc, meta)]);
    JoinSnoc(blocks, BlockText(doc, meta), BlockSeparator);
  }

  /** Appending a pair leaves the blocks of the earlier pairs unchanged. */
  lemma {:induction false} BlocksPrefix(docs: seq<string>, metas: seq<Option<Metadata>>, doc: string, meta: Option<Metadata>, n: nat)
    requires n <= |docs| && n <= |metas|
    ensures Blocks(docs + [doc], metas + [meta], n) == Blocks(docs, metas, n)
  {
    if n > 0 {
      BlocksPrefix(docs, metas, doc, meta, n - 1);
      assert (docs + [doc])[n - 1] == docs[n - 1];
      assert (metas + [meta])[n - 1] == metas[n - 1];
    }
  }

  /** Joining one more part adds the separator and the part. */
  lemma {:induction false} JoinSnoc(parts: seq<string>, last: string, sep: string)
    requires parts != []
    ensures Join(parts + [last], sep) == Join(parts, sep) + sep + last
    decreases |parts|
  {
    if |parts| == 1 {
      assert (parts + [last])[1..] == [last];
    } else {
      assert (parts + [last])[1..] == parts[1..] + [last];
      JoinSnoc(parts[1..], last, sep);
    }
  }
}
