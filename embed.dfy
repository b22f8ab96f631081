/**
  The per-document vector index (app/core/embed.py). The sentence encoder and the FAISS
  inner-product search are parameters: encode maps a text to its vector, and knn maps the
  stored vectors, a query vector and top_k to the raw hit list, one (index, score) pair per
  returned neighbour, -1 standing for "no neighbour". The files the index and its metadata
  are written to are a map from document id to what was written.
*/
module Embed {
  import opened Wrappers
  import opened Chunking

  type Vector = seq<real>

  /** The metadata record written next to the index. */
  datatype Meta = Meta(docId: string, n: int, chunks: seq<Chunk>)

  /** What build writes for one document: the index vectors and the metadata. */
  datatype Stored = Stored(vectors: seq<Vector>, meta: Meta)

  /** One raw FAISS hit. */
  datatype RawHit = RawHit(index: int, score: real)

  /** One search result: its raw rank and score, an optional rerank score, and the chunk's fields. */
  datatype Hit = Hit(rank: nat, score: real, rerank: Option<real>, chunk: Chunk)

  type Knn = (seq<Vector>, Vector, int) -> seq<RawHit>

  /** One embedding per chunk text, in chunk order. */
  function Embeddings(encode: string -> Vector, chunks: seq<Chunk>): (r: seq<Vector>)
    ensures |r| == |chunks|
    ensures forall i :: 0 <= i < |chunks| ==> r[i] == encode(chunks[i].text)
  {
    seq(|chunks|, i requires 0 <= i < |chunks| => encode(chunks[i].text))
  }

  /**
    The result loop of search: the hits whose index lies in 0 <= i < n, in the index's order,
    each tagged with its position in the raw list and carrying chunk i.
  */
  function Assemble(raw: seq<RawHit>, chunks: seq<Chunk>): (r: seq<Hit>)
    ensures |r| <= |raw|
    decreases |raw|
  {
    if |raw| == 0 then []
    else
      var prev := Assemble(raw[..|raw| - 1], chunks);
      var h := raw[|raw| - 1];
      if 0 <= h.index < |chunks| then prev + [Hit(|raw| - 1, h.score, None, chunks[h.index])] else prev
  }

  lemma AssembleLast(raw: seq<RawHit>, chunks: seq<Chunk>)
    requires |raw| > 0
    ensures var h := raw[|raw| - 1];
      Assemble(raw, chunks) ==
      if 0 <= h.index < |chunks| then Assemble(raw[..|raw| - 1], chunks) + [Hit(|raw| - 1, h.score, None, chunks[h.index])]
      else Assemble(raw[..|raw| - 1], chunks)
  {
  }

  /**
    Every result comes from an in-range raw hit: its rank is that hit's position, its score the
    hit's score, its chunk chunks[index]; and the ranks strictly increase.
  */
  lemma {:induction false} AssembleSpec(raw: seq<RawHit>, chunks: seq<Chunk>)
    ensures var r := Assemble(raw, chunks);
      && (forall j :: 0 <= j < |r| ==>
            && r[j].rank < |raw|
            && 0 <= raw[r[j].rank].index < |chunks|
            && r[j] == Hit(r[j].rank, raw[r[j].rank].score, None, chunks[raw[r[j].rank].index]))
      && (forall j, j' :: 0 <= j < j' < |r| ==> r[j].rank < r[j'].rank)
    decreases |raw|
  {
    if |raw| > 0 {
      var init := raw[..|raw| - 1];
      var h := raw[|raw| - 1];
      AssembleSpec(init, chunks);
      AssembleLast(raw, chunks);
      var prev := Assemble(init, chunks);
      var r := Assemble(raw, chunks);
      forall j | 0 <= j < |prev|
        ensures r[j] == prev[j] && raw[prev[j].rank] == init[prev[j].rank]
      {
      }
    }
  }

  lemma AssembleSnoc(raw: seq<RawHit>, chunks: seq<Chunk>, k: nat)
    requires k < |raw|
    ensures Assemble(raw[..k + 1], chunks) ==
      if 0 <= raw[k].index < |chunks| then Assemble(raw[..k], chunks) + [Hit(k, raw[k].score, None, chunks[raw[k].index])]
      else Assemble(raw[..k], chunks)
  {
    assert raw[..k + 1][..k] == raw[..k];
  }

  /** No in-range hit is dropped: every raw position whose index is in range appears as a rank. */
  lemma {:induction false} AssembleComplete(raw: seq<RawHit>, chunks: seq<Chunk>, q: nat)
    requires q < |raw| && 0 <= raw[q].index < |chunks|
    ensures exists j :: 0 <= j < |Assemble(raw, chunks)| && Assemble(raw, chunks)[j].rank == q
    decreases |raw|
  {
    var r := Assemble(raw, chunks);
    if q == |raw| - 1 {
      assert r[|r| - 1].rank == q;
    } else {
      var init := raw[..|raw| - 1];
      AssembleComplete(init, chunks, q);
      var j :| 0 <= j < |Assemble(init, chunks)| && Assemble(init, chunks)[j].rank == q;
      assert r[j] == Assemble(init, chunks)[j];
    }
  }

  /** With every index in range, the results are the raw hits one for one. */
  lemma {:induction false} AssembleAllInRange(raw: seq<RawHit>, chunks: seq<Chunk>)
    requires forall q :: 0 <= q < |raw| ==> 0 <= raw[q].index < |chunks|
    ensures |Assemble(raw, chunks)| == |raw|
    ensures forall q :: 0 <= q < |raw| ==> Assemble(raw, chunks)[q].rank == q
    decreases |raw|
  {
    if |raw| > 0 {
      AssembleAllInRange(raw[..|raw| - 1], chunks);
    }
  }

  /** FAISS pads a short result with index -1; padding never reaches the results. */
  lemma PaddingDropped(raw: seq<RawHit>, chunks: seq<Chunk>, q: nat)
    requires q < |raw| && raw[q].index == -1
    ensures forall j :: 0 <= j < |Assemble(raw, chunks)| ==> Assemble(raw, chunks)[j].rank != q
  {
    AssembleSpec(raw, chunks);
  }

  /** Every stored metadata record counts its own chunks, at least one, and names its document. */
  ghost predicate StoreValid(store: map<string, Stored>) {
    forall d :: d in store ==> store[d].meta.n == |store[d].meta.chunks| >= 1 && store[d].meta.docId == d
  }

  /** What search returns: nothing for a document never built, otherwise the assembled hits. */
  function SearchResult(store: map<string, Stored>, encode: string -> Vector, docId: string, query: string, topK: int, knn: Knn): Option<seq<Hit>> {
    if docId !in store then None
    else
      var s := store[docId];
      Some(Assemble(knn(s.vectors, encode(query), topK), s.meta.chunks))
  }

  class IndexStore {
    const encode: string -> Vector
    var store: map<string, Stored>

    ghost predicate Valid()
      reads this
    {
      StoreValid(store)
    }

    constructor(encode: string -> Vector)
      ensures this.encode == encode && store == map[] && Valid()
    {
      this.encode := encode;
      store := map[];
    }

    /**
      build: the vectors of the chunk texts and the metadata {doc_id, n, chunks}. With no chunks
      the embedding matrix has no second dimension, so build fails before writing anything and
      an earlier index of the document stays as it was.
    */
    method Build(docId: string, chunks: seq<Chunk>) returns (built: bool)
      requires Valid()
      modifies this
      ensures Valid()
      ensures built <==> |chunks| > 0
      ensures built ==> store == old(store)[docId := Stored(Embeddings(encode, chunks), Meta(docId, |chunks|, chunks))]
      ensures !built ==> store == old(store)
    {
      if |chunks| == 0 {
        return false;
      }
      var texts := seq(|chunks|, i requires 0 <= i < |chunks| => chunks[i].text);
      var vectors := seq(|texts|, i requires 0 <= i < |texts| => encode(texts[i]));
      assert vectors == Embeddings(encode, chunks);
      var meta := Meta(docId, |chunks|, chunks);
      store := store[docId := Stored(vectors, meta)];
      built := true;
    }

    /** search: the in-range hits of the raw FAISS result, with their raw rank and score. */
    method Search(docId: string, query: string, topK: int, knn: Knn) returns (r: Option<seq<Hit>>)
      requires Valid()
      ensures r == SearchResult(store, encode, docId, query, topK, knn)
    {
      if docId !in store {
        return None;
      }
      var stored := store[docId];
      var qv := encode(query);
      var raw := knn(stored.vectors, qv, topK);
      var n, chunks := stored.meta.n, stored.meta.chunks;
      assert n == |chunks|;
      var results: seq<Hit> := [];
      for rank := 0 to |raw|
        invariant results == Assemble(raw[..rank], chunks)
      {
        AssembleSnoc(raw, chunks, rank);
        var i := raw[rank].index;
        if 0 <= i < n {
          results := results + [Hit(rank, raw[rank].score, None, chunks[i])];
        }
      }
      assert raw[..|raw|] == raw;
      return Some(results);
    }
  }
}
