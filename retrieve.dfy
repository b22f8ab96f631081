/**
  Retrieval ordering and context packing (app/core/retrieve.py). The cross-encoder is a
  scoring function over (question, chunk text) pairs, loaded from the model name; whether
  its import succeeded is a parameter. Python's list.sort with reverse=True is a stable
  descending sort, modelled by SortDesc.
*/
module Retrieve {
  import opened Wrappers
  import opened Text
  import opened Chunking
  import opened Embed

  type Scorer = (string, string) -> real

  /** The first-stage pool size, whatever k is. */
  const PoolSize := 50

  /** Sort keys: x.get("rerank", 0) and x.get("score", 0). */
  function RerankKey(h: Hit): real { h.rerank.GetOr(0.0) }

  function ScoreKey(h: Hit): real { h.score }

  predicate SortedDesc(s: seq<Hit>, key: Hit -> real) {
    forall i, j :: 0 <= i < j < |s| ==> key(s[i]) >= key(s[j])
  }

  /** The items of s whose key is v, in their order in s. */
  function WithKey(s: seq<Hit>, key: Hit -> real, v: real): (r: seq<Hit>)
    ensures |r| <= |s|
    ensures forall j :: 0 <= j < |r| ==> key(r[j]) == v
    decreases |s|
  {
    if |s| == 0 then []
    else (if key(s[0]) == v then [s[0]] else []) + WithKey(s[1..], key, v)
  }

  /** Inserts x into a descending sequence after every item whose key is at least x's. */
  function Insert(x: Hit, s: seq<Hit>, key: Hit -> real): (r: seq<Hit>)
    ensures |r| == |s| + 1
    decreases |s|
  {
    if |s| == 0 || key(s[0]) < key(x) then [x] + s
    else [s[0]] + Insert(x, s[1..], key)
  }

  /** Insertion adds x and nothing else. */
  lemma {:induction false} InsertPerm(x: Hit, s: seq<Hit>, key: Hit -> real)
    ensures multiset(Insert(x, s, key)) == multiset(s) + multiset{x}
    decreases |s|
  {
    if |s| > 0 && key(s[0]) >= key(x) {
      InsertPerm(x, s[1..], key);
      assert s == [s[0]] + s[1..];
    }
  }

  /** Inserting an item no greater than b among items no greater than b keeps every key below b. */
  lemma {:induction false} InsertBound(x: Hit, s: seq<Hit>, key: Hit -> real, b: real)
    requires key(x) <= b && forall j :: 0 <= j < |s| ==> key(s[j]) <= b
    ensures forall j :: 0 <= j < |Insert(x, s, key)| ==> key(Insert(x, s, key)[j]) <= b
    decreases |s|
  {
    if |s| > 0 && key(s[0]) >= key(x) {
      InsertBound(x, s[1..], key, b);
    }
  }

  /** Insertion keeps a descending sequence descending. */
  lemma {:induction false} InsertSorted(x: Hit, s: seq<Hit>, key: Hit -> real)
    requires SortedDesc(s, key)
    ensures SortedDesc(Insert(x, s, key), key)
    decreases |s|
  {
    var r := Insert(x, s, key);
    if |s| == 0 || key(s[0]) < key(x) {
      assert r == [x] + s;
      forall i, j | 0 <= i < j < |r| ensures key(r[i]) >= key(r[j]) {
        if i == 0 {
          assert r[j] == s[j - 1];
          assert key(s[j - 1]) <= key(s[0]);
        } else {
          assert r[i] == s[i - 1] && r[j] == s[j - 1];
        }
      }
    } else {
      var rest := Insert(x, s[1..], key);
      assert r == [s[0]] + rest;
      InsertSorted(x, s[1..], key);
      InsertBound(x, s[1..], key, key(s[0]));
      forall i, j | 0 <= i < j < |r| ensures key(r[i]) >= key(r[j]) {
        if i == 0 {
          assert r[j] == rest[j - 1];
        } else {
          assert r[i] == rest[i - 1] && r[j] == rest[j - 1];
        }
      }
    }
  }

  /** Stable descending sort by key: insertion of each item, in input order. */
  function SortDesc(xs: seq<Hit>, key: Hit -> real): (r: seq<Hit>)
    ensures |r| == |xs|
    decreases |xs|
  {
    if |xs| == 0 then [] else Insert(xs[|xs| - 1], SortDesc(xs[..|xs| - 1], key), key)
  }

  /** The sort result is a permutation of its input, in descending key order. */
  lemma {:induction false} SortDescSpec(xs: seq<Hit>, key: Hit -> real)
    ensures multiset(SortDesc(xs, key)) == multiset(xs)
    ensures SortedDesc(SortDesc(xs, key), key)
    decreases |xs|
  {
    if |xs| > 0 {
      var init, last := xs[..|xs| - 1], xs[|xs| - 1];
      SortDescSpec(init, key);
      InsertPerm(last, SortDesc(init, key), key);
      InsertSorted(last, SortDesc(init, key), key);
      assert xs == init + [last];
    }
  }

  lemma {:induction false} WithKeyAppend(a: seq<Hit>, b: seq<Hit>, key: Hit -> real, v: real)
    ensures WithKey(a + b, key, v) == WithKey(a, key, v) + WithKey(b, key, v)
    decreases |a|
  {
    if |a| == 0 {
      assert a + b == b;
    } else {
      assert (a + b)[0] == a[0] && (a + b)[1..] == a[1..] + b;
      WithKeyAppend(a[1..], b, key, v);
    }
  }

  lemma {:induction false} WithKeyNone(s: seq<Hit>, key: Hit -> real, v: real)
    requires forall j :: 0 <= j < |s| ==> key(s[j]) != v
    ensures WithKey(s, key, v) == []
    decreases |s|
  {
    if |s| > 0 {
      WithKeyNone(s[1..], key, v);
    }
  }

  lemma WithKeyCons(x: Hit, s: seq<Hit>, key: Hit -> real, v: real)
    ensures WithKey([x] + s, key, v) == (if key(x) == v then [x] else []) + WithKey(s, key, v)
  {
    assert ([x] + s)[0] == x && ([x] + s)[1..] == s;
  }

  /** Inserting x keeps the items of every key in order and puts x after those with its own key. */
  lemma {:induction false} InsertStable(x: Hit, s: seq<Hit>, key: Hit -> real, v: real)
    requires SortedDesc(s, key)
    ensures WithKey(Insert(x, s, key), key, v) == WithKey(s, key, v) + (if key(x) == v then [x] else [])
    decreases |s|
  {
    var r := Insert(x, s, key);
    var tail := if key(x) == v then [x] else [];
    if |s| == 0 || key(s[0]) < key(x) {
      assert r == [x] + s;
      WithKeyCons(x, s, key, v);
      if key(x) == v {
        forall j | 0 <= j < |s| ensures key(s[j]) != v {
          assert key(s[j]) <= key(s[0]);
        }
        WithKeyNone(s, key, v);
        assert WithKey(r, key, v) == [x] + [];
        assert WithKey(s, key, v) + tail == [] + [x];
      } else {
        assert WithKey(r, key, v) == [] + WithKey(s, key, v);
      }
      assert WithKey(r, key, v) == WithKey(s, key, v) + tail;
    } else {
      var rest := Insert(x, s[1..], key);
      var head := if key(s[0]) == v then [s[0]] else [];
      assert r == [s[0]] + rest;
      WithKeyCons(s[0], rest, key, v);
      assert WithKey(r, key, v) == head + WithKey(rest, key, v);
      InsertStable(x, s[1..], key, v);
      assert WithKey(rest, key, v) == WithKey(s[1..], key, v) + tail;
      assert s == [s[0]] + s[1..];
      WithKeyCons(s[0], s[1..], key, v);
      assert WithKey(s, key, v) == head + WithKey(s[1..], key, v);
      assert WithKey(r, key, v) == WithKey(s, key, v) + tail;
    }
  }

  /** The sort is stable: for every key, the items with that key keep their input order. */
  lemma {:induction false} SortStable(xs: seq<Hit>, key: Hit -> real, v: real)
    ensures WithKey(SortDesc(xs, key), key, v) == WithKey(xs, key, v)
    decreases |xs|
  {
    if |xs| > 0 {
      var init, last := xs[..|xs| - 1], xs[|xs| - 1];
      var tail := if key(last) == v then [last] else [];
      var sorted := SortDesc(init, key);
      assert SortDesc(xs, key) == Insert(last, sorted, key);
      SortStable(init, key, v);
      SortDescSpec(init, key);
      InsertStable(last, sorted, key, v);
      assert WithKey(SortDesc(xs, key), key, v) == WithKey(init, key, v) + tail;
      assert xs == init + [last];
      WithKeyAppend(init, [last], key, v);
      WithKeyCons(last, [], key, v);
      assert [last] + [] == [last];
      assert WithKey([], key, v) == [];
      assert WithKey([last], key, v) == tail;
    }
  }

  lemma {:induction false} WithKeyWitness(s: seq<Hit>, key: Hit -> real, v: real)
    requires |WithKey(s, key, v)| > 0
    ensures exists j :: 0 <= j < |s| && key(s[j]) == v
    decreases |s|
  {
    if key(s[0]) != v {
      WithKeyCons(s[0], s[1..], key, v);
      assert s == [s[0]] + s[1..];
      WithKeyWitness(s[1..], key, v);
      var j :| 0 <= j < |s[1..]| && key(s[1..][j]) == v;
      assert key(s[j + 1]) == v;
    }
  }

  lemma WithKeyHeadNonEmpty(s: seq<Hit>, key: Hit -> real)
    requires |s| > 0
    ensures exists v :: WithKey(s, key, v) != []
  {
    WithKeyCons(s[0], s[1..], key, key(s[0]));
    assert s == [s[0]] + s[1..];
    assert WithKey(s, key, key(s[0])) != [];
  }

  /**
    Two descending sequences that agree on the items of every key are equal: a stable
    descending sort has only one possible result.
  */
  lemma {:induction false} SameFiltersSame(a: seq<Hit>, b: seq<Hit>, key: Hit -> real)
    requires SortedDesc(a, key) && SortedDesc(b, key)
    requires forall v :: WithKey(a, key, v) == WithKey(b, key, v)
    ensures a == b
    decreases |a| + |b|
  {
    if |a| == 0 && |b| == 0 {
    } else if |a| == 0 || |b| == 0 {
      WithKeyHeadNonEmpty(if |a| == 0 then b else a, key);
      assert false;
    } else {
      WithKeyCons(a[0], a[1..], key, key(a[0]));
      WithKeyCons(b[0], b[1..], key, key(b[0]));
      assert a == [a[0]] + a[1..] && b == [b[0]] + b[1..];
      WithKeyWitness(b, key, key(a[0]));
      WithKeyWitness(a, key, key(b[0]));
      assert key(a[0]) == key(b[0]);
      assert a[0] == WithKey(a, key, key(a[0]))[0] == b[0];
      forall v ensures WithKey(a[1..], key, v) == WithKey(b[1..], key, v) {
        WithKeyCons(a[0], a[1..], key, v);
        WithKeyCons(b[0], b[1..], key, v);
        var h := if key(a[0]) == v then [a[0]] else [];
        assert h + WithKey(a[1..], key, v) == h + WithKey(b[1..], key, v);
        assert WithKey(a[1..], key, v) == (h + WithKey(a[1..], key, v))[|h|..];
      }
      SameFiltersSame(a[1..], b[1..], key);
    }
  }

  /** SortDesc is Python's stable descending sort: any descending, stable rearrangement equals it. */
  lemma StableSortUnique(xs: seq<Hit>, r: seq<Hit>, key: Hit -> real)
    requires SortedDesc(r, key)
    requires forall v :: WithKey(r, key, v) == WithKey(xs, key, v)
    ensures r == SortDesc(xs, key)
  {
    SortDescSpec(xs, key);
    forall v ensures WithKey(r, key, v) == WithKey(SortDesc(xs, key), key, v) {
      SortStable(xs, key, v);
    }
    SameFiltersSame(r, SortDesc(xs, key), key);
  }

  /** Python's s[:k]: the first k items, or all but the last -k items when k is negative. */
  function Take(s: seq<Hit>, k: int): (r: seq<Hit>)
    ensures |r| <= |s| && r == s[..|r|]
    ensures k >= 0 ==> |r| == if k < |s| then k else |s|
    ensures k < 0 ==> |r| == if |s| + k > 0 then |s| + k else 0
  {
    if k >= 0 then (if k < |s| then s[..k] else s)
    else if |s| + k > 0 then s[..|s| + k] else []
  }

  /** The pool item with "rerank" set to the cross-encoder score of (question, text). */
  function WithRerank(h: Hit, question: string, sc: Scorer): Hit {
    h.(rerank := Some(sc(question, h.chunk.text)))
  }

  /** The pool after the rerank loop, or the pool itself without a reranker. */
  function Keyed(pool: seq<Hit>, question: string, reranker: Option<Scorer>): (r: seq<Hit>)
    ensures |r| == |pool|
    ensures forall i :: 0 <= i < |pool| ==> r[i].rank == pool[i].rank && r[i].score == pool[i].score && r[i].chunk == pool[i].chunk
    ensures reranker.Some? ==> forall i :: 0 <= i < |pool| ==> RerankKey(r[i]) == reranker.value(question, pool[i].chunk.text)
  {
    match reranker
    case None => pool
    case Some(sc) => seq(|pool|, i requires 0 <= i < |pool| => WithRerank(pool[i], question, sc))
  }

  function KeyOf(reranker: Option<Scorer>): Hit -> real {
    if reranker.Some? then RerankKey else ScoreKey
  }

  /** The pool in the order retrieve returns it before truncation. */
  function Ranked(pool: seq<Hit>, question: string, reranker: Option<Scorer>): seq<Hit> {
    if |pool| == 0 then [] else SortDesc(Keyed(pool, question, reranker), KeyOf(reranker))
  }

  /** retrieve: search with top_k = 50, then rank, then keep the first k. */
  function RetrieveResult(store: map<string, Stored>, encode: string -> Vector, reranker: Option<Scorer>,
                          docId: string, question: string, k: int, knn: Knn): Option<seq<Hit>> {
    match SearchResult(store, encode, docId, question, PoolSize, knn)
    case None => None
    case Some(pool) => Some(Take(Ranked(pool, question, reranker), k))
  }

  /**
    The ranked pool is a permutation of the (annotated) pool, descending by the active key,
    and items with equal keys keep their search order.
  */
  lemma RankedSpec(pool: seq<Hit>, question: string, reranker: Option<Scorer>, v: real)
    ensures multiset(Ranked(pool, question, reranker)) == multiset(Keyed(pool, question, reranker))
    ensures SortedDesc(Ranked(pool, question, reranker), KeyOf(reranker))
    ensures WithKey(Ranked(pool, question, reranker), KeyOf(reranker), v) == WithKey(Keyed(pool, question, reranker), KeyOf(reranker), v)
  {
    if |pool| > 0 {
      SortDescSpec(Keyed(pool, question, reranker), KeyOf(reranker));
      SortStable(Keyed(pool, question, reranker), KeyOf(reranker), v);
    }
  }

  /**
    For k >= 0 the answer is the first min(k, |pool|) ranked items: a prefix of a permutation
    of the pool, sorted by the active key, and no item left out outranks one kept.
  */
  lemma RetrieveSpec(store: map<string, Stored>, encode: string -> Vector, reranker: Option<Scorer>,
                     docId: string, question: string, k: int, knn: Knn)
    requires docId in store && k >= 0
    ensures var pool := SearchResult(store, encode, docId, question, PoolSize, knn).value;
      var r := RetrieveResult(store, encode, reranker, docId, question, k, knn).value;
      var ranked := Ranked(pool, question, reranker);
      && |r| == (if k < |pool| then k else |pool|)
      && r == ranked[..|r|]
      && multiset(r) <= multiset(Keyed(pool, question, reranker))
      && SortedDesc(r, KeyOf(reranker))
      && forall i, j :: 0 <= i < |r| <= j < |ranked| ==> KeyOf(reranker)(ranked[i]) >= KeyOf(reranker)(ranked[j])
  {
    var pool := SearchResult(store, encode, docId, question, PoolSize, knn).value;
    var ranked := Ranked(pool, question, reranker);
    RankedSpec(pool, question, reranker, 0.0);
    SortedPrefix(ranked, Take(ranked, k), KeyOf(reranker));
  }

  /** A prefix of a descending sequence is descending, a sub-multiset, and outranks the rest. */
  lemma SortedPrefix(s: seq<Hit>, r: seq<Hit>, key: Hit -> real)
    requires SortedDesc(s, key) && |r| <= |s| && r == s[..|r|]
    ensures SortedDesc(r, key)
    ensures multiset(r) <= multiset(s)
    ensures forall i, j :: 0 <= i < |r| <= j < |s| ==> key(s[i]) >= key(s[j])
  {
    assert s == r + s[|r|..];
    assert multiset(s) == multiset(r) + multiset(s[|r|..]);
  }

  /** An empty pool gives an empty answer, whatever k is. */
  lemma EmptyPoolEmptyAnswer(store: map<string, Stored>, encode: string -> Vector, reranker: Option<Scorer>,
                             docId: string, question: string, k: int, knn: Knn)
    requires docId in store
    requires SearchResult(store, encode, docId, question, PoolSize, knn) == Some([])
    ensures RetrieveResult(store, encode, reranker, docId, question, k, knn) == Some([])
  {
  }

  /** Search and rank are independent of k: a larger k only extends the answer. */
  lemma LargerKExtends(store: map<string, Stored>, encode: string -> Vector, reranker: Option<Scorer>,
                       docId: string, question: string, k: nat, k': nat, knn: Knn)
    requires docId in store && k <= k'
    ensures var a := RetrieveResult(store, encode, reranker, docId, question, k, knn).value;
      var b := RetrieveResult(store, encode, reranker, docId, question, k', knn).value;
      |a| <= |b| && a == b[..|a|]
  {
  }

  class Retriever {
    const index: IndexStore
    const reranker: Option<Scorer>

    /** The cross-encoder is loaded only when its import succeeded and a non-empty model name is given. */
    constructor(index: IndexStore, rerankModel: Option<string>, haveCrossEncoder: bool, load: string -> Scorer)
      ensures this.index == index
      ensures reranker.Some? <==> haveCrossEncoder && rerankModel.Some? && rerankModel.value != ""
      ensures reranker.Some? ==> reranker.value == load(rerankModel.value)
    {
      this.index := index;
      if haveCrossEncoder && rerankModel.Some? && rerankModel.value != "" {
        reranker := Some(load(rerankModel.value));
      } else {
        reranker := None;
      }
    }

    /** retrieve: the pool is annotated in place with rerank scores, then sorted, then cut to k. */
    method Retrieve(docId: string, question: string, k: int, knn: Knn) returns (r: Option<seq<Hit>>)
      requires index.Valid()
      ensures r == RetrieveResult(index.store, index.encode, reranker, docId, question, k, knn)
    {
      var prelim := index.Search(docId, question, PoolSize, knn);
      if prelim.None? {
        return None;
      }
      var pool := prelim.value;
      if |pool| == 0 {
        return Some([]);
      }
      ghost var orig := pool;
      if reranker.Some? {
        var sc := reranker.value;
        var pairs := seq(|pool|, i requires 0 <= i < |pool| => (question, pool[i].chunk.text));
        var scores := seq(|pairs|, i requires 0 <= i < |pairs| => sc(pairs[i].0, pairs[i].1));
        for i := 0 to |pool|
          invariant |pool| == |orig|
          invariant forall j :: 0 <= j < |orig| ==> pool[j] == if j < i then WithRerank(orig[j], question, sc) else orig[j]
        {
          pool := pool[i := pool[i].(rerank := Some(scores[i]))];
        }
        assert pool == Keyed(orig, question, reranker);
        pool := SortDesc(pool, RerankKey);
      } else {
        pool := SortDesc(pool, ScoreKey);
      }
      return Some(Take(pool, k));
    }
  }

  /** What pack_context reads from one chunk dict; each key may be absent. */
  datatype ContextItem = ContextItem(docId: Option<string>, pages: Option<seq<int>>, text: Option<string>)

  /** A retrieved hit carries all three keys. */
  function HitItem(h: Hit): ContextItem {
    ContextItem(Some(h.chunk.docId), Some(h.chunk.pages), Some(h.chunk.text))
  }

  /** The f-string rendering of ch.get('doc_id'): the id, or "None" when absent. */
  function DocIdText(d: Option<string>): string {
    match d
    case Some(s) => s
    case None => "None"
  }

  /** ','.join(map(str, pages)), in the stored order. */
  function PagesText(pages: seq<int>): string {
    Join(seq(|pages|, i requires 0 <= i < |pages| => IntToString(pages[i])), ",")
  }

  function Tag(c: ContextItem): string {
    "[DOC:" + DocIdText(c.docId) + " p:" + PagesText(c.pages.GetOr([])) + "]"
  }

  /** One packed entry: the tag line, then the stripped text. */
  function Entry(c: ContextItem): string {
    Tag(c) + "\n" + Strip(c.text.GetOr(""))
  }

  /** The entries of pack_context's loop, one per chunk, in order. */
  function Entries(cs: seq<ContextItem>): (r: seq<string>)
    ensures |r| == |cs|
    decreases |cs|
  {
    if |cs| == 0 then [] else Entries(cs[..|cs| - 1]) + [Entry(cs[|cs| - 1])]
  }

  /** pack_context: the entries in the given order, separated by blank lines. */
  function PackContext(cs: seq<ContextItem>): string {
    Join(Entries(cs), "\n\n")
  }

  lemma PackEmpty()
    ensures PackContext([]) == ""
  {
  }

  /** Appending a chunk appends its entry after a blank line; the first entry stands alone. */
  lemma PackAppend(cs: seq<ContextItem>, c: ContextItem)
    ensures |cs| == 0 ==> PackContext(cs + [c]) == Entry(c)
    ensures |cs| > 0 ==> PackContext(cs + [c]) == PackContext(cs) + "\n\n" + Entry(c)
  {
    assert (cs + [c])[..|cs|] == cs;
    var es := Entries(cs + [c]);
    assert es == Entries(cs) + [Entry(c)];
    assert es[..|cs|] == Entries(cs);
  }

  /** pack_context's loop: one entry appended per chunk, then the entries joined by blank lines. */
  method Pack(chunks: seq<ContextItem>) returns (r: string)
    ensures r == PackContext(chunks)
  {
    var packed: seq<string> := [];
    for i := 0 to |chunks|
      invariant packed == Entries(chunks[..i])
    {
      assert chunks[..i + 1][..i] == chunks[..i];
      packed := packed + [Entry(chunks[i])];
    }
    assert chunks[..|chunks|] == chunks;
    r := Join(packed, "\n\n");
  }

  /** A digit string and the characters of a page list contain no newline. */
  lemma PagesTextNoNewline(pages: seq<int>)
    ensures forall j :: 0 <= j < |PagesText(pages)| ==> PagesText(pages)[j] != '\n'
  {
    var parts := seq(|pages|, i requires 0 <= i < |pages| => IntToString(pages[i]));
    forall k | 0 <= k < |parts| ensures forall j :: 0 <= j < |parts[k]| ==> parts[k][j] != '\n' {
      IntToStringNoNewline(pages[k]);
    }
    JoinAvoids(parts, ",", '\n');
  }

  lemma IntToStringNoNewline(i: int)
    ensures forall j :: 0 <= j < |IntToString(i)| ==> IntToString(i)[j] != '\n'
  {
    if i < 0 {
      assert IntToString(i) == "-" + NatToString(-i);
    }
  }

  /**
    An entry can be read back: when the document id has no newline, the first newline ends
    the tag and everything after it is the stripped text.
  */
  lemma EntryReadBack(c: ContextItem)
    requires forall j :: 0 <= j < |DocIdText(c.docId)| ==> DocIdText(c.docId)[j] != '\n'
    ensures Find(Entry(c), '\n') == |Tag(c)|
    ensures Entry(c)[..|Tag(c)|] == Tag(c)
    ensures Entry(c)[|Tag(c)| + 1..] == Strip(c.text.GetOr(""))
  {
    var t := Tag(c);
    PagesTextNoNewline(c.pages.GetOr([]));
    assert forall j :: 0 <= j < |t| ==> t[j] != '\n';
    FindAfter(t, Strip(c.text.GetOr("")));
  }

  lemma FindAfter(t: string, b: string)
    requires forall j :: 0 <= j < |t| ==> t[j] != '\n'
    ensures Find(t + "\n" + b, '\n') == |t|
  {
    var s := t + "\n" + b;
    assert s[|t|] == '\n';
    assert forall j :: 0 <= j < |t| ==> s[j] != '\n';
  }

  /** Pages are printed as stored, not re-sorted. */
  lemma PagesInStoredOrder()
    ensures PagesText([3, 1]) == "3,1"
  {
    assert NatToString(3) == "3" && NatToString(1) == "1";
    assert seq(2, i requires 0 <= i < 2 => IntToString([3, 1][i])) == ["3", "1"];
    assert Join(["3", "1"], ",") == Join(["3"], ",") + "," + "1";
  }

  /** Missing keys render as "None", an empty page list and an empty body. */
  lemma MissingKeys()
    ensures Entry(ContextItem(None, None, None)) == "[DOC:None p:]\n"
  {
    assert PagesText([]) == "";
    assert Strip("") == "";
  }
}
