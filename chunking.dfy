/**
  Chunk assembly (app/core/chunking.py): a left-to-right pass over the blocks that
  accumulates text lines into a size-bounded chunk, flushes it when the next line does
  not fit, and turns every table block into a chunk of its own. The JSONL write is not
  modelled.
*/
module Chunking {
  import opened Text
  import opened Parsing
  import opened Wrappers

  datatype Chunk = Chunk(chunkId: string, docId: string, pages: seq<int>, text: string, blockIds: seq<string>)

  /** The id of the i-th emitted chunk: "{doc_id}:{i}". */
  function ChunkId(docId: string, i: nat): string {
    docId + ":" + NatToString(i)
  }

  /** Distinct positions give distinct chunk ids. */
  lemma ChunkIdInjective(docId: string, i: nat, j: nat)
    requires ChunkId(docId, i) == ChunkId(docId, j)
    ensures i == j
  {
    var p := docId + ":";
    assert ChunkId(docId, i)[|p|..] == NatToString(i);
    assert ChunkId(docId, j)[|p|..] == NatToString(j);
    NatToStringInjective(i, j);
  }

  // ---------------------------------------------------------------- sorted(list(pages))

  predicate IsMin(m: int, s: set<int>) {
    m in s && forall x :: x in s ==> m <= x
  }

  lemma Inhabited(s: set<int>)
    requires s != {}
    ensures exists y :: y in s
  {
    if forall y :: y !in s {
      assert false;
    }
  }

  lemma {:induction false} MinExists(s: set<int>)
    requires s != {}
    ensures exists m :: IsMin(m, s)
    decreases s
  {
    Inhabited(s);
    var y :| y in s;
    if s == {y} {
      assert IsMin(y, s);
    } else {
      var s' := s - {y};
      MinExists(s');
      var m :| IsMin(m, s');
      var w := if y < m then y else m;
      forall x | x in s ensures w <= x {
        if x != y {
          assert x in s';
        }
      }
      assert IsMin(w, s);
    }
  }

  ghost function MinOf(s: set<int>): (m: int)
    requires s != {}
    ensures IsMin(m, s)
  {
    MinExists(s);
    var m :| IsMin(m, s); m
  }

  /** Python's sorted(list(s)) for a set of page numbers: its elements in increasing order. */
  ghost function SortedPages(s: set<int>): (r: seq<int>)
    ensures |r| == |s|
    ensures forall x :: x in r <==> x in s
    ensures forall i, j :: 0 <= i < j < |r| ==> r[i] < r[j]
    decreases |s|
  {
    if s == {} then []
    else
      var m := MinOf(s);
      var rest := SortedPages(s - {m});
      assert forall x :: x in rest ==> m < x;
      [m] + rest
  }

  lemma SortedSingleton(p: int)
    ensures SortedPages({p}) == [p]
  {
    var r := SortedPages({p});
    assert r[0] in {p};
  }

  lemma MinUnique(s: set<int>, m: int)
    requires IsMin(m, s)
    ensures m == MinOf(s)
  {
    var k := MinOf(s);
    assert m <= k && k <= m;
  }

  lemma SortedPagesUnfold(r: seq<int>, s: set<int>, m: int)
    requires IsMin(m, s)
    ensures r + SortedPages(s) == (r + [m]) + SortedPages(s - {m})
  {
    MinUnique(s, m);
    var rest := SortedPages(s - {m});
    assert SortedPages(s) == [m] + rest;
    assert r + ([m] + rest) == (r + [m]) + rest;
  }

  /** The selection loop behind sorted(): repeatedly take the smallest remaining page. */
  method SortPages(s: set<int>) returns (r: seq<int>)
    ensures r == SortedPages(s)
  {
    var rest := s;
    r := [];
    while rest != {}
      invariant r + SortedPages(rest) == SortedPages(s)
      decreases |rest|
    {
      MinExists(rest);
      var m :| IsMin(m, rest);
      SortedPagesUnfold(r, rest, m);
      r := r + [m];
      rest := rest - {m};
    }
  }

  // ---------------------------------------------------------------- the pass (specification)

  /** The accumulator of chunk_blocks: chunks emitted so far and the open chunk's lines, pages and block ids. */
  datatype Acc = Acc(chunks: seq<Chunk>, lines: seq<string>, pages: set<int>, blockIds: seq<string>)

  const Empty := Acc([], [], {}, [])

  /** flush(): nothing when no line is open; otherwise the open lines become the next chunk. */
  ghost function Flushed(docId: string, a: Acc): Acc {
    if |a.lines| == 0 then a
    else Acc(a.chunks + [Chunk(ChunkId(docId, |a.chunks|), docId, SortedPages(a.pages), Join(a.lines, "\n"), a.blockIds)], [], {}, [])
  }

  /** One iteration of the block loop. */
  ghost function Step(docId: string, maxChars: int, a: Acc, b: Block): Acc {
    var txt := Strip(b.text);
    if txt == "" then a
    else if b.kind == Table then
      var f := Flushed(docId, a);
      Acc(f.chunks + [Chunk(ChunkId(docId, |f.chunks|), docId, [b.page], txt, [b.id])], f.lines, f.pages, f.blockIds)
    else
      var f := if SumLen(a.lines) + |txt| + 1 > maxChars then Flushed(docId, a) else a;
      Acc(f.chunks, f.lines + [txt], f.pages + {b.page}, f.blockIds + [b.id])
  }

  ghost function Fold(docId: string, maxChars: int, blocks: seq<Block>): Acc
    decreases |blocks|
  {
    if |blocks| == 0 then Empty
    else Step(docId, maxChars, Fold(docId, maxChars, blocks[..|blocks| - 1]), blocks[|blocks| - 1])
  }

  lemma FoldSnoc(docId: string, maxChars: int, blocks: seq<Block>, i: nat)
    requires i < |blocks|
    ensures Fold(docId, maxChars, blocks[..i + 1]) == Step(docId, maxChars, Fold(docId, maxChars, blocks[..i]), blocks[i])
  {
    assert blocks[..i + 1][..i] == blocks[..i];
  }

  /** The chunks chunk_blocks returns: the fold followed by the final flush. */
  ghost function ChunkAll(docId: string, maxChars: int, blocks: seq<Block>): seq<Chunk> {
    Flushed(docId, Fold(docId, maxChars, blocks)).chunks
  }

  // ---------------------------------------------------------------- the builder

  /** The accumulator of chunk_blocks with the flush closure as a method. */
  class ChunkBuilder {
    const docId: string
    const maxChars: int
    var chunks: seq<Chunk>
    var curText: seq<string>
    var curPages: set<int>
    var curBlocks: seq<string>

    function State(): Acc
      reads this
    {
      Acc(chunks, curText, curPages, curBlocks)
    }

    constructor(docId: string, maxChars: int)
      ensures this.docId == docId && this.maxChars == maxChars
      ensures State() == Empty
    {
      this.docId := docId;
      this.maxChars := maxChars;
      chunks, curText, curPages, curBlocks := [], [], {}, [];
    }

    method Flush()
      modifies this
      ensures State() == Flushed(docId, old(State()))
    {
      if |curText| == 0 {
        return;
      }
      var pages := SortPages(curPages);
      var chunk := Chunk(ChunkId(docId, |chunks|), docId, pages, Join(curText, "\n"), curBlocks);
      chunks := chunks + [chunk];
      curText, curPages, curBlocks := [], {}, [];
    }

    method Push(b: Block)
      modifies this
      ensures State() == Step(docId, maxChars, old(State()), b)
    {
      var txt := Strip(b.text);
      if txt == "" {
        return;
      }
      if b.kind == Table {
        Flush();
        chunks := chunks + [Chunk(ChunkId(docId, |chunks|), docId, [b.page], txt, [b.id])];
        return;
      }
      if SumLen(curText) + |txt| + 1 > maxChars {
        Flush();
      }
      curText := curText + [txt];
      curPages := curPages + {b.page};
      curBlocks := curBlocks + [b.id];
    }
  }

  /** chunk_blocks without the file write. */
  method ChunkBlocks(blocks: seq<Block>, docId: string, maxChars: int) returns (chunks: seq<Chunk>)
    ensures chunks == ChunkAll(docId, maxChars, blocks)
  {
    var builder := new ChunkBuilder(docId, maxChars);
    for i := 0 to |blocks|
      invariant builder.docId == docId && builder.maxChars == maxChars
      invariant builder.State() == Fold(docId, maxChars, blocks[..i])
    {
      FoldSnoc(docId, maxChars, blocks, i);
      builder.Push(blocks[i]);
    }
    assert blocks[..|blocks|] == blocks;
    builder.Flush();
    chunks := builder.chunks;
  }

  // ---------------------------------------------------------------- reference: chunks as groups of items

  /** What the pass reads of a block: its stripped text, whether it is a table, its page and its id. */
  datatype Item = Item(text: string, isTable: bool, page: int, id: string)

  function ItemOf(b: Block): Item {
    Item(Strip(b.text), b.kind == Table, b.page, b.id)
  }

  function Items(blocks: seq<Block>): (r: seq<Item>)
    ensures |r| == |blocks|
    decreases |blocks|
  {
    if |blocks| == 0 then [] else Items(blocks[..|blocks| - 1]) + [ItemOf(blocks[|blocks| - 1])]
  }

  function Texts(g: seq<Item>): (r: seq<string>)
    ensures |r| == |g|
    decreases |g|
  {
    if |g| == 0 then [] else Texts(g[..|g| - 1]) + [g[|g| - 1].text]
  }

  function IdsOf(g: seq<Item>): (r: seq<string>)
    ensures |r| == |g|
    decreases |g|
  {
    if |g| == 0 then [] else IdsOf(g[..|g| - 1]) + [g[|g| - 1].id]
  }

  function PageSet(g: seq<Item>): set<int>
    decreases |g|
  {
    if |g| == 0 then {} else PageSet(g[..|g| - 1]) + {g[|g| - 1].page}
  }

  lemma GroupSnoc(g: seq<Item>, x: Item)
    ensures Texts(g + [x]) == Texts(g) + [x.text]
    ensures IdsOf(g + [x]) == IdsOf(g) + [x.id]
    ensures PageSet(g + [x]) == PageSet(g) + {x.page}
  {
    assert (g + [x])[..|g|] == g;
  }

  /** The items whose text is not blank, in order. */
  function NonBlank(items: seq<Item>): seq<Item>
    decreases |items|
  {
    if |items| == 0 then []
    else NonBlank(items[..|items| - 1]) + (if items[|items| - 1].text == "" then [] else [items[|items| - 1]])
  }

  function Concat(gs: seq<seq<Item>>): seq<Item>
    decreases |gs|
  {
    if |gs| == 0 then [] else Concat(gs[..|gs| - 1]) + gs[|gs| - 1]
  }

  /** The chunk a group becomes as the i-th chunk: sorted distinct pages, lines joined by newlines, ids in order. */
  ghost function GroupChunk(docId: string, i: nat, g: seq<Item>): Chunk {
    Chunk(ChunkId(docId, i), docId, SortedPages(PageSet(g)), Join(Texts(g), "\n"), IdsOf(g))
  }

  ghost function RenderChunks(docId: string, gs: seq<seq<Item>>): (r: seq<Chunk>)
    ensures |r| == |gs|
    decreases |gs|
  {
    if |gs| == 0 then [] else RenderChunks(docId, gs[..|gs| - 1]) + [GroupChunk(docId, |gs| - 1, gs[|gs| - 1])]
  }

  lemma {:induction false} RenderChunksAt(docId: string, gs: seq<seq<Item>>, i: nat)
    requires i < |gs|
    ensures RenderChunks(docId, gs)[i] == GroupChunk(docId, i, gs[i])
    decreases |gs|
  {
    if i < |gs| - 1 {
      RenderChunksAt(docId, gs[..|gs| - 1], i);
    }
  }

  lemma RenderChunksSnoc(docId: string, gs: seq<seq<Item>>, g: seq<Item>)
    ensures RenderChunks(docId, gs + [g]) == RenderChunks(docId, gs) + [GroupChunk(docId, |gs|, g)]
  {
    assert (gs + [g])[..|gs|] == gs;
  }

  lemma SingletonGroupChunk(docId: string, i: nat, x: Item)
    ensures GroupChunk(docId, i, [x]) == Chunk(ChunkId(docId, i), docId, [x.page], x.text, [x.id])
  {
    assert [x] == [] + [x];
    GroupSnoc([], x);
    SortedSingleton(x.page);
  }

  /** The grouping pass: closed groups and the open group. */
  datatype Grouping = Grouping(closed: seq<seq<Item>>, open: seq<Item>)

  function Close(st: Grouping): Grouping {
    if |st.open| == 0 then st else Grouping(st.closed + [st.open], [])
  }

  function GroupStep(maxChars: int, st: Grouping, x: Item): Grouping {
    if x.text == "" then st
    else if x.isTable then Grouping(Close(st).closed + [[x]], [])
    else if SumLen(Texts(st.open)) + |x.text| + 1 > maxChars then Grouping(Close(st).closed, [x])
    else Grouping(st.closed, st.open + [x])
  }

  function GroupFold(maxChars: int, items: seq<Item>): Grouping
    decreases |items|
  {
    if |items| == 0 then Grouping([], [])
    else GroupStep(maxChars, GroupFold(maxChars, items[..|items| - 1]), items[|items| - 1])
  }

  /** The items of each chunk, in emission order. */
  function Groups(maxChars: int, items: seq<Item>): seq<seq<Item>> {
    Close(GroupFold(maxChars, items)).closed
  }

  /** The accumulator a grouping corresponds to. */
  ghost function Render(docId: string, st: Grouping): Acc {
    Acc(RenderChunks(docId, st.closed), Texts(st.open), PageSet(st.open), IdsOf(st.open))
  }

  lemma RenderClose(docId: string, st: Grouping)
    ensures Flushed(docId, Render(docId, st)) == Render(docId, Close(st))
  {
    if |st.open| > 0 {
      RenderChunksSnoc(docId, st.closed, st.open);
    }
  }

  lemma RenderStepTable(docId: string, st: Grouping, x: Item)
    requires x.text != "" && x.isTable
    ensures var f := Flushed(docId, Render(docId, st));
      Acc(f.chunks + [Chunk(ChunkId(docId, |f.chunks|), docId, [x.page], x.text, [x.id])], f.lines, f.pages, f.blockIds)
        == Render(docId, Grouping(Close(st).closed + [[x]], []))
  {
    var c := Close(st);
    RenderClose(docId, st);
    var f := Render(docId, c);
    assert |f.chunks| == |c.closed|;
    SingletonGroupChunk(docId, |c.closed|, x);
    RenderChunksSnoc(docId, c.closed, [x]);
  }

  lemma RenderStepOverflow(docId: string, st: Grouping, x: Item)
    ensures var f := Flushed(docId, Render(docId, st));
      Acc(f.chunks, f.lines + [x.text], f.pages + {x.page}, f.blockIds + [x.id])
        == Render(docId, Grouping(Close(st).closed, [x]))
  {
    var c := Close(st);
    RenderClose(docId, st);
    assert c.open == [];
    assert [x] == [] + [x];
    GroupSnoc([], x);
  }

  lemma RenderStepFit(docId: string, st: Grouping, x: Item)
    ensures var a := Render(docId, st);
      Acc(a.chunks, a.lines + [x.text], a.pages + {x.page}, a.blockIds + [x.id])
        == Render(docId, Grouping(st.closed, st.open + [x]))
  {
    GroupSnoc(st.open, x);
  }

  lemma RenderStep(docId: string, maxChars: int, st: Grouping, b: Block)
    ensures Step(docId, maxChars, Render(docId, st), b) == Render(docId, GroupStep(maxChars, st, ItemOf(b)))
  {
    var x := ItemOf(b);
    var a := Render(docId, st);
    assert a.lines == Texts(st.open);
    if x.text == "" {
    } else if x.isTable {
      RenderStepTable(docId, st, x);
    } else if SumLen(Texts(st.open)) + |x.text| + 1 > maxChars {
      RenderStepOverflow(docId, st, x);
    } else {
      RenderStepFit(docId, st, x);
    }
  }

  lemma {:induction false} FoldIsGrouping(docId: string, maxChars: int, blocks: seq<Block>)
    ensures Fold(docId, maxChars, blocks) == Render(docId, GroupFold(maxChars, Items(blocks)))
    decreases |blocks|
  {
    if |blocks| > 0 {
      var init := blocks[..|blocks| - 1];
      FoldIsGrouping(docId, maxChars, init);
      RenderStep(docId, maxChars, GroupFold(maxChars, Items(init)), blocks[|blocks| - 1]);
      assert Items(blocks)[..|blocks| - 1] == Items(init);
    }
  }

  lemma ChunkAllRender(docId: string, maxChars: int, blocks: seq<Block>)
    ensures ChunkAll(docId, maxChars, blocks) == RenderChunks(docId, Groups(maxChars, Items(blocks)))
  {
    FoldIsGrouping(docId, maxChars, blocks);
    RenderClose(docId, GroupFold(maxChars, Items(blocks)));
  }

  /** chunk_blocks emits, as its i-th chunk, the chunk of the i-th group of items. */
  lemma ChunksAreGroups(docId: string, maxChars: int, blocks: seq<Block>)
    ensures var gs := Groups(maxChars, Items(blocks));
      && |ChunkAll(docId, maxChars, blocks)| == |gs|
      && forall i :: 0 <= i < |gs| ==> ChunkAll(docId, maxChars, blocks)[i] == GroupChunk(docId, i, gs[i])
  {
    var gs := Groups(maxChars, Items(blocks));
    ChunkAllRender(docId, maxChars, blocks);
    forall i | 0 <= i < |gs| ensures ChunkAll(docId, maxChars, blocks)[i] == GroupChunk(docId, i, gs[i]) {
      RenderChunksAt(docId, gs, i);
    }
  }

  // ---------------------------------------------------------------- what the groups satisfy

  predicate IsTextGroup(g: seq<Item>) {
    forall k :: 0 <= k < |g| ==> !g[k].isTable
  }

  /** A group is non-empty, holds only non-blank items, and is either one table item or text items
      whose summed length is at most maxChars - 1 when there are two or more. */
  ghost predicate GroupOk(maxChars: int, g: seq<Item>) {
    && |g| >= 1
    && (forall k :: 0 <= k < |g| ==> g[k].text != "")
    && (if g[0].isTable then |g| == 1
        else IsTextGroup(g) && (|g| >= 2 ==> SumLen(Texts(g)) <= maxChars - 1))
  }

  /** A text group is closed only when the next text group's first line would not have fit. */
  ghost predicate Greedy(maxChars: int, gs: seq<seq<Item>>) {
    forall i, j :: 0 <= i < j < |gs| && j == i + 1 && IsTextGroup(gs[i]) && |gs[j]| > 0 && IsTextGroup(gs[j]) ==>
      SumLen(Texts(gs[i])) + |gs[j][0].text| + 1 > maxChars
  }

  /** The grouping state holds exactly the non-blank items read so far, in order, and is well shaped. */
  ghost predicate GroupingInv(maxChars: int, prefix: seq<Item>, st: Grouping) {
    && Concat(st.closed) + st.open == NonBlank(prefix)
    && ShapeInv(maxChars, st)
  }

  /** Closed groups are valid and greedy; the open group is a run of text items that still fits. */
  ghost predicate ShapeInv(maxChars: int, st: Grouping) {
    var c, o := st.closed, st.open;
    && (forall i :: 0 <= i < |c| ==> GroupOk(maxChars, c[i]))
    && (forall k :: 0 <= k < |o| ==> o[k].text != "")
    && IsTextGroup(o)
    && (|o| >= 2 ==> SumLen(Texts(o)) <= maxChars - 1)
    && Greedy(maxChars, c)
    && (|c| > 0 && |o| > 0 && IsTextGroup(c[|c| - 1]) ==> SumLen(Texts(c[|c| - 1])) + |o[0].text| + 1 > maxChars)
    && (|c| > 0 && |o| == 0 ==> !IsTextGroup(c[|c| - 1]))
  }

  lemma ConcatSnoc(gs: seq<seq<Item>>, g: seq<Item>)
    ensures Concat(gs + [g]) == Concat(gs) + g
  {
    assert (gs + [g])[..|gs|] == gs;
  }

  lemma NonBlankSnoc(xs: seq<Item>, x: Item)
    ensures NonBlank(xs + [x]) == NonBlank(xs) + (if x.text == "" then [] else [x])
  {
    assert (xs + [x])[..|xs|] == xs;
  }

  lemma GreedySnoc(maxChars: int, gs: seq<seq<Item>>, g: seq<Item>)
    requires Greedy(maxChars, gs)
    requires |gs| > 0 && IsTextGroup(gs[|gs| - 1]) && |g| > 0 && IsTextGroup(g) ==>
      SumLen(Texts(gs[|gs| - 1])) + |g[0].text| + 1 > maxChars
    ensures Greedy(maxChars, gs + [g])
  {
    var r := gs + [g];
    forall i, j | 0 <= i < j < |r| && j == i + 1 && IsTextGroup(r[i]) && |r[j]| > 0 && IsTextGroup(r[j])
      ensures SumLen(Texts(r[i])) + |r[j][0].text| + 1 > maxChars
    {
      if j < |gs| {
        assert r[i] == gs[i] && r[j] == gs[j];
      }
    }
  }

  /** Closing the open group keeps the content and ordering facts. */
  lemma CloseInv(maxChars: int, prefix: seq<Item>, st: Grouping)
    requires GroupingInv(maxChars, prefix, st)
    ensures var c := Close(st).closed;
      && Concat(c) == NonBlank(prefix)
      && Close(st).open == []
      && (forall i :: 0 <= i < |c| ==> GroupOk(maxChars, c[i]))
      && Greedy(maxChars, c)
      && (|st.open| > 0 ==> c[|c| - 1] == st.open)
      && (|st.open| == 0 ==> c == st.closed)
  {
    if |st.open| > 0 {
      var c, o := st.closed, st.open;
      assert Close(st).closed == c + [o];
      CloseOpen(maxChars, c, o);
    } else {
      assert Concat(st.closed) + [] == Concat(st.closed);
    }
  }

  /** A non-empty open group that satisfies the invariant's conjuncts becomes a valid closed group. */
  lemma CloseOpen(maxChars: int, c: seq<seq<Item>>, o: seq<Item>)
    requires |o| > 0
    requires forall i :: 0 <= i < |c| ==> GroupOk(maxChars, c[i])
    requires forall k :: 0 <= k < |o| ==> o[k].text != ""
    requires IsTextGroup(o)
    requires |o| >= 2 ==> SumLen(Texts(o)) <= maxChars - 1
    requires Greedy(maxChars, c)
    requires |c| > 0 && IsTextGroup(c[|c| - 1]) ==> SumLen(Texts(c[|c| - 1])) + |o[0].text| + 1 > maxChars
    ensures Concat(c + [o]) == Concat(c) + o
    ensures forall i :: 0 <= i < |c + [o]| ==> GroupOk(maxChars, (c + [o])[i])
    ensures Greedy(maxChars, c + [o])
  {
    ConcatSnoc(c, o);
    GreedySnoc(maxChars, c, o);
    assert GroupOk(maxChars, o);
    GroupsOkSnoc(maxChars, c, o);
  }

  /** The invariant for a grouping with no open group. */
  lemma ClosedOnlyInv(maxChars: int, prefix: seq<Item>, c: seq<seq<Item>>)
    requires Concat(c) == NonBlank(prefix)
    requires forall i :: 0 <= i < |c| ==> GroupOk(maxChars, c[i])
    requires Greedy(maxChars, c)
    requires |c| > 0 ==> !IsTextGroup(c[|c| - 1])
    ensures GroupingInv(maxChars, prefix, Grouping(c, []))
  {
    assert Concat(c) + [] == Concat(c);
  }

  /** A table item after closed groups becomes a closed group of its own. */
  lemma TableAfterClosedInv(maxChars: int, prefix: seq<Item>, c: seq<seq<Item>>, x: Item)
    requires Concat(c) == NonBlank(prefix)
    requires forall i :: 0 <= i < |c| ==> GroupOk(maxChars, c[i])
    requires Greedy(maxChars, c)
    requires x.text != "" && x.isTable
    ensures GroupingInv(maxChars, prefix + [x], Grouping(c + [[x]], []))
  {
    var c' := c + [[x]];
    NonBlankSnoc(prefix, x);
    ConcatSnoc(c, [x]);
    assert !IsTextGroup([x]);
    GreedySnoc(maxChars, c, [x]);
    assert GroupOk(maxChars, [x]);
    GroupsOkSnoc(maxChars, c, [x]);
    assert c'[|c'| - 1] == [x];
    ClosedOnlyInv(maxChars, prefix + [x], c');
  }

  lemma GroupTableStepInv(maxChars: int, prefix: seq<Item>, st: Grouping, x: Item)
    requires GroupingInv(maxChars, prefix, st) && x.text != "" && x.isTable
    ensures GroupingInv(maxChars, prefix + [x], GroupStep(maxChars, st, x))
  {
    CloseInv(maxChars, prefix, st);
    var c := Close(st).closed;
    TableAfterClosedInv(maxChars, prefix, c, x);
    assert GroupStep(maxChars, st, x) == Grouping(c + [[x]], []);
  }

  lemma GroupsOkSnoc(maxChars: int, c: seq<seq<Item>>, g: seq<Item>)
    requires forall i :: 0 <= i < |c| ==> GroupOk(maxChars, c[i])
    requires GroupOk(maxChars, g)
    ensures forall i :: 0 <= i < |c + [g]| ==> GroupOk(maxChars, (c + [g])[i])
  {
    forall i | 0 <= i < |c + [g]| ensures GroupOk(maxChars, (c + [g])[i]) {
      if i < |c| {
        assert (c + [g])[i] == c[i];
      }
    }
  }

  /** The invariant for a grouping whose open group is the single text item x. */
  lemma SingleOpenInv(maxChars: int, prefix: seq<Item>, c: seq<seq<Item>>, x: Item)
    requires Concat(c) + [x] == NonBlank(prefix)
    requires forall i :: 0 <= i < |c| ==> GroupOk(maxChars, c[i])
    requires x.text != "" && !x.isTable
    requires Greedy(maxChars, c)
    requires |c| > 0 && IsTextGroup(c[|c| - 1]) ==> SumLen(Texts(c[|c| - 1])) + |x.text| + 1 > maxChars
    ensures GroupingInv(maxChars, prefix, Grouping(c, [x]))
  {
    var o := [x];
    assert o[0] == x && |o| == 1;
    assert IsTextGroup(o);
    OpenInv(maxChars, prefix, c, o);
  }

  lemma GroupOverflowStepInv(maxChars: int, prefix: seq<Item>, st: Grouping, x: Item)
    requires GroupingInv(maxChars, prefix, st) && x.text != "" && !x.isTable
    requires SumLen(Texts(st.open)) + |x.text| + 1 > maxChars
    ensures GroupingInv(maxChars, prefix + [x], GroupStep(maxChars, st, x))
  {
    var c := Close(st).closed;
    assert GroupStep(maxChars, st, x) == Grouping(c, [x]);
    CloseInv(maxChars, prefix, st);
    NonBlankSnoc(prefix, x);
    assert Concat(c) + [x] == NonBlank(prefix + [x]);
    if |st.open| == 0 {
      assert c == st.closed;
      assert |c| > 0 ==> !IsTextGroup(c[|c| - 1]);
    } else {
      assert c[|c| - 1] == st.open;
    }
    SingleOpenInv(maxChars, prefix + [x], c, x);
  }

  /** The invariant assembled from its conjuncts, for closed groups c and open group o. */
  lemma OpenInv(maxChars: int, prefix: seq<Item>, c: seq<seq<Item>>, o: seq<Item>)
    requires Concat(c) + o == NonBlank(prefix)
    requires forall i :: 0 <= i < |c| ==> GroupOk(maxChars, c[i])
    requires forall k :: 0 <= k < |o| ==> o[k].text != ""
    requires IsTextGroup(o)
    requires |o| >= 2 ==> SumLen(Texts(o)) <= maxChars - 1
    requires Greedy(maxChars, c)
    requires |c| > 0 && |o| > 0 && IsTextGroup(c[|c| - 1]) ==> SumLen(Texts(c[|c| - 1])) + |o[0].text| + 1 > maxChars
    requires |c| > 0 && |o| == 0 ==> !IsTextGroup(c[|c| - 1])
    ensures GroupingInv(maxChars, prefix, Grouping(c, o))
  {
  }

  /** Appending a text item that fits keeps the open group's items non-blank text and its summed
      length within maxChars - 1. */
  lemma OpenFitItems(maxChars: int, o: seq<Item>, x: Item)
    requires forall k :: 0 <= k < |o| ==> o[k].text != ""
    requires IsTextGroup(o)
    requires x.text != "" && !x.isTable
    requires SumLen(Texts(o)) + |x.text| + 1 <= maxChars
    ensures forall k :: 0 <= k < |o + [x]| ==> (o + [x])[k].text != ""
    ensures IsTextGroup(o + [x])
    ensures SumLen(Texts(o + [x])) <= maxChars - 1
  {
    var o' := o + [x];
    forall k | 0 <= k < |o'| ensures o'[k].text != "" && !o'[k].isTable {
      if k < |o| {
        assert o'[k] == o[k];
      }
    }
    GroupSnoc(o, x);
    SumLenAppend(Texts(o), x.text);
  }

  lemma GroupFitStepInv(maxChars: int, prefix: seq<Item>, st: Grouping, x: Item)
    requires GroupingInv(maxChars, prefix, st) && x.text != "" && !x.isTable
    requires SumLen(Texts(st.open)) + |x.text| + 1 <= maxChars
    ensures GroupingInv(maxChars, prefix + [x], GroupStep(maxChars, st, x))
  {
    var c, o := st.closed, st.open;
    var o' := o + [x];
    assert GroupStep(maxChars, st, x) == Grouping(c, o');
    NonBlankSnoc(prefix, x);
    assert Concat(c) + o' == NonBlank(prefix + [x]);
    OpenFitItems(maxChars, o, x);
    assert |c| > 0 && IsTextGroup(c[|c| - 1]) ==> SumLen(Texts(c[|c| - 1])) + |o'[0].text| + 1 > maxChars by {
      if |o| == 0 && |c| > 0 {
        assert !IsTextGroup(c[|c| - 1]);
      } else if |o| > 0 {
        assert o'[0] == o[0];
      }
    }
    OpenInv(maxChars, prefix + [x], c, o');
  }

  lemma GroupStepInv(maxChars: int, prefix: seq<Item>, st: Grouping, x: Item)
    requires GroupingInv(maxChars, prefix, st)
    ensures GroupingInv(maxChars, prefix + [x], GroupStep(maxChars, st, x))
  {
    if x.text == "" {
      NonBlankSnoc(prefix, x);
    } else if x.isTable {
      GroupTableStepInv(maxChars, prefix, st, x);
    } else if SumLen(Texts(st.open)) + |x.text| + 1 > maxChars {
      GroupOverflowStepInv(maxChars, prefix, st, x);
    } else {
      GroupFitStepInv(maxChars, prefix, st, x);
    }
  }

  lemma {:induction false} GroupFoldInv(maxChars: int, items: seq<Item>)
    ensures GroupingInv(maxChars, items, GroupFold(maxChars, items))
    decreases |items|
  {
    if |items| > 0 {
      var init, last := items[..|items| - 1], items[|items| - 1];
      assert init + [last] == items;
      GroupFoldInv(maxChars, init);
      GroupStepInv(maxChars, init, GroupFold(maxChars, init), last);
    }
  }

  /**
    The groups partition the non-blank items in order; each is one table item or a run of text
    items within the size bound; and a text run ends only where the next text item did not fit.
  */
  lemma GroupsSpec(maxChars: int, items: seq<Item>)
    ensures var gs := Groups(maxChars, items);
      && Concat(gs) == NonBlank(items)
      && (forall i :: 0 <= i < |gs| ==> GroupOk(maxChars, gs[i]))
      && Greedy(maxChars, gs)
  {
    GroupFoldInv(maxChars, items);
    CloseInv(maxChars, items, GroupFold(maxChars, items));
  }

  /** Blank items are skipped outright: the groups depend only on the non-blank items. */
  lemma {:induction false} BlankItemsIgnored(maxChars: int, items: seq<Item>)
    ensures GroupFold(maxChars, items) == GroupFold(maxChars, NonBlank(items))
    decreases |items|
  {
    if |items| > 0 {
      var init := items[..|items| - 1];
      var x := items[|items| - 1];
      BlankItemsIgnored(maxChars, init);
      assert init + [x] == items;
      NonBlankSnoc(init, x);
      var nb := NonBlank(init);
      assert GroupFold(maxChars, items) == GroupStep(maxChars, GroupFold(maxChars, init), x);
      if x.text != "" {
        assert NonBlank(items) == nb + [x];
        assert (nb + [x])[..|nb|] == nb;
        assert GroupFold(maxChars, nb + [x]) == GroupStep(maxChars, GroupFold(maxChars, nb), x);
      } else {
        assert NonBlank(items) == nb;
      }
    }
  }

  // ---------------------------------------------------------------- what the chunks satisfy

  lemma {:induction false} SumLenAtLeast(parts: seq<string>, k: nat)
    requires k < |parts|
    ensures SumLen(parts) >= |parts[k]|
    decreases |parts|
  {
    if k < |parts| - 1 {
      SumLenAtLeast(parts[..|parts| - 1], k);
    }
  }

  lemma {:induction false} TextsAt(g: seq<Item>, k: nat)
    requires k < |g|
    ensures Texts(g)[k] == g[k].text
    decreases |g|
  {
    if k < |g| - 1 {
      TextsAt(g[..|g| - 1], k);
    }
  }

  lemma {:induction false} PageSetHas(g: seq<Item>, k: nat)
    requires k < |g|
    ensures g[k].page in PageSet(g)
    decreases |g|
  {
    if k < |g| - 1 {
      PageSetHas(g[..|g| - 1], k);
    }
  }

  lemma {:induction false} IdsOfAppend(x: seq<Item>, y: seq<Item>)
    ensures IdsOf(x + y) == IdsOf(x) + IdsOf(y)
    decreases |y|
  {
    if |y| == 0 {
      assert x + y == x;
    } else {
      var y' := y[..|y| - 1];
      var last := y[|y| - 1];
      IdsOfAppend(x, y');
      var z := x + y';
      assert x + y == z + [last];
      assert y == y' + [last];
      calc {
        IdsOf(x + y);
        IdsOf(z + [last]);
        { GroupSnoc(z, last); }
        IdsOf(z) + [last.id];
        IdsOf(x) + IdsOf(y') + [last.id];
        { GroupSnoc(y', last); }
        IdsOf(x) + IdsOf(y);
      }
    }
  }

  /** Every chunk has non-empty text, at least one page in increasing order, and one id per item;
      a chunk of two or more lines is at most maxChars - 1 characters plus its separators. */
  lemma GroupChunkShape(docId: string, maxChars: int, i: nat, g: seq<Item>)
    requires GroupOk(maxChars, g)
    ensures var c := GroupChunk(docId, i, g);
      && c.text != "" && |c.pages| >= 1 && |c.blockIds| == |g|
      && (forall j, k :: 0 <= j < k < |c.pages| ==> c.pages[j] < c.pages[k])
      && (|g| >= 2 ==> |c.text| <= maxChars + |g| - 2)
  {
    var t := Texts(g);
    JoinLength(t, "\n");
    TextsAt(g, 0);
    SumLenAtLeast(t, 0);
    PageSetHas(g, 0);
  }

  /** An item whose text alone reaches maxChars is a group of its own. */
  lemma OversizeAlone(maxChars: int, g: seq<Item>, k: nat)
    requires GroupOk(maxChars, g) && k < |g| && |g[k].text| >= maxChars
    ensures |g| == 1
  {
    if |g| >= 2 {
      TextsAt(g, k);
      SumLenAtLeast(Texts(g), k);
      assert false;
    }
  }

  function AllBlockIds(cs: seq<Chunk>): seq<string>
    decreases |cs|
  {
    if |cs| == 0 then [] else AllBlockIds(cs[..|cs| - 1]) + cs[|cs| - 1].blockIds
  }

  lemma {:induction false} AllBlockIdsRender(docId: string, gs: seq<seq<Item>>)
    ensures AllBlockIds(RenderChunks(docId, gs)) == IdsOf(Concat(gs))
    decreases |gs|
  {
    if |gs| > 0 {
      var init := gs[..|gs| - 1];
      AllBlockIdsRender(docId, init);
      IdsOfAppend(Concat(init), gs[|gs| - 1]);
    }
  }

  /** The block ids of all chunks, in order, are exactly the ids of the non-blank blocks, in order. */
  lemma ChunkBlockIdsCover(docId: string, maxChars: int, blocks: seq<Block>)
    ensures AllBlockIds(ChunkAll(docId, maxChars, blocks)) == IdsOf(NonBlank(Items(blocks)))
  {
    GroupsSpec(maxChars, Items(blocks));
    ChunkAllRender(docId, maxChars, blocks);
    AllBlockIdsRender(docId, Groups(maxChars, Items(blocks)));
  }

  /**
    The i-th chunk has id "{doc_id}:i", non-empty text, at least one page in increasing order and
    at least one block id; with two or more blocks its text is within the size bound plus separators.
  */
  lemma ChunkShapes(docId: string, maxChars: int, blocks: seq<Block>)
    ensures var cs := ChunkAll(docId, maxChars, blocks);
      forall i :: 0 <= i < |cs| ==>
        && cs[i].chunkId == ChunkId(docId, i) && cs[i].docId == docId
        && cs[i].text != "" && |cs[i].pages| >= 1 && |cs[i].blockIds| >= 1
        && (forall j, k :: 0 <= j < k < |cs[i].pages| ==> cs[i].pages[j] < cs[i].pages[k])
        && (|cs[i].blockIds| >= 2 ==> |cs[i].text| <= maxChars + |cs[i].blockIds| - 2)
  {
    var gs := Groups(maxChars, Items(blocks));
    var cs := ChunkAll(docId, maxChars, blocks);
    GroupsSpec(maxChars, Items(blocks));
    ChunksAreGroups(docId, maxChars, blocks);
    forall i | 0 <= i < |cs|
      ensures && cs[i].chunkId == ChunkId(docId, i) && cs[i].docId == docId
        && cs[i].text != "" && |cs[i].pages| >= 1 && |cs[i].blockIds| >= 1
        && (forall j, k :: 0 <= j < k < |cs[i].pages| ==> cs[i].pages[j] < cs[i].pages[k])
        && (|cs[i].blockIds| >= 2 ==> |cs[i].text| <= maxChars + |cs[i].blockIds| - 2)
    {
      assert cs[i] == GroupChunk(docId, i, gs[i]);
      GroupChunkShape(docId, maxChars, i, gs[i]);
    }
  }

  /** A table item, or one whose text alone reaches maxChars, is the only member of its group. */
  lemma LoneItemGroup(maxChars: int, g: seq<Item>, k: nat)
    requires GroupOk(maxChars, g) && k < |g| && (g[k].isTable || |g[k].text| >= maxChars)
    ensures g == [g[k]]
  {
    if g[0].isTable {
      assert |g| == 1;
    } else if g[k].isTable {
      assert false;
    } else {
      OversizeAlone(maxChars, g, k);
    }
  }

  /** A table block, or a block whose stripped text alone reaches maxChars, is a chunk of its own:
      its page, its stripped text, its id. */
  lemma ChunkOfLoneItem(docId: string, maxChars: int, blocks: seq<Block>, i: nat, k: nat)
    requires i < |Groups(maxChars, Items(blocks))| && k < |Groups(maxChars, Items(blocks))[i]|
    requires var x := Groups(maxChars, Items(blocks))[i][k]; x.isTable || |x.text| >= maxChars
    ensures var x := Groups(maxChars, Items(blocks))[i][k];
      |ChunkAll(docId, maxChars, blocks)| == |Groups(maxChars, Items(blocks))| &&
      ChunkAll(docId, maxChars, blocks)[i] == Chunk(ChunkId(docId, i), docId, [x.page], x.text, [x.id])
  {
    var gs := Groups(maxChars, Items(blocks));
    GroupsSpec(maxChars, Items(blocks));
    ChunksAreGroups(docId, maxChars, blocks);
    LoneItemGroup(maxChars, gs[i], k);
    SingletonGroupChunk(docId, i, gs[i][k]);
  }

  lemma ItemsOfThree(b: Block)
    ensures Items([b, b, b]) == [ItemOf(b), ItemOf(b), ItemOf(b)]
  {
    var x := ItemOf(b);
    assert [b, b][..1] == [b];
    assert Items([b]) == [x];
    assert Items([b, b]) == [x, x];
    assert [b, b, b][..2] == [b, b];
  }

  lemma ThreeShortLinesOneGroup(x: Item)
    requires x == Item("a", false, 1, "b1")
    ensures Groups(4, [x, x, x]) == [[x, x, x]]
    ensures Texts([x, x, x]) == ["a", "a", "a"]
  {
    assert GroupFold(4, [x]) == Grouping([], [x]);
    assert [x, x][..1] == [x];
    assert Texts([x, x]) == ["a", "a"];
    assert GroupFold(4, [x, x]) == Grouping([], [x, x]);
    assert [x, x, x][..2] == [x, x];
    assert GroupFold(4, [x, x, x]) == Grouping([], [x, x, x]);
  }

  lemma JoinThreeLines()
    ensures Join(["a", "a", "a"], "\n") == "a\na\na"
  {
    assert ["a", "a", "a"][..2] == ["a", "a"];
    assert ["a", "a"][..1] == ["a"];
  }

  /** A chunk's text is bounded by the summed line lengths, not its joined length: three one-character
      lines fill a chunk of maxChars 4 although the text is five characters long. */
  lemma TextMayExceedMaxChars()
    ensures var b := Block("d", 1, Paragraph, "a", None, [], "b1");
      var cs := ChunkAll("d", 4, [b, b, b]);
      |cs| == 1 && cs[0].text == "a\na\na" && |cs[0].text| > 4
  {
    var b := Block("d", 1, Paragraph, "a", None, [], "b1");
    StripStripped("a");
    var x := ItemOf(b);
    assert x == Item("a", false, 1, "b1");
    ItemsOfThree(b);
    ThreeShortLinesOneGroup(x);
    ChunksAreGroups("d", 4, [b, b, b]);
    JoinThreeLines();
    var cs := ChunkAll("d", 4, [b, b, b]);
    assert cs[0] == GroupChunk("d", 0, [x, x, x]);
  }
}
