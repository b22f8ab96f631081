/**
  Segmentation of a PDF into Blocks (app/core/parsing.py). The PDF libraries are
  replaced by their output: per page, the text-dict blocks with their lines and
  span texts, and, separately, per page, the table grids or a failure marker.
  uuid4 is replaced by a supplied id sequence: the k-th emitted block gets ids(k).
*/
module Parsing {
  import opened Wrappers
  import opened Text

  datatype Kind = Heading | Paragraph | Table | FigureCaption

  datatype BBox = BBox(x0: real, y0: real, x1: real, y1: real)

  datatype Block = Block(
    docId: string,
    page: int,
    kind: Kind,
    text: string,
    bbox: Option<BBox>,
    sectionPath: seq<string>,
    id: string)

  /** A span's "text" entry, None when it is missing or null. */
  type Span = Option<string>

  type Line = seq<Span>

  /** One page of the text dict: its blocks, each a list of lines. */
  datatype TextPage = TextPage(blocks: seq<seq<Line>>)

  /** A table grid: rows of cells, None for an empty cell. */
  type Table = seq<seq<Option<string>>>

  /**
    What the table pass sees on one page: the tables found (an absent result is the
    empty list), an exception from extract_tables, or an exception that escapes the
    whole table pass before this page.
  */
  datatype PageTables = Tables(tables: seq<Table>) | ExtractFailed | PassAborted

  // ---------------------------------------------------------------- heading heuristic

  function HasUpper(s: string): (r: bool)
    ensures r <==> exists k :: 0 <= k < |s| && IsAsciiUpper(s[k])
    decreases |s|
  {
    if |s| == 0 then false else IsAsciiUpper(s[0]) || HasUpper(s[1..])
  }

  function NoLower(s: string): (r: bool)
    ensures r <==> forall k :: 0 <= k < |s| ==> !IsAsciiLower(s[k])
    decreases |s|
  {
    if |s| == 0 then true else !IsAsciiLower(s[0]) && NoLower(s[1..])
  }

  /** Python's str.isupper() on ASCII text: a cased character and no lower-case one. */
  function IsUpper(s: string): bool {
    HasUpper(s) && NoLower(s)
  }

  /** The single-digit numbering prefixes "1." to "9." are exactly a digit 1-9 followed by '.'. */
  lemma NumberedPrefix(s: string)
    ensures (exists i | 1 <= i < 10 :: StartsWith(s, NatToString(i) + "."))
        <==> |s| >= 2 && '1' <= s[0] <= '9' && s[1] == '.'
  {
    if |s| >= 2 && '1' <= s[0] <= '9' && s[1] == '.' {
      var i := s[0] as int - '0' as int;
      assert NatToString(i) + "." == [s[0], '.'];
      assert StartsWith(s, NatToString(i) + ".");
    }
    forall i | 1 <= i < 10 && StartsWith(s, NatToString(i) + ".")
      ensures |s| >= 2 && '1' <= s[0] <= '9' && s[1] == '.'
    {
      assert NatToString(i) + "." == [DigitChar(i), '.'];
      assert s[..2] == [DigitChar(i), '.'];
    }
  }

  /**
    _is_heading: a non-empty line of at most 80 characters after stripping that is
    upper case or starts with "1." to "9.".
  */
  function IsHeading(text: string): (r: bool)
    ensures r ==> 1 <= |Strip(text)| <= 80
    ensures r <==>
      var s := Strip(text);
      |s| <= 80 && (IsUpper(s) || (|s| >= 2 && '1' <= s[0] <= '9' && s[1] == '.'))
  {
    if |text| == 0 then
      assert Strip(text) == [];
      false
    else
      var s := Strip(text);
      NumberedPrefix(s);
      assert HasUpper(s) ==> |s| >= 1;
      |s| <= 80 && (IsUpper(s) || exists i | 1 <= i < 10 :: StartsWith(s, NatToString(i) + "."))
  }

  /** "1. Intro" is a heading by its numbering. */
  lemma HeadingExampleNumbered(s: string)
    requires s == "1. Intro"
    ensures IsHeading(s)
  {
    StripStripped(s);
    assert |s| <= 80 && '1' <= s[0] <= '9' && s[1] == '.';
  }

  /** "RESULTS" is a heading by its case. */
  lemma HeadingExampleUpper(s: string)
    requires s == "RESULTS"
    ensures IsHeading(s)
  {
    StripStripped(s);
    assert IsAsciiUpper(s[0]);
    assert HasUpper(s);
    assert IsUpper(s);
  }

  /** "Results" is mixed case and not numbered, so it is not a heading. */
  lemma HeadingExampleMixedCase(s: string)
    requires s == "Results"
    ensures !IsHeading(s)
  {
    StripStripped(s);
    assert IsAsciiLower(s[1]);
    assert !IsUpper(s);
    assert !('1' <= s[0] <= '9');
  }

  /** Blank lines and lines longer than 80 characters after stripping are never headings. */
  lemma NotHeadingWhenBlankOrLong(text: string)
    requires Strip(text) == "" || |Strip(text)| > 80
    ensures !IsHeading(text)
  {
  }

  // ---------------------------------------------------------------- line assembly

  /** A span contributes its stripped text, "" when absent. */
  function SpanText(sp: Span): string {
    Strip(sp.GetOr(""))
  }

  /** The text of a line: its stripped spans joined by single spaces, then stripped. */
  function LineText(line: Line): (r: string)
    ensures IsStripped(r)
  {
    Strip(Join(seq(|line|, k requires 0 <= k < |line| => SpanText(line[k])), " "))
  }

  // ---------------------------------------------------------------- section stack

  /** Python's s[-n:]: the last n entries, or all of them when there are fewer. */
  function LastN(s: seq<string>, n: nat): (r: seq<string>)
    ensures |r| == if |s| <= n then |s| else n
    ensures r == s[|s| - |r|..]
  {
    if |s| <= n then s else s[|s| - n..]
  }

  lemma LastNPush(h: seq<string>, t: string)
    ensures LastN(LastN(h, 3) + [t], 3) == LastN(h + [t], 3)
  {
    if |h| > 3 {
      assert LastN(h, 3) + [t] == h[|h| - 3..] + [t];
      assert (h[|h| - 3..] + [t])[1..] == h[|h| - 2..] + [t];
      assert (h + [t])[|h| + 1 - 3..] == h[|h| - 2..] + [t];
    }
  }

  /** The texts of the heading blocks, in order. */
  function HeadingTexts(bs: seq<Block>): seq<string>
    decreases |bs|
  {
    if |bs| == 0 then []
    else HeadingTexts(bs[..|bs| - 1]) + (if bs[|bs| - 1].kind == Heading then [bs[|bs| - 1].text] else [])
  }

  /** The blocks on page p, in order. */
  function OnPage(bs: seq<Block>, p: int): seq<Block>
    decreases |bs|
  {
    if |bs| == 0 then []
    else OnPage(bs[..|bs| - 1], p) + (if bs[|bs| - 1].page == p then [bs[|bs| - 1]] else [])
  }

  lemma HeadingTextsSnoc(bs: seq<Block>, b: Block)
    ensures HeadingTexts(bs + [b]) == HeadingTexts(bs) + (if b.kind == Heading then [b.text] else [])
  {
    assert (bs + [b])[..|bs|] == bs;
  }

  lemma OnPageSnoc(bs: seq<Block>, b: Block, p: int)
    ensures OnPage(bs + [b], p) == OnPage(bs, p) + (if b.page == p then [b] else [])
  {
    assert (bs + [b])[..|bs|] == bs;
  }

  lemma {:induction false} OnPageNone(bs: seq<Block>, p: int)
    requires forall k :: 0 <= k < |bs| ==> bs[k].page < p
    ensures OnPage(bs, p) == []
    decreases |bs|
  {
    if |bs| > 0 {
      OnPageNone(bs[..|bs| - 1], p);
    }
  }

  // ---------------------------------------------------------------- text pass (specification)

  /** The text pass's state inside one page: blocks so far and the section stack. */
  datatype PageState = PageState(blocks: seq<Block>, stack: seq<string>)

  /** The block LineStep emits for a non-blank line. */
  function LineBlock(docId: string, p: int, ids: nat -> string, st: PageState, t: string): Block {
    Block(docId, p, if IsHeading(t) then Heading else Paragraph, t, None, st.stack, ids(|st.blocks|))
  }

  /** One line: blank lines are skipped; a heading is pushed after its own block is emitted. */
  function LineStep(docId: string, pageNum: int, ids: nat -> string, st: PageState, line: Line): PageState {
    var t := LineText(line);
    if t == "" then st
    else PageState(st.blocks + [LineBlock(docId, pageNum, ids, st, t)], if IsHeading(t) then LastN(st.stack + [t], 3) else st.stack)
  }

  function LinesFold(docId: string, pageNum: int, ids: nat -> string, st: PageState, lines: seq<Line>): PageState
    decreases |lines|
  {
    if |lines| == 0 then st
    else LineStep(docId, pageNum, ids, LinesFold(docId, pageNum, ids, st, lines[..|lines| - 1]), lines[|lines| - 1])
  }

  function BlocksFold(docId: string, pageNum: int, ids: nat -> string, st: PageState, fblocks: seq<seq<Line>>): PageState
    decreases |fblocks|
  {
    if |fblocks| == 0 then st
    else LinesFold(docId, pageNum, ids, BlocksFold(docId, pageNum, ids, st, fblocks[..|fblocks| - 1]), fblocks[|fblocks| - 1])
  }

  lemma LinesFoldSnoc(docId: string, pageNum: int, ids: nat -> string, st: PageState, lines: seq<Line>, l: nat)
    requires l < |lines|
    ensures LinesFold(docId, pageNum, ids, st, lines[..l + 1])
         == LineStep(docId, pageNum, ids, LinesFold(docId, pageNum, ids, st, lines[..l]), lines[l])
  {
    assert lines[..l + 1][..l] == lines[..l];
  }

  /** All text blocks of the given pages; page i (0-based) is page number i + 1 and starts with an empty stack. */
  function TextPass(docId: string, ids: nat -> string, pages: seq<TextPage>): seq<Block>
    decreases |pages|
  {
    if |pages| == 0 then []
    else
      var prev := TextPass(docId, ids, pages[..|pages| - 1]);
      BlocksFold(docId, |pages|, ids, PageState(prev, []), pages[|pages| - 1].blocks).blocks
  }

  // ---------------------------------------------------------------- table pass (specification)

  function CellText(c: Option<string>): string {
    c.GetOr("")
  }

  /** A row as tab-separated cells, None rendered as "". */
  function RowText(row: seq<Option<string>>): string {
    Join(seq(|row|, k requires 0 <= k < |row| => CellText(row[k])), "\t")
  }

  /** A table as its rows joined by newlines. */
  function TableText(t: Table): string {
    Join(seq(|t|, k requires 0 <= k < |t| => RowText(t[k])), "\n")
  }

  function TablesOf(pt: PageTables): seq<Table> {
    if pt.Tables? then pt.tables else []
  }

  function TablesFold(docId: string, pageNum: int, ids: nat -> string, acc: seq<Block>, tables: seq<Table>): seq<Block>
    decreases |tables|
  {
    if |tables| == 0 then acc
    else
      var prev := TablesFold(docId, pageNum, ids, acc, tables[..|tables| - 1]);
      prev + [Block(docId, pageNum, Table, TableText(tables[|tables| - 1]), None, [], ids(|prev|))]
  }

  /** The table blocks of every given page appended to acc, page i (0-based) numbered i + 1. */
  function TablePages(docId: string, ids: nat -> string, acc: seq<Block>, tp: seq<PageTables>): seq<Block>
    decreases |tp|
  {
    if |tp| == 0 then acc
    else TablesFold(docId, |tp|, ids, TablePages(docId, ids, acc, tp[..|tp| - 1]), TablesOf(tp[|tp| - 1]))
  }

  /** The index of the first page before which the table pass aborts, or the page count. */
  function FirstAbort(tp: seq<PageTables>): (r: nat)
    ensures r <= |tp|
    ensures forall q :: 0 <= q < r ==> !tp[q].PassAborted?
    ensures r < |tp| ==> tp[r].PassAborted?
    decreases |tp|
  {
    if |tp| == 0 || tp[0].PassAborted? then 0 else 1 + FirstAbort(tp[1..])
  }

  /** The table pass: the pages before an abort contribute their tables; the rest nothing. */
  function TablePass(docId: string, ids: nat -> string, acc: seq<Block>, tp: seq<PageTables>): seq<Block> {
    TablePages(docId, ids, acc, tp[..FirstAbort(tp)])
  }

  /** parse_pdf_to_blocks: every text block of the document, then every table block. */
  function ParseSpec(docId: string, ids: nat -> string, pages: seq<TextPage>, tp: seq<PageTables>): seq<Block> {
    TablePass(docId, ids, TextPass(docId, ids, pages), tp)
  }

  // ---------------------------------------------------------------- the imperative pass

  /** parse_pdf_to_blocks over the extracted page data (the JSONL write is not modelled). */
  method ParsePdfToBlocks(docId: string, pages: seq<TextPage>, tablePages: seq<PageTables>, ids: nat -> string)
    returns (blocks: seq<Block>)
    ensures blocks == ParseSpec(docId, ids, pages, tablePages)
  {
    blocks := [];
    var i := 0;
    while i < |pages|
      invariant 0 <= i <= |pages|
      invariant blocks == TextPass(docId, ids, pages[..i])
    {
      blocks := AppendPageText(docId, i + 1, pages[i].blocks, ids, blocks);
      assert pages[..i + 1][..i] == pages[..i];
      i := i + 1;
    }
    assert pages[..i] == pages;
    blocks := AppendTables(docId, tablePages, ids, blocks);
  }

  /** The body of the page loop: one page's blocks, with the section stack reset. */
  method AppendPageText(docId: string, pageNum: int, fblocks: seq<seq<Line>>, ids: nat -> string, start: seq<Block>)
    returns (blocks: seq<Block>)
    ensures blocks == BlocksFold(docId, pageNum, ids, PageState(start, []), fblocks).blocks
  {
    blocks := start;
    var sectionStack: seq<string> := [];
    var b := 0;
    while b < |fblocks|
      invariant 0 <= b <= |fblocks|
      invariant PageState(blocks, sectionStack) == BlocksFold(docId, pageNum, ids, PageState(start, []), fblocks[..b])
    {
      blocks, sectionStack := AppendLines(docId, pageNum, fblocks[b], ids, blocks, sectionStack);
      assert fblocks[..b + 1][..b] == fblocks[..b];
      b := b + 1;
    }
    assert fblocks[..b] == fblocks;
  }

  /** The line loop of one text block: blank lines skipped, headings pushed onto the stack. */
  method AppendLines(docId: string, pageNum: int, lines: seq<Line>, ids: nat -> string, start: seq<Block>, startStack: seq<string>)
    returns (blocks: seq<Block>, sectionStack: seq<string>)
    ensures PageState(blocks, sectionStack) == LinesFold(docId, pageNum, ids, PageState(start, startStack), lines)
  {
    blocks, sectionStack := start, startStack;
    var l := 0;
    while l < |lines|
      invariant 0 <= l <= |lines|
      invariant PageState(blocks, sectionStack) == LinesFold(docId, pageNum, ids, PageState(start, startStack), lines[..l])
    {
      ghost var before := PageState(blocks, sectionStack);
      LinesFoldSnoc(docId, pageNum, ids, PageState(start, startStack), lines, l);
      ghost var next := LineStep(docId, pageNum, ids, before, lines[l]);
      assert next == LinesFold(docId, pageNum, ids, PageState(start, startStack), lines[..l + 1]);
      var lineText := LineText(lines[l]);
      if lineText != "" {
        var kind := if IsHeading(lineText) then Heading else Paragraph;
        var blk := Block(docId, pageNum, kind, lineText, None, sectionStack, ids(|blocks|));
        blocks := blocks + [blk];
        if kind == Heading {
          sectionStack := sectionStack + [lineText];
          sectionStack := LastN(sectionStack, 3);
        }
      }
      assert PageState(blocks, sectionStack) == next;
      l := l + 1;
    }
    assert lines[..l] == lines;
  }

  /** The table pass: page by page until the pass aborts, a failed page adding nothing. */
  method AppendTables(docId: string, tablePages: seq<PageTables>, ids: nat -> string, start: seq<Block>)
    returns (blocks: seq<Block>)
    ensures blocks == TablePass(docId, ids, start, tablePages)
  {
    blocks := start;
    var p := 0;
    while p < |tablePages|
      invariant 0 <= p <= |tablePages|
      invariant forall q :: 0 <= q < p ==> !tablePages[q].PassAborted?
      invariant blocks == TablePages(docId, ids, start, tablePages[..p])
    {
      var pageNum := p + 1;
      var tables: seq<Table>;
      match tablePages[p] {
        case PassAborted => break;
        case ExtractFailed => tables := [];
        case Tables(ts) => tables := ts;
      }
      ghost var pageStart := blocks;
      for t := 0 to |tables|
        invariant blocks == TablesFold(docId, pageNum, ids, pageStart, tables[..t])
      {
        var rows := seq(|tables[t]|, k requires 0 <= k < |tables[t]| => RowText(tables[t][k]));
        var text := Join(rows, "\n");
        blocks := blocks + [Block(docId, pageNum, Table, text, None, [], ids(|blocks|))];
        assert tables[..t + 1][..t] == tables[..t];
      }
      assert tables[..|tables|] == tables;
      assert tablePages[..p + 1][..p] == tablePages[..p];
      p := p + 1;
    }
    assert p == FirstAbort(tablePages);
  }

  // ---------------------------------------------------------------- properties of the text pass

  /** What every text block satisfies: its id is its position, its kind follows the heading test,
      and its section path is the last three headings before it on its page. */
  ghost predicate TextBlockOk(docId: string, ids: nat -> string, maxPage: int, bs: seq<Block>, k: nat)
    requires k < |bs|
  {
    var b := bs[k];
    && b.docId == docId && b.id == ids(k) && b.bbox.None?
    && 1 <= b.page <= maxPage
    && b.text != "" && IsStripped(b.text)
    && (b.kind == Heading || b.kind == Paragraph)
    && (b.kind == Heading <==> IsHeading(b.text))
    && b.sectionPath == LastN(HeadingTexts(OnPage(bs[..k], b.page)), 3)
  }

  ghost predicate TextBlocksOk(docId: string, ids: nat -> string, maxPage: int, bs: seq<Block>) {
    && (forall k :: 0 <= k < |bs| ==> TextBlockOk(docId, ids, maxPage, bs, k))
    && (forall j, k :: 0 <= j < k < |bs| ==> bs[j].page <= bs[k].page)
  }

  /** The state inside page p: well-formed blocks, none after p, and the stack is the last three headings of p. */
  ghost predicate PageInv(docId: string, ids: nat -> string, p: int, st: PageState) {
    && TextBlocksOk(docId, ids, p, st.blocks)
    && st.stack == LastN(HeadingTexts(OnPage(st.blocks, p)), 3)
  }

  lemma TextBlockOkSnoc(docId: string, ids: nat -> string, maxPage: int, bs: seq<Block>, b: Block, k: nat)
    requires k < |bs| && TextBlockOk(docId, ids, maxPage, bs, k)
    ensures TextBlockOk(docId, ids, maxPage, bs + [b], k)
  {
    assert (bs + [b])[..k] == bs[..k];
  }

  lemma AppendLineBlockOk(docId: string, p: int, ids: nat -> string, st: PageState, t: string)
    requires p >= 1 && PageInv(docId, ids, p, st) && t != "" && IsStripped(t)
    ensures TextBlocksOk(docId, ids, p, st.blocks + [LineBlock(docId, p, ids, st, t)])
  {
    var bs := st.blocks;
    var n := |bs|;
    var blk := LineBlock(docId, p, ids, st, t);
    var bs' := bs + [blk];
    forall k | 0 <= k < n ensures TextBlockOk(docId, ids, p, bs', k) {
      TextBlockOkSnoc(docId, ids, p, bs, blk, k);
    }
    assert bs'[..n] == bs;
    assert TextBlockOk(docId, ids, p, bs', n);
    forall j, k | 0 <= j < k < |bs'| ensures bs'[j].page <= bs'[k].page {
      if k == n {
        assert TextBlockOk(docId, ids, p, bs, j);
      }
    }
  }

  /** Emitting a block on page p pushes its text onto the last-three-headings stack exactly when it is a heading. */
  lemma PushStack(bs: seq<Block>, blk: Block, p: int, stack: seq<string>)
    requires stack == LastN(HeadingTexts(OnPage(bs, p)), 3) && blk.page == p
    ensures (if blk.kind == Heading then LastN(stack + [blk.text], 3) else stack)
         == LastN(HeadingTexts(OnPage(bs + [blk], p)), 3)
  {
    OnPageSnoc(bs, blk, p);
    HeadingTextsSnoc(OnPage(bs, p), blk);
    if blk.kind == Heading {
      LastNPush(HeadingTexts(OnPage(bs, p)), blk.text);
    }
  }

  lemma AppendLineBlockStack(docId: string, p: int, ids: nat -> string, st: PageState, t: string)
    requires st.stack == LastN(HeadingTexts(OnPage(st.blocks, p)), 3)
    ensures var bs' := st.blocks + [LineBlock(docId, p, ids, st, t)];
      (if IsHeading(t) then LastN(st.stack + [t], 3) else st.stack) == LastN(HeadingTexts(OnPage(bs', p)), 3)
  {
    var blk := LineBlock(docId, p, ids, st, t);
    assert blk.page == p && (blk.kind == Heading <==> IsHeading(t)) && blk.text == t;
    PushStack(st.blocks, blk, p, st.stack);
  }

  lemma LineStepInv(docId: string, p: int, ids: nat -> string, st: PageState, line: Line)
    requires p >= 1 && PageInv(docId, ids, p, st)
    ensures PageInv(docId, ids, p, LineStep(docId, p, ids, st, line))
  {
    var t := LineText(line);
    if t != "" {
      AppendLineBlockOk(docId, p, ids, st, t);
      AppendLineBlockStack(docId, p, ids, st, t);
    }
  }

  lemma {:induction false} LinesFoldInv(docId: string, p: int, ids: nat -> string, st: PageState, lines: seq<Line>)
    requires p >= 1 && PageInv(docId, ids, p, st)
    ensures PageInv(docId, ids, p, LinesFold(docId, p, ids, st, lines))
    decreases |lines|
  {
    if |lines| > 0 {
      LinesFoldInv(docId, p, ids, st, lines[..|lines| - 1]);
      LineStepInv(docId, p, ids, LinesFold(docId, p, ids, st, lines[..|lines| - 1]), lines[|lines| - 1]);
    }
  }

  lemma {:induction false} BlocksFoldInv(docId: string, p: int, ids: nat -> string, st: PageState, fblocks: seq<seq<Line>>)
    requires p >= 1 && PageInv(docId, ids, p, st)
    ensures PageInv(docId, ids, p, BlocksFold(docId, p, ids, st, fblocks))
    decreases |fblocks|
  {
    if |fblocks| > 0 {
      BlocksFoldInv(docId, p, ids, st, fblocks[..|fblocks| - 1]);
      LinesFoldInv(docId, p, ids, BlocksFold(docId, p, ids, st, fblocks[..|fblocks| - 1]), fblocks[|fblocks| - 1]);
    }
  }

  lemma TextBlocksOkWiden(docId: string, ids: nat -> string, p: int, q: int, bs: seq<Block>)
    requires p <= q && TextBlocksOk(docId, ids, p, bs)
    ensures TextBlocksOk(docId, ids, q, bs)
  {
    forall k | 0 <= k < |bs| ensures TextBlockOk(docId, ids, q, bs, k) {
      assert TextBlockOk(docId, ids, p, bs, k);
    }
  }

  /**
    Every text block carries its own position's id and the document id, is a non-blank stripped
    line classified by the heading test, lies on a page 1..|pages| in page order, and its section
    path is the last (up to) three headings that precede it on the same page.
  */
  lemma {:induction false} TextPassWellFormed(docId: string, ids: nat -> string, pages: seq<TextPage>)
    ensures TextBlocksOk(docId, ids, |pages|, TextPass(docId, ids, pages))
    decreases |pages|
  {
    if |pages| > 0 {
      var n := |pages|;
      var prev := TextPass(docId, ids, pages[..n - 1]);
      TextPassWellFormed(docId, ids, pages[..n - 1]);
      TextBlocksOkWiden(docId, ids, n - 1, n, prev);
      assert forall k :: 0 <= k < |prev| ==> prev[k].page < n by {
        forall k | 0 <= k < |prev| ensures prev[k].page < n {
          assert TextBlockOk(docId, ids, n - 1, prev, k);
        }
      }
      OnPageNone(prev, n);
      BlocksFoldInv(docId, n, ids, PageState(prev, []), pages[n - 1].blocks);
    }
  }

  // ---------------------------------------------------------------- where each block comes from

  /** What a block records of its origin: the page it was found on and its text. */
  datatype Place = Place(page: int, text: string)

  function Places(bs: seq<Block>): seq<Place>
    decreases |bs|
  {
    if |bs| == 0 then [] else Places(bs[..|bs| - 1]) + [Place(bs[|bs| - 1].page, bs[|bs| - 1].text)]
  }

  /** The line texts of a sequence of lines on page p that are not blank, each with p. */
  function NonBlankLines(p: int, lines: seq<Line>): seq<Place>
    decreases |lines|
  {
    if |lines| == 0 then []
    else NonBlankLines(p, lines[..|lines| - 1]) + (if LineText(lines[|lines| - 1]) == "" then [] else [Place(p, LineText(lines[|lines| - 1]))])
  }

  function PageLines(p: int, fblocks: seq<seq<Line>>): seq<Place>
    decreases |fblocks|
  {
    if |fblocks| == 0 then [] else PageLines(p, fblocks[..|fblocks| - 1]) + NonBlankLines(p, fblocks[|fblocks| - 1])
  }

  /** The non-blank line texts of the whole document in reading order, each with its 1-based page index. */
  function DocumentLines(pages: seq<TextPage>): seq<Place>
    decreases |pages|
  {
    if |pages| == 0 then [] else DocumentLines(pages[..|pages| - 1]) + PageLines(|pages|, pages[|pages| - 1].blocks)
  }

  lemma PlacesSnoc(bs: seq<Block>, b: Block)
    ensures Places(bs + [b]) == Places(bs) + [Place(b.page, b.text)]
  {
    assert (bs + [b])[..|bs|] == bs;
  }

  lemma LineStepPlaces(docId: string, p: int, ids: nat -> string, st: PageState, line: Line)
    ensures Places(LineStep(docId, p, ids, st, line).blocks)
         == Places(st.blocks) + (if LineText(line) == "" then [] else [Place(p, LineText(line))])
  {
    var t := LineText(line);
    if t != "" {
      PlacesSnoc(st.blocks, LineBlock(docId, p, ids, st, t));
    }
  }

  /** Rearranging a fold step: the new places are the old ones, then the earlier lines, then the new ones. */
  lemma AppendChain(all: seq<Place>, mid: seq<Place>, base: seq<Place>, init: seq<Place>, extra: seq<Place>, lines: seq<Place>)
    requires all == mid + extra && mid == base + init && lines == init + extra
    ensures all == base + lines
  {
  }

  lemma {:induction false} LinesFoldPlaces(docId: string, p: int, ids: nat -> string, st: PageState, lines: seq<Line>)
    ensures Places(LinesFold(docId, p, ids, st, lines).blocks) == Places(st.blocks) + NonBlankLines(p, lines)
    decreases |lines|
  {
    if |lines| > 0 {
      var init, last := lines[..|lines| - 1], lines[|lines| - 1];
      var mid := LinesFold(docId, p, ids, st, init);
      var fin := LinesFold(docId, p, ids, st, lines);
      LinesFoldPlaces(docId, p, ids, st, init);
      assert fin == LineStep(docId, p, ids, mid, last);
      LineStepPlaces(docId, p, ids, mid, last);
      var extra := if LineText(last) == "" then [] else [Place(p, LineText(last))];
      assert NonBlankLines(p, lines) == NonBlankLines(p, init) + extra;
      AppendChain(Places(fin.blocks), Places(mid.blocks), Places(st.blocks), NonBlankLines(p, init), extra, NonBlankLines(p, lines));
    }
  }

  lemma {:induction false} BlocksFoldPlaces(docId: string, p: int, ids: nat -> string, st: PageState, fblocks: seq<seq<Line>>)
    ensures Places(BlocksFold(docId, p, ids, st, fblocks).blocks) == Places(st.blocks) + PageLines(p, fblocks)
    decreases |fblocks|
  {
    if |fblocks| > 0 {
      var init, last := fblocks[..|fblocks| - 1], fblocks[|fblocks| - 1];
      var mid := BlocksFold(docId, p, ids, st, init);
      var fin := BlocksFold(docId, p, ids, st, fblocks);
      BlocksFoldPlaces(docId, p, ids, st, init);
      assert fin == LinesFold(docId, p, ids, mid, last);
      LinesFoldPlaces(docId, p, ids, mid, last);
      assert PageLines(p, fblocks) == PageLines(p, init) + NonBlankLines(p, last);
      AppendChain(Places(fin.blocks), Places(mid.blocks), Places(st.blocks), PageLines(p, init), NonBlankLines(p, last), PageLines(p, fblocks));
    }
  }

  /**
    The text blocks are exactly the document's non-blank lines in reading order, each on the
    1-based index of the page it was read from: none lost, none added, none moved.
  */
  lemma {:induction false} TextPassPlaces(docId: string, ids: nat -> string, pages: seq<TextPage>)
    ensures Places(TextPass(docId, ids, pages)) == DocumentLines(pages)
    decreases |pages|
  {
    if |pages| > 0 {
      var n := |pages|;
      TextPassPlaces(docId, ids, pages[..n - 1]);
      BlocksFoldPlaces(docId, n, ids, PageState(TextPass(docId, ids, pages[..n - 1]), []), pages[n - 1].blocks);
    }
  }

  /** The table blocks a page's tables become: page p and the TSV text of each table, in table order. */
  function TablePlaces(p: int, tables: seq<Table>): seq<Place>
    decreases |tables|
  {
    if |tables| == 0 then [] else TablePlaces(p, tables[..|tables| - 1]) + [Place(p, TableText(tables[|tables| - 1]))]
  }

  /** The table blocks of the given pages, page i (0-based) numbered i + 1. */
  function DocumentTables(tp: seq<PageTables>): seq<Place>
    decreases |tp|
  {
    if |tp| == 0 then [] else DocumentTables(tp[..|tp| - 1]) + TablePlaces(|tp|, TablesOf(tp[|tp| - 1]))
  }

  lemma {:induction false} TablesFoldPlaces(docId: string, p: int, ids: nat -> string, acc: seq<Block>, tables: seq<Table>)
    ensures Places(TablesFold(docId, p, ids, acc, tables)) == Places(acc) + TablePlaces(p, tables)
    decreases |tables|
  {
    if |tables| > 0 {
      var init, last := tables[..|tables| - 1], tables[|tables| - 1];
      var prev := TablesFold(docId, p, ids, acc, init);
      TablesFoldPlaces(docId, p, ids, acc, init);
      PlacesSnoc(prev, Block(docId, p, Table, TableText(last), None, [], ids(|prev|)));
      AppendChain(Places(TablesFold(docId, p, ids, acc, tables)), Places(prev), Places(acc),
                  TablePlaces(p, init), [Place(p, TableText(last))], TablePlaces(p, tables));
    }
  }

  lemma {:induction false} TablePagesPlaces(docId: string, ids: nat -> string, acc: seq<Block>, tp: seq<PageTables>)
    ensures Places(TablePages(docId, ids, acc, tp)) == Places(acc) + DocumentTables(tp)
    decreases |tp|
  {
    if |tp| > 0 {
      var n := |tp|;
      var prev := TablePages(docId, ids, acc, tp[..n - 1]);
      TablePagesPlaces(docId, ids, acc, tp[..n - 1]);
      TablesFoldPlaces(docId, n, ids, prev, TablesOf(tp[n - 1]));
      AppendChain(Places(TablePages(docId, ids, acc, tp)), Places(prev), Places(acc),
                  DocumentTables(tp[..n - 1]), TablePlaces(n, TablesOf(tp[n - 1])), DocumentTables(tp));
    }
  }

  /**
    Where every block of the document comes from: first each non-blank line on its page, in
    reading order, then the TSV text of each table on its page, for the pages before the table
    pass aborted, in page and table order.
  */
  lemma ParsePlaces(docId: string, ids: nat -> string, pages: seq<TextPage>, tp: seq<PageTables>)
    ensures Places(ParseSpec(docId, ids, pages, tp)) == DocumentLines(pages) + DocumentTables(tp[..FirstAbort(tp)])
  {
    TextPassPlaces(docId, ids, pages);
    TablePagesPlaces(docId, ids, TextPass(docId, ids, pages), tp[..FirstAbort(tp)]);
  }

  // ---------------------------------------------------------------- properties of the table pass

  /** A table block: its id is its position, it is a Table on a page within range, with no section path. */
  ghost predicate TableBlockOk(docId: string, ids: nat -> string, maxPage: int, bs: seq<Block>, k: nat)
    requires k < |bs|
  {
    var b := bs[k];
    b.docId == docId && b.id == ids(k) && b.kind == Table && b.sectionPath == [] && b.bbox.None?
    && 1 <= b.page <= maxPage
  }

  /** The table pass only appends: acc is kept, and every appended block is a well-formed table block. */
  ghost predicate AppendsTables(docId: string, ids: nat -> string, maxPage: int, acc: seq<Block>, bs: seq<Block>) {
    && |acc| <= |bs| && bs[..|acc|] == acc
    && (forall k :: |acc| <= k < |bs| ==> TableBlockOk(docId, ids, maxPage, bs, k))
    && (forall j, k :: |acc| <= j < k < |bs| ==> bs[j].page <= bs[k].page)
  }

  lemma {:induction false} TablesFoldAppends(docId: string, p: int, ids: nat -> string, acc0: seq<Block>, acc: seq<Block>, tables: seq<Table>)
    requires p >= 1 && AppendsTables(docId, ids, p, acc0, acc)
    ensures AppendsTables(docId, ids, p, acc0, TablesFold(docId, p, ids, acc, tables))
    ensures |TablesFold(docId, p, ids, acc, tables)| == |acc| + |tables|
    decreases |tables|
  {
    if |tables| > 0 {
      var prev := TablesFold(docId, p, ids, acc, tables[..|tables| - 1]);
      TablesFoldAppends(docId, p, ids, acc0, acc, tables[..|tables| - 1]);
      var b := Block(docId, p, Table, TableText(tables[|tables| - 1]), None, [], ids(|prev|));
      var r := prev + [b];
      assert r[..|acc0|] == prev[..|acc0|];
      forall k | |acc0| <= k < |r| ensures TableBlockOk(docId, ids, p, r, k) {
        if k < |prev| {
          assert TableBlockOk(docId, ids, p, prev, k);
        }
      }
      forall j, k | |acc0| <= j < k < |r| ensures r[j].page <= r[k].page {
        if k == |prev| {
          assert TableBlockOk(docId, ids, p, prev, j);
        }
      }
    }
  }

  lemma AppendsTablesWiden(docId: string, ids: nat -> string, p: int, q: int, acc: seq<Block>, bs: seq<Block>)
    requires p <= q && AppendsTables(docId, ids, p, acc, bs)
    ensures AppendsTables(docId, ids, q, acc, bs)
  {
    forall k | |acc| <= k < |bs| ensures TableBlockOk(docId, ids, q, bs, k) {
      assert TableBlockOk(docId, ids, p, bs, k);
    }
  }

  lemma {:induction false} TablePagesAppends(docId: string, ids: nat -> string, acc: seq<Block>, tp: seq<PageTables>)
    ensures AppendsTables(docId, ids, |tp|, acc, TablePages(docId, ids, acc, tp))
    decreases |tp|
  {
    if |tp| == 0 {
      assert acc[..|acc|] == acc;
    } else {
      var n := |tp|;
      var prev := TablePages(docId, ids, acc, tp[..n - 1]);
      TablePagesAppends(docId, ids, acc, tp[..n - 1]);
      AppendsTablesWiden(docId, ids, n - 1, n, acc, prev);
      TablesFoldAppends(docId, n, ids, acc, prev, TablesOf(tp[n - 1]));
    }
  }

  /** A table's text is its rows' tab-separated cells joined by newlines: with no tab or newline inside
      a cell, splitting the text recovers every row and every cell. */
  lemma TableTextRoundTrip(t: Table)
    requires |t| >= 1
    requires forall r :: 0 <= r < |t| ==> |t[r]| >= 1
    requires forall r, c, j :: 0 <= r < |t| && 0 <= c < |t[r]| && 0 <= j < |CellText(t[r][c])| ==>
      CellText(t[r][c])[j] != '\t' && CellText(t[r][c])[j] != '\n'
    ensures |Split(TableText(t), '\n')| == |t|
    ensures forall r :: 0 <= r < |t| ==>
      Split(Split(TableText(t), '\n')[r], '\t') == seq(|t[r]|, c requires 0 <= c < |t[r]| => CellText(t[r][c]))
  {
    var rows := seq(|t|, k requires 0 <= k < |t| => RowText(t[k]));
    forall r | 0 <= r < |t|
      ensures Split(rows[r], '\t') == seq(|t[r]|, c requires 0 <= c < |t[r]| => CellText(t[r][c]))
      ensures forall j :: 0 <= j < |rows[r]| ==> rows[r][j] != '\n'
    {
      var cells := seq(|t[r]|, c requires 0 <= c < |t[r]| => CellText(t[r][c]));
      assert rows[r] == Join(cells, "\t");
      SplitJoin(cells, '\t');
      JoinAvoids(cells, "\t", '\n');
    }
    SplitJoin(rows, '\n');
  }

  /** extract_tables failing on a page has the same effect as the page having no tables. */
  lemma ExtractFailedIsNoTables(docId: string, ids: nat -> string, acc: seq<Block>, tp: seq<PageTables>, q: nat)
    requires q < |tp| && tp[q].ExtractFailed?
    ensures TablePass(docId, ids, acc, tp) == TablePass(docId, ids, acc, tp[q := Tables([])])
  {
    var tp' := tp[q := Tables([])];
    FirstAbortReplace(tp, q, Tables([]));
    TablePagesReplace(docId, ids, acc, tp[..FirstAbort(tp)], tp'[..FirstAbort(tp')]);
  }

  lemma {:induction false} FirstAbortReplace(tp: seq<PageTables>, q: nat, v: PageTables)
    requires q < |tp| && !tp[q].PassAborted? && !v.PassAborted?
    ensures FirstAbort(tp[q := v]) == FirstAbort(tp)
    decreases |tp|
  {
    if q > 0 && !tp[0].PassAborted? {
      assert tp[q := v][1..] == tp[1..][q - 1 := v];
      FirstAbortReplace(tp[1..], q - 1, v);
    }
  }

  /** Pages whose table lists agree give the same blocks. */
  lemma {:induction false} TablePagesReplace(docId: string, ids: nat -> string, acc: seq<Block>, a: seq<PageTables>, b: seq<PageTables>)
    requires |a| == |b| && forall q :: 0 <= q < |a| ==> TablesOf(a[q]) == TablesOf(b[q])
    ensures TablePages(docId, ids, acc, a) == TablePages(docId, ids, acc, b)
    decreases |a|
  {
    if |a| > 0 {
      TablePagesReplace(docId, ids, acc, a[..|a| - 1], b[..|b| - 1]);
    }
  }

  /** Once the table pass aborts, nothing that follows matters, and what came before is kept. */
  lemma AbortIgnoresRest(docId: string, ids: nat -> string, acc: seq<Block>, before: seq<PageTables>, rest: seq<PageTables>)
    requires forall q :: 0 <= q < |before| ==> !before[q].PassAborted?
    ensures TablePass(docId, ids, acc, before + [PassAborted] + rest) == TablePages(docId, ids, acc, before)
  {
    FirstAbortPrefix(before, rest);
    assert (before + [PassAborted] + rest)[..|before|] == before;
  }

  lemma {:induction false} FirstAbortPrefix(before: seq<PageTables>, rest: seq<PageTables>)
    requires forall q :: 0 <= q < |before| ==> !before[q].PassAborted?
    ensures FirstAbort(before + [PassAborted] + rest) == |before|
    decreases |before|
  {
    if |before| > 0 {
      assert (before + [PassAborted] + rest)[1..] == before[1..] + [PassAborted] + rest;
      FirstAbortPrefix(before[1..], rest);
    }
  }

  // ---------------------------------------------------------------- the whole document

  /**
    The blocks of a document: ids(k) is the id of the k-th block; the text blocks come first,
    well formed as above and in page order; after them come only table blocks, on pages
    before the table pass aborted, in page order.
  */
  lemma ParseWellFormed(docId: string, ids: nat -> string, pages: seq<TextPage>, tp: seq<PageTables>)
    ensures var bs := ParseSpec(docId, ids, pages, tp);
      var n := |TextPass(docId, ids, pages)|;
      && n <= |bs|
      && (forall k :: 0 <= k < |bs| ==> bs[k].id == ids(k) && bs[k].docId == docId)
      && bs[..n] == TextPass(docId, ids, pages)
      && TextBlocksOk(docId, ids, |pages|, bs[..n])
      && (forall k :: n <= k < |bs| ==> TableBlockOk(docId, ids, FirstAbort(tp), bs, k))
      && (forall j, k :: n <= j < k < |bs| ==> bs[j].page <= bs[k].page)
  {
    var text := TextPass(docId, ids, pages);
    var bs := ParseSpec(docId, ids, pages, tp);
    TextPassWellFormed(docId, ids, pages);
    TablePagesAppends(docId, ids, text, tp[..FirstAbort(tp)]);
    forall k | 0 <= k < |bs| ensures bs[k].id == ids(k) && bs[k].docId == docId {
      if k < |text| {
        assert bs[k] == text[k];
        assert TextBlockOk(docId, ids, |pages|, text, k);
      } else {
        assert TableBlockOk(docId, ids, FirstAbort(tp), bs, k);
      }
    }
  }
}
