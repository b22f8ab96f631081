/**
  Tolerant JSON location for model output and the extraction route (app/routes/extract.py).
  json.loads is the parameter parse, a partial function from text to a JSON value; the
  retrieval, the LLM reply and the validation of the decoded value come from the other
  modules.
*/
module Extract {
  import opened Wrappers
  import opened Text
  import opened Schemas
  import opened Embed
  import opened Retrieve

  // ---------------------------------------------------------------------------------------
  // Code fences
  // ---------------------------------------------------------------------------------------

  const Fence := "```"

  /** Whether t starts with "json" in any letter case. */
  predicate JsonTag(t: string) {
    |t| >= 4 && LowerAscii(t[0]) == 'j' && LowerAscii(t[1]) == 's' && LowerAscii(t[2]) == 'o' && LowerAscii(t[3]) == 'n'
  }

  /** The leading pattern ^\s*```(?:json)?\s* on stripped text: the fence, an optional tag, then whitespace. */
  function DropLeadingFence(s: string): (r: string)
    ensures |r| <= |s|
    ensures !StartsWith(s, Fence) ==> r == s
  {
    if StartsWith(s, Fence) then
      var rest := s[3..];
      TrimStart(if JsonTag(rest) then rest[4..] else rest)
    else s
  }

  /** The trailing pattern \s*```\s*$ on text with no trailing whitespace: the fence and the whitespace before it. */
  function DropTrailingFence(s: string): (r: string)
    ensures |r| <= |s|
    ensures !EndsWith(s, Fence) ==> r == s
  {
    if EndsWith(s, Fence) then TrimEnd(s[..|s| - 3]) else s
  }

  /** _strip_code_fences. */
  function StripCodeFences(s: string): (r: string)
    ensures IsStripped(r)
    ensures |r| <= |s|
  {
    Strip(DropTrailingFence(DropLeadingFence(Strip(s))))
  }

  lemma IsStrippedStrip(s: string)
    ensures IsStripped(Strip(s))
  {
  }

  /** Removing the opening fence, a json tag in any case, and the newline after it. */
  lemma LeadingFenceDropped(tag: string, body: string)
    requires tag == "" || (|tag| == 4 && JsonTag(tag))
    requires |body| > 0 && !IsSpace(body[0])
    ensures DropLeadingFence(Fence + tag + "\n" + body) == body
  {
    var s := Fence + tag + "\n" + body;
    assert StartsWith(s, Fence);
    var rest := s[3..];
    assert rest == tag + "\n" + body;
    if tag == "" {
      assert rest[0] == '\n';
      assert !JsonTag(rest);
      assert rest == "\n" + body;
    } else {
      assert rest[..4] == tag;
      assert JsonTag(rest);
      assert rest[4..] == "\n" + body;
    }
    TrimStartSpaces("\n", body);
    TrimStartNoSpace(body);
  }

  /** Any other tag stays: only the fence is removed. */
  lemma LeadingFenceKeepsTag(rest: string)
    requires |rest| > 0 && !IsSpace(rest[0]) && !JsonTag(rest)
    ensures DropLeadingFence(Fence + rest) == rest
  {
    var s := Fence + rest;
    assert StartsWith(s, Fence) && s[3..] == rest;
    TrimStartNoSpace(rest);
  }

  /** Removing the closing fence and the newline before it. */
  lemma TrailingFenceDropped(body: string)
    requires |body| > 0 && !IsSpace(body[|body| - 1])
    ensures DropTrailingFence(body + "\n" + Fence) == body
  {
    var s := body + "\n" + Fence;
    assert EndsWith(s, Fence);
    assert s[..|s| - 3] == body + "\n";
    TrimEndSpaces(body, "\n");
    TrimEndNoSpace(body);
  }

  /** A stripped body fenced with ``` or ```json (any case) and newlines comes back as is. */
  lemma FencedRoundTrip(tag: string, body: string)
    requires tag == "" || (|tag| == 4 && JsonTag(tag))
    requires |body| > 0 && IsStripped(body)
    ensures StripCodeFences(Fence + tag + "\n" + body + "\n" + Fence) == body
  {
    var s := Fence + tag + "\n" + body + "\n" + Fence;
    assert s[0] == '`' && s[|s| - 1] == '`';
    StripStripped(s);
    var u := body + "\n" + Fence;
    assert s == Fence + tag + "\n" + u;
    LeadingFenceDropped(tag, u);
    TrailingFenceDropped(body);
    StripStripped(body);
  }

  /** The tag is matched in any case. */
  lemma UpperCaseTag()
    ensures StripCodeFences(Fence + "JSON" + "\n" + "{}" + "\n" + Fence) == "{}"
  {
    FencedRoundTrip("JSON", "{}");
  }

  /** A fenced stripped body that does not open with a json tag keeps all of its text, tag included. */
  lemma OtherTagRoundTrip(body: string)
    requires |body| > 0 && IsStripped(body) && LowerAscii(body[0]) != 'j'
    ensures StripCodeFences(Fence + body + "\n" + Fence) == body
  {
    var u := body + "\n" + Fence;
    var s := Fence + body + "\n" + Fence;
    assert s == Fence + u;
    assert s[0] == '`' && s[|s| - 1] == '`';
    StripStripped(s);
    assert Strip(s) == s;
    assert u[0] == body[0];
    assert !JsonTag(u);
    LeadingFenceKeepsTag(u);
    assert DropLeadingFence(s) == u;
    TrailingFenceDropped(body);
    assert DropTrailingFence(u) == body;
    StripStripped(body);
  }

  /** Any other tag, such as python, stays in the text. */
  lemma OtherTagKept()
    ensures StripCodeFences(Fence + "python\nx = 1" + "\n" + Fence) == "python\nx = 1"
  {
    var body := "python\nx = 1";
    assert body[0] == 'p' && body[|body| - 1] == '1';
    OtherTagRoundTrip(body);
  }

  /** Text with no fence at either end is only stripped. */
  lemma UnfencedOnlyStripped(s: string)
    requires !StartsWith(Strip(s), Fence) && !EndsWith(Strip(s), Fence)
    ensures StripCodeFences(s) == Strip(s)
  {
    IsStrippedStrip(s);
    StripStripped(Strip(s));
  }

  // ---------------------------------------------------------------------------------------
  // The balanced-brace scanner
  // ---------------------------------------------------------------------------------------

  /** The scanner's variables after a prefix: depth, start, and the spans yielded so far. */
  datatype Span = Span(first: nat, last: nat)

  datatype ScanState = ScanState(depth: nat, start: Option<nat>, spans: seq<Span>)

  /** One character of the scan at index i. */
  function ScanStep(st: ScanState, i: nat, c: char): ScanState {
    if c == '{' then
      ScanState(st.depth + 1, if st.depth == 0 then Some(i) else st.start, st.spans)
    else if c == '}' && st.depth > 0 then
      var d := st.depth - 1;
      ScanState(d, st.start, if d == 0 && st.start.Some? then st.spans + [Span(st.start.value, i)] else st.spans)
    else st
  }

  /** The scan of a whole string, one character at a time from the left. */
  function Scan(s: string): ScanState
    decreases |s|
  {
    if |s| == 0 then ScanState(0, None, [])
    else ScanStep(Scan(s[..|s| - 1]), |s| - 1, s[|s| - 1])
  }

  function SpanText(s: string, sp: Span): string {
    if sp.first <= sp.last < |s| then s[sp.first..sp.last + 1] else ""
  }

  /** What _extract_first_balanced_json yields, in order. */
  function Candidates(s: string): seq<string> {
    var spans := Scan(s).spans;
    seq(|spans|, k requires 0 <= k < |spans| => SpanText(s, spans[k]))
  }

  /** Opening braces minus closing braces. */
  function Balance(s: string): int {
    Count('{', s) - Count('}', s)
  }

  lemma BalanceSnoc(s: string, a: nat, m: nat)
    requires a <= m < |s|
    ensures Balance(s[a..m + 1]) == Balance(s[a..m]) + (if s[m] == '{' then 1 else if s[m] == '}' then -1 else 0)
  {
    CountSnoc('{', s, a, m);
    CountSnoc('}', s, a, m);
  }

  /** A balanced object from a to b: opens at a, first returns to balance 0 at b. */
  ghost predicate Balanced(s: string, a: nat, b: nat) {
    && a < b < |s| && s[a] == '{' && s[b] == '}'
    && Balance(s[a..b + 1]) == 0
    && forall m :: a < m <= b ==> Balance(s[a..m]) > 0
  }

  /** What holds of the scan after the first n characters of s. */
  ghost predicate ScanOk(s: string, n: nat, st: ScanState) {
    && n <= |s|
    && (st.depth > 0 ==>
          && st.start.Some? && st.start.value < n && s[st.start.value] == '{'
          && Balance(s[st.start.value..n]) == st.depth
          && (forall m :: st.start.value < m <= n ==> Balance(s[st.start.value..m]) > 0)
          && (|st.spans| > 0 ==> st.spans[|st.spans| - 1].last < st.start.value))
    && SpansOk(s, n, st.spans)
  }

  /** Spans closed within the first n characters: each balanced, disjoint, in order. */
  ghost predicate SpansOk(s: string, n: nat, spans: seq<Span>) {
    && (forall k :: 0 <= k < |spans| ==> Balanced(s, spans[k].first, spans[k].last) && spans[k].last < n)
    && (forall k, k' :: 0 <= k < k' < |spans| ==> spans[k].last < spans[k'].first)
  }

  lemma SpansWiden(s: string, n: nat, spans: seq<Span>)
    requires SpansOk(s, n, spans)
    ensures SpansOk(s, n + 1, spans)
  {
  }

  lemma SpansSnoc(s: string, n: nat, spans: seq<Span>, a: nat)
    requires SpansOk(s, n, spans) && Balanced(s, a, n)
    requires |spans| > 0 ==> spans[|spans| - 1].last < a
    ensures SpansOk(s, n + 1, spans + [Span(a, n)])
  {
    var r := spans + [Span(a, n)];
    forall k, k' | 0 <= k < k' < |r| ensures r[k].last < r[k'].first {
      if k' == |spans| {
        assert r[k].last <= spans[|spans| - 1].last;
      }
    }
  }

  lemma ScanPrefix(s: string, n: nat)
    requires n < |s|
    ensures Scan(s[..n + 1]) == ScanStep(Scan(s[..n]), n, s[n])
  {
    assert s[..n + 1][..n] == s[..n];
  }

  lemma OpenStepOk(s: string, n: nat, st: ScanState)
    requires n < |s| && s[n] == '{' && ScanOk(s, n, st)
    ensures ScanOk(s, n + 1, ScanStep(st, n, s[n]))
  {
    var st' := ScanStep(st, n, s[n]);
    var a := st'.start.value;
    SpansWiden(s, n, st.spans);
    if st.depth == 0 {
      BalanceSnoc(s, a, n);
      assert s[a..n] == [];
    } else {
      BalanceSnoc(s, a, n);
    }
  }

  lemma CloseStepOk(s: string, n: nat, st: ScanState)
    requires n < |s| && s[n] == '}' && st.depth > 0 && ScanOk(s, n, st)
    ensures ScanOk(s, n + 1, ScanStep(st, n, s[n]))
  {
    var a := st.start.value;
    var st' := ScanStep(st, n, s[n]);
    BalanceSnoc(s, a, n);
    if st.depth == 1 {
      assert Balanced(s, a, n);
      assert st' == ScanState(0, st.start, st.spans + [Span(a, n)]);
      SpansSnoc(s, n, st.spans, a);
    } else {
      assert st' == ScanState(st.depth - 1, st.start, st.spans);
      SpansWiden(s, n, st.spans);
      assert Balance(s[a..n + 1]) == st.depth - 1;
    }
  }

  lemma OtherStepOk(s: string, n: nat, st: ScanState)
    requires n < |s| && s[n] != '{' && (s[n] != '}' || st.depth == 0) && ScanOk(s, n, st)
    ensures ScanOk(s, n + 1, ScanStep(st, n, s[n]))
  {
    SpansWiden(s, n, st.spans);
    if st.depth > 0 {
      BalanceSnoc(s, st.start.value, n);
    }
  }

  /** One scan step keeps the invariant, whatever the character. */
  lemma StepOk(s: string, n: nat, st: ScanState)
    requires n < |s| && ScanOk(s, n, st)
    ensures ScanOk(s, n + 1, ScanStep(st, n, s[n]))
  {
    if s[n] == '{' {
      OpenStepOk(s, n, st);
    } else if s[n] == '}' && st.depth > 0 {
      CloseStepOk(s, n, st);
    } else {
      OtherStepOk(s, n, st);
    }
  }

  /** The scan invariant holds after every prefix. */
  lemma {:induction false} ScanInv(s: string, n: nat)
    requires n <= |s|
    ensures ScanOk(s, n, Scan(s[..n]))
    decreases n
  {
    if n == 0 {
      assert s[..0] == [];
    } else {
      var st := Scan(s[..n - 1]);
      ScanInv(s, n - 1);
      ScanPrefix(s, n - 1);
      StepOk(s, n - 1, st);
    }
  }

  /**
    Every candidate opens with "{", closes with the "}" that first brings the count back to
    zero, and has as many of each; candidates are disjoint and in order of appearance.
  */
  lemma CandidatesSpec(s: string)
    ensures var spans := Scan(s).spans;
      && |Candidates(s)| == |spans|
      && (forall k :: 0 <= k < |spans| ==>
            && Balanced(s, spans[k].first, spans[k].last)
            && Candidates(s)[k] == s[spans[k].first..spans[k].last + 1])
      && (forall k, k' :: 0 <= k < k' < |spans| ==> spans[k].last < spans[k'].first)
  {
    ScanInv(s, |s|);
    assert s[..|s|] == s;
  }

  /** The same for the candidate texts alone: each is a balanced object from brace to brace. */
  lemma CandidateShape(s: string, k: nat)
    requires k < |Candidates(s)|
    ensures var c := Candidates(s)[k];
      && |c| >= 2 && c[0] == '{' && c[|c| - 1] == '}'
      && Count('{', c) == Count('}', c)
      && forall m :: 0 < m < |c| ==> Count('{', c[..m]) > Count('}', c[..m])
  {
    CandidatesSpec(s);
    var sp := Scan(s).spans[k];
    var c := Candidates(s)[k];
    assert c == s[sp.first..sp.last + 1];
    forall m | 0 < m < |c| ensures Count('{', c[..m]) > Count('}', c[..m]) {
      assert c[..m] == s[sp.first..sp.first + m];
    }
  }

  /** Characters that do not close a brace never add a candidate: an unclosed "{" yields nothing. */
  lemma {:induction false} NoCloseNoCandidate(s: string, t: string)
    requires forall j :: 0 <= j < |t| ==> t[j] != '}'
    ensures Scan(s + t).spans == Scan(s).spans
    decreases |t|
  {
    if |t| == 0 {
      assert s + t == s;
    } else {
      var t' := t[..|t| - 1];
      NoCloseNoCandidate(s, t');
      assert (s + t)[..|s + t| - 1] == s + t';
    }
  }

  /** Text without "}" has no candidate. */
  lemma NoCloseNoCandidates(t: string)
    requires forall j :: 0 <= j < |t| ==> t[j] != '}'
    ensures Candidates(t) == []
  {
    NoCloseNoCandidate([], t);
    assert [] + t == t;
  }

  /** Braces inside JSON strings are counted like any other: the scan cuts {"}"} after {"}. */
  lemma BracesInStringsCounted()
    ensures Candidates("{\"}\"}") == ["{\"}"]
  {
    var s := "{\"}\"}";
    assert s[..0] == [];
    ScanPrefix(s, 0);
    ScanPrefix(s, 1);
    ScanPrefix(s, 2);
    ScanPrefix(s, 3);
    ScanPrefix(s, 4);
    assert s[..5] == s;
    assert Scan(s[..1]) == ScanState(1, Some(0), []);
    assert Scan(s[..2]) == ScanState(1, Some(0), []);
    assert Scan(s[..3]) == ScanState(0, Some(0), [Span(0, 2)]);
    assert Scan(s[..4]) == ScanState(0, Some(0), [Span(0, 2)]);
    assert Scan(s) == ScanState(0, Some(0), [Span(0, 2)]);
    assert SpanText(s, Span(0, 2)) == s[0..3] == "{\"}";
    assert Candidates(s) == [SpanText(s, Span(0, 2))];
  }

  /** _extract_first_balanced_json: one pass keeping depth and start, yielding each balanced object. */
  method BalancedCandidates(s: string) returns (cands: seq<string>)
    ensures cands == Candidates(s)
  {
    var start: Option<nat> := None;
    var depth: nat := 0;
    ghost var spans: seq<Span> := [];
    cands := [];
    for i := 0 to |s|
      invariant Scan(s[..i]) == ScanState(depth, start, spans)
      invariant |cands| == |spans| && forall k :: 0 <= k < |spans| ==> cands[k] == SpanText(s, spans[k])
    {
      ScanPrefix(s, i);
      ScanInv(s, i);
      var ch := s[i];
      if ch == '{' {
        if depth == 0 {
          start := Some(i);
        }
        depth := depth + 1;
      } else if ch == '}' {
        if depth > 0 {
          depth := depth - 1;
          if depth == 0 && start.Some? {
            cands := cands + [s[start.value..i + 1]];
            spans := spans + [Span(start.value, i)];
          }
        }
      }
    }
    assert s[..|s|] == s;
  }

  // ---------------------------------------------------------------------------------------
  // parse_json_safely
  // ---------------------------------------------------------------------------------------

  /** json.loads: the decoded value, or None where it raises. */
  type Parser = string -> Option<Json>

  datatype DecodeError = EmptyResponse | NoJson

  /** Stage 2's bounds: the first "{" and the last "}", when the "}" comes after the "{". */
  function WidestSpan(t: string): (r: Option<Span>)
    ensures r.Some? <==> exists i, j :: 0 <= i < j < |t| && t[i] == '{' && t[j] == '}'
    ensures r.Some? ==>
      && r.value.first < r.value.last < |t| && t[r.value.first] == '{' && t[r.value.last] == '}'
      && (forall j :: 0 <= j < r.value.first ==> t[j] != '{')
      && (forall j :: r.value.last < j < |t| ==> t[j] != '}')
  {
    var first := Find(t, '{');
    var last := RFind(t, '}');
    if first != -1 && last != -1 && last > first then Some(Span(first, last))
    else
      assert forall i, j :: 0 <= i < j < |t| && t[i] == '{' && t[j] == '}' ==> first != -1 && first <= i && last >= j;
      None
  }

  /** Stage 2's text, t[first:last+1]. */
  function WidestBraces(t: string): Option<string> {
    match WidestSpan(t)
    case Some(sp) => Some(SpanText(t, sp))
    case None => None
  }

  lemma WidestBracesShape(t: string)
    requires WidestBraces(t).Some?
    ensures var c := WidestBraces(t).value; |c| >= 2 && c[0] == '{' && c[|c| - 1] == '}'
  {
  }

  /** The first of the texts that parses, if any. */
  function FirstParse(cs: seq<string>, parse: Parser): (r: Option<Json>)
    ensures r.Some? <==> exists k :: 0 <= k < |cs| && parse(cs[k]).Some?
    ensures r.Some? ==> exists k :: 0 <= k < |cs| && parse(cs[k]) == r && forall m :: 0 <= m < k ==> parse(cs[m]).None?
    decreases |cs|
  {
    if |cs| == 0 then None
    else if parse(cs[0]).Some? then parse(cs[0])
    else
      var r := FirstParse(cs[1..], parse);
      assert forall k :: 1 <= k < |cs| ==> cs[k] == cs[1..][k - 1];
      if r.Some? then
        var k :| 0 <= k < |cs[1..]| && parse(cs[1..][k]) == r && forall m :: 0 <= m < k ==> parse(cs[1..][m]).None?;
        assert parse(cs[k + 1]) == r && forall m :: 0 <= m < k + 1 ==> parse(cs[m]).None?;
        r
      else r
  }

  /** The three stages on the fence-stripped text t. */
  function Stages(t: string, parse: Parser): Result<Json, DecodeError> {
    if parse(t).Some? then Ok(parse(t).value)
    else if WidestBraces(t).Some? && parse(WidestBraces(t).value).Some? then Ok(parse(WidestBraces(t).value).value)
    else
      match FirstParse(Candidates(t), parse)
      case Some(j) => Ok(j)
      case None => Err(NoJson)
  }

  /** parse_json_safely: blank text is refused before any parse, anything else goes through the stages. */
  function Decode(text: string, parse: Parser): Result<Json, DecodeError> {
    if |Strip(text)| == 0 then Err(EmptyResponse) else Stages(StripCodeFences(text), parse)
  }

  /** The texts handed to json.loads, in order: t itself, the widest braces, the candidates. */
  function AttemptsOn(t: string): seq<string> {
    [t] + (if WidestBraces(t).Some? then [WidestBraces(t).value] else []) + Candidates(t)
  }

  function Attempts(text: string): seq<string> {
    AttemptsOn(StripCodeFences(text))
  }

  lemma FirstParseAppend(a: seq<string>, b: seq<string>, parse: Parser)
    ensures FirstParse(a + b, parse) == if FirstParse(a, parse).Some? then FirstParse(a, parse) else FirstParse(b, parse)
    decreases |a|
  {
    if |a| == 0 {
      assert a + b == b;
    } else {
      assert (a + b)[0] == a[0] && (a + b)[1..] == a[1..] + b;
      FirstParseAppend(a[1..], b, parse);
    }
  }

  lemma StagesAreFirstAttempt(t: string, parse: Parser)
    ensures Stages(t, parse) == match FirstParse(AttemptsOn(t), parse) case Some(j) => Ok(j) case None => Err(NoJson)
  {
    var w := if WidestBraces(t).Some? then [WidestBraces(t).value] else [];
    assert AttemptsOn(t) == ([t] + w) + Candidates(t);
    FirstParseAppend([t] + w, Candidates(t), parse);
    FirstParseAppend([t], w, parse);
    assert [t][1..] == [];
    if w != [] {
      assert w[1..] == [];
    }
  }

  /**
    parse_json_safely returns the value of the first attempt that parses, and fails only when
    none does; blank text fails before any attempt.
  */
  lemma DecodeIsFirstAttempt(text: string, parse: Parser)
    ensures |Strip(text)| == 0 ==> Decode(text, parse) == Err(EmptyResponse)
    ensures |Strip(text)| > 0 ==>
      Decode(text, parse) == match FirstParse(Attempts(text), parse) case Some(j) => Ok(j) case None => Err(NoJson)
  {
    StagesAreFirstAttempt(StripCodeFences(text), parse);
  }

  /** An answer is always what json.loads gave for one of the attempts, with every earlier attempt failing. */
  lemma StagesSound(t: string, parse: Parser)
    requires Stages(t, parse).Ok?
    ensures exists k :: (0 <= k < |AttemptsOn(t)|
      && parse(AttemptsOn(t)[k]) == Some(Stages(t, parse).value)
      && forall m :: 0 <= m < k ==> parse(AttemptsOn(t)[m]).None?)
  {
    StagesAreFirstAttempt(t, parse);
  }

  /** The error is raised exactly when no attempt parses. */
  lemma StagesFailIffNothingParses(t: string, parse: Parser)
    ensures Stages(t, parse) == Err(NoJson) <==> forall k :: 0 <= k < |AttemptsOn(t)| ==> parse(AttemptsOn(t)[k]).None?
  {
    StagesAreFirstAttempt(t, parse);
  }

  /** Stages 2 and 3 only hand json.loads a text from "{" to "}"; stage 1 may hand it anything. */
  lemma LaterAttemptsAreBraced(t: string, k: nat)
    requires 1 <= k < |AttemptsOn(t)|
    ensures var c := AttemptsOn(t)[k]; |c| >= 2 && c[0] == '{' && c[|c| - 1] == '}'
  {
    var w := if WidestBraces(t).Some? then [WidestBraces(t).value] else [];
    assert AttemptsOn(t) == [t] + w + Candidates(t);
    if k >= 1 + |w| {
      assert AttemptsOn(t)[k] == Candidates(t)[k - 1 - |w|];
      CandidateShape(t, k - 1 - |w|);
    } else {
      WidestBracesShape(t);
    }
  }

  lemma FirstParseAt(cs: seq<string>, parse: Parser, i: nat)
    requires i < |cs| && parse(cs[i]).Some? && forall m :: 0 <= m < i ==> parse(cs[m]).None?
    ensures FirstParse(cs, parse) == parse(cs[i])
  {
    var r := FirstParse(cs, parse);
    var k :| 0 <= k < |cs| && parse(cs[k]) == r && forall m :: 0 <= m < k ==> parse(cs[m]).None?;
    assert k == i;
  }

  /** parse_json_safely: blank text is refused, then the three stages run on the fence-stripped text. */
  method ParseJsonSafely(text: string, parse: Parser) returns (r: Result<Json, DecodeError>)
    ensures r == Decode(text, parse)
  {
    if |Strip(text)| == 0 {
      return Err(EmptyResponse);
    }
    var t := StripCodeFences(text);
    r := RunStages(t, parse);
  }

  /** The body of parse_json_safely after the blank check: direct, widest braces, then each candidate. */
  method RunStages(t: string, parse: Parser) returns (r: Result<Json, DecodeError>)
    ensures r == Stages(t, parse)
  {
    var direct := parse(t);
    if direct.Some? {
      return Ok(direct.value);
    }
    var first := Find(t, '{');
    var last := RFind(t, '}');
    if first != -1 && last != -1 && last > first {
      var candidate := t[first..last + 1];
      assert WidestBraces(t) == Some(candidate);
      var widest := parse(candidate);
      if widest.Some? {
        return Ok(widest.value);
      }
    }
    var cands := BalancedCandidates(t);
    for i := 0 to |cands|
      invariant forall m :: 0 <= m < i ==> parse(cands[m]).None?
    {
      var obj := parse(cands[i]);
      if obj.Some? {
        FirstParseAt(cands, parse, i);
        return Ok(obj.value);
      }
    }
    return Err(NoJson);
  }

  // ---------------------------------------------------------------------------------------
  // The extract route
  // ---------------------------------------------------------------------------------------

  /** The fixed retrieval query of the route. */
  const ExtractQuery := "methods loss function architecture dataset split metric table AP mAP mIoU results ablation sota"

  const NotFoundDetail := "No content found for extraction. Did you ingest the PDF?"

  const AuthDetail := "OpenAI auth failed: set OPENAI_API_KEY in .env, or set USE_LOCAL=1 to use Ollama."

  const BadJsonDetail := "Model did not return clean JSON. First 400 chars:\n"

  /** What the LLM call gives back: its text, an HTTP error with the response status if any, or another failure. */
  datatype Reply = Reply(text: string) | HttpFailure(status: Option<int>) | OtherFailure

  /** How the route ends: the validated record, an HTTP error, a validation error, or an exception it does not catch. */
  datatype Outcome =
    | Extracted(data: PaperJson)
    | HttpError(status: int, detail: string)
    | InvalidRecord(error: ValidationError)
    | Unhandled

  /** (raw or "")[:400]. */
  function Snippet(raw: string): (r: string)
    ensures |r| <= 400 && |r| <= |raw| && r == raw[..|r|]
    ensures |raw| <= 400 ==> r == raw
  {
    if |raw| <= 400 then raw else raw[..400]
  }

  /** The context handed to the LLM: the retrieved hits packed with their citation tags. */
  function ContextOf(chunks: seq<Hit>): string {
    PackContext(seq(|chunks|, i requires 0 <= i < |chunks| => HitItem(chunks[i])))
  }

  /** The route after retrieval; generate stands for the LLM call on the packed context. */
  function ExtractOutcome(retrieved: Option<seq<Hit>>, generate: string -> Reply, parse: Parser): Outcome {
    match retrieved
    case None => Unhandled
    case Some(chunks) =>
      if |chunks| == 0 then HttpError(404, NotFoundDetail)
      else
        match generate(ContextOf(chunks))
        case HttpFailure(status) => if status == Some(401) then HttpError(401, AuthDetail) else Unhandled
        case OtherFailure => Unhandled
        case Reply(raw) => ReplyOutcome(raw, Decode(raw, parse))
  }

  /** The route once the reply raw has been decoded: 502 on a decoding error, else validation. */
  function ReplyOutcome(raw: string, decoded: Result<Json, DecodeError>): Outcome {
    match decoded
    case Err(_) => HttpError(502, BadJsonDetail + Snippet(raw))
    case Ok(j) =>
      match Validate(j)
      case Ok(pj) => Extracted(pj)
      case Err(e) => InvalidRecord(e)
  }

  /** 404 exactly when retrieval finds nothing. */
  lemma NotFoundIffNoChunks(retrieved: Option<seq<Hit>>, generate: string -> Reply, parse: Parser)
    ensures ExtractOutcome(retrieved, generate, parse).HttpError? && ExtractOutcome(retrieved, generate, parse).status == 404
      <==> retrieved == Some([])
  {
  }

  /**
    502 exactly when the reply does not decode, and its detail carries the first 400
    characters of the reply; a record comes out only when the decoded value validates.
  */
  lemma ReplyOutcomeSpec(raw: string, decoded: Result<Json, DecodeError>)
    ensures var o := ReplyOutcome(raw, decoded);
      && (o.HttpError? && o.status == 502 <==> decoded.Err?)
      && (decoded.Err? ==> o.detail == BadJsonDetail + raw[..if |raw| < 400 then |raw| else 400])
      && (o.Extracted? <==> decoded.Ok? && Validate(decoded.value).Ok?)
      && (o.Extracted? ==> Validate(decoded.value) == Ok(o.data))
  {
  }

  /** The extract route: retrieve with the fixed query, pack, generate, decode, validate. */
  method ExtractRoute(retriever: Retriever, docId: string, k: int, knn: Knn, generate: string -> Reply, parse: Parser)
    returns (o: Outcome)
    requires retriever.index.Valid()
    ensures o == ExtractOutcome(RetrieveResult(retriever.index.store, retriever.index.encode, retriever.reranker,
                                               docId, ExtractQuery, k, knn), generate, parse)
  {
    var chunks := retriever.Retrieve(docId, ExtractQuery, k, knn);
    if chunks.None? {
      return Unhandled;
    }
    if |chunks.value| == 0 {
      return HttpError(404, NotFoundDetail);
    }
    var items := seq(|chunks.value|, i requires 0 <= i < |chunks.value| => HitItem(chunks.value[i]));
    var context := Pack(items);
    var reply := generate(context);
    match reply {
      case HttpFailure(status) =>
        if status == Some(401) {
          return HttpError(401, AuthDetail);
        }
        return Unhandled;
      case OtherFailure =>
        return Unhandled;
      case Reply(raw) =>
        var data := ParseJsonSafely(raw, parse);
        if data.Err? {
          return HttpError(502, BadJsonDetail + Snippet(raw));
        }
        var pj := Validate(data.value);
        match pj {
          case Ok(record) => return Extracted(record);
          case Err(e) => return InvalidRecord(e);
        }
    }
  }
}
