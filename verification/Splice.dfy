/** The line splices of `CodeModificationEngine`: anchored insertion for any language, and
    replacing or removing a top-level symbol of a Python module. */
module Splice {
  import opened Text
  import Brackets

  datatype EditError =
    | AnchorMissing | Unbalanced | OccurrenceMissing
    | SourceInvalid | SnippetInvalid | ResultInvalid | SymbolMissing

  // ---------------------------------------------------------------------
  // Anchored insertion
  // ---------------------------------------------------------------------

  function Hits(lines: seq<string>, anchor: string): (n: nat)
    ensures n <= |lines|
  {
    if lines == [] then 0
    else
      Hits(lines[..|lines| - 1], anchor)
      + (if Contains(lines[|lines| - 1], anchor) then 1 else 0)
  }

  /** Line `i` contains the anchor and exactly `k - 1` lines before it do. */
  predicate IsKth(lines: seq<string>, anchor: string, k: int, i: nat) {
    i < |lines| && Contains(lines[i], anchor) && Hits(lines[..i], anchor) == k - 1
  }

  lemma {:induction false} HitsGrow(lines: seq<string>, anchor: string, i: nat, j: nat)
    requires i < j <= |lines| && Contains(lines[i], anchor)
    ensures Hits(lines[..i], anchor) < Hits(lines[..j], anchor)
    decreases j
  {
    assert lines[..j][..j - 1] == lines[..j - 1];
    if i < j - 1 {
      HitsGrow(lines, anchor, i, j - 1);
    }
  }

  lemma KthUnique(lines: seq<string>, anchor: string, k: int, i: nat, j: nat)
    requires IsKth(lines, anchor, k, i) && IsKth(lines, anchor, k, j)
    ensures i == j
  {
    if i < j {
      HitsGrow(lines, anchor, i, j);
    } else if j < i {
      HitsGrow(lines, anchor, j, i);
    }
  }

  /** The lines before `i` that contain the anchor. */
  function HitsBefore(lines: seq<string>, anchor: string, i: nat): set<nat>
    requires i <= |lines|
  {
    set j: nat | j < i && Contains(lines[j], anchor)
  }

  lemma {:induction false} HitsAreLines(lines: seq<string>, anchor: string, i: nat)
    requires i <= |lines|
    ensures Hits(lines[..i], anchor) == |HitsBefore(lines, anchor, i)|
  {
    if i == 0 {
      assert HitsBefore(lines, anchor, 0) == {};
    } else {
      HitsAreLines(lines, anchor, i - 1);
      assert lines[..i][..i - 1] == lines[..i - 1];
      assert HitsBefore(lines, anchor, i)
             == HitsBefore(lines, anchor, i - 1) + if Contains(lines[i - 1], anchor) then {i - 1} else {};
    }
  }

  /** The k-th line with the anchor has the anchor, and exactly k - 1 lines before it have it. */
  lemma KthExactly(lines: seq<string>, anchor: string, k: int, i: nat)
    ensures IsKth(lines, anchor, k, i) <==>
              i < |lines| && Contains(lines[i], anchor) && |HitsBefore(lines, anchor, i)| == k - 1
  {
    if i < |lines| {
      HitsAreLines(lines, anchor, i);
    }
  }

  function InsertLine(lines: seq<string>, at: nat, block: string): seq<string>
    requires at <= |lines|
  {
    lines[..at] + [block] + lines[at..]
  }

  /** What both anchored insertions promise; `offset` is 1 to insert after the anchor's
      line and 0 to insert before it. */
  ghost predicate AnchoredInsertion(source: string, anchor: string, snippet: string, k: int,
                                    offset: nat, r: Result<string, EditError>)
    requires offset <= 1
  {
    var lines := SplitLines(source);
    if !Contains(source, anchor) then r == Err(AnchorMissing)
    else if !Brackets.InGrammar(Brackets.CodeBrackets(Brackets.Code, snippet)) then r == Err(Unbalanced)
    else if r.Ok? then
      exists i: nat :: IsKth(lines, anchor, k, i)
                  && r.value == Join(InsertLine(lines, i + offset, EnsureNewline(snippet)))
    else r == Err(OccurrenceMissing) && forall i: nat :: !IsKth(lines, anchor, k, i)
  }

  method InsertAfterAnchor(source: string, anchor: string, snippet: string, occurrence: int)
    returns (r: Result<string, EditError>)
    ensures AnchoredInsertion(source, anchor, snippet, occurrence, 1, r)
  {
    if !Contains(source, anchor) {
      return Err(AnchorMissing);
    }
    var balanced := Brackets.AssertBalanced(snippet);
    if !balanced {
      return Err(Unbalanced);
    }
    var lines := SplitLines(source);
    var seen := 0;
    for i := 0 to |lines|
      invariant seen == Hits(lines[..i], anchor)
      invariant forall j :: 0 <= j < i ==> !IsKth(lines, anchor, occurrence, j)
    {
      assert lines[..i + 1][..i] == lines[..i];
      if Contains(lines[i], anchor) {
        seen := seen + 1;
        if seen == occurrence {
          var block := EnsureNewline(snippet);
          assert IsKth(lines, anchor, occurrence, i);
          return Ok(Join(InsertLine(lines, i + 1, block)));
        }
      }
    }
    return Err(OccurrenceMissing);
  }

  method InsertBeforeAnchor(source: string, anchor: string, snippet: string, occurrence: int)
    returns (r: Result<string, EditError>)
    ensures AnchoredInsertion(source, anchor, snippet, occurrence, 0, r)
  {
    if !Contains(source, anchor) {
      return Err(AnchorMissing);
    }
    var balanced := Brackets.AssertBalanced(snippet);
    if !balanced {
      return Err(Unbalanced);
    }
    var lines := SplitLines(source);
    var seen := 0;
    for i := 0 to |lines|
      invariant seen == Hits(lines[..i], anchor)
      invariant forall j :: 0 <= j < i ==> !IsKth(lines, anchor, occurrence, j)
    {
      assert lines[..i + 1][..i] == lines[..i];
      if Contains(lines[i], anchor) {
        seen := seen + 1;
        if seen == occurrence {
          var block := EnsureNewline(snippet);
          assert IsKth(lines, anchor, occurrence, i);
          return Ok(Join(InsertLine(lines, i, block)));
        }
      }
    }
    return Err(OccurrenceMissing);
  }

  lemma AreLinesSlice(lines: seq<string>, i: nat, j: nat)
    requires AreLines(lines) && i <= j <= |lines|
    ensures AreLines(lines[i..j])
  {
  }

  lemma AreLinesConcat(a: seq<string>, b: seq<string>)
    requires AreLines(a) && AreLines(b)
    requires a != [] && b != [] ==> EndsLine(a[|a| - 1])
    ensures AreLines(a + b)
  {
  }

  /** Cutting a spliced text into lines again. */
  lemma {:induction false} SpliceLines(head: seq<string>, middle: string, tail: seq<string>)
    requires AreLines(head) && AreLines(tail)
    requires head != [] && (middle != [] || tail != []) ==> EndsLine(head[|head| - 1])
    requires middle != [] && tail != [] ==> EndsLine(middle)
    ensures SplitLines(Join(head) + middle + Join(tail)) == head + SplitLines(middle) + tail
  {
    var m := SplitLines(middle);
    SplitShape(middle);
    AreLinesConcat(head, m);
    AreLinesConcat(head + m, tail);
    JoinConcat(head, m);
    JoinConcat(head + m, tail);
    SplitJoin(head + m + tail);
  }

  lemma InsertedText(lines: seq<string>, at: nat, block: string)
    requires at <= |lines|
    ensures Join(InsertLine(lines, at, block)) == Join(lines[..at]) + block + Join(lines[at..])
  {
    JoinConcat(lines[..at], [block]);
    JoinConcat(lines[..at] + [block], lines[at..]);
    assert Join([block]) == block;
  }

  /** A text of one line occurs within one of the lines. */
  lemma {:induction false} OccursInLine(lines: seq<string>, anchor: string, at: nat) returns (i: nat)
    requires AreLines(lines) && anchor != [] && '\n' !in anchor && OccursAt(Join(lines), anchor, at)
    ensures i < |lines| && Contains(lines[i], anchor)
  {
    assert Join(lines) == lines[0] + Join(lines[1..]);
    if lines[1..] == [] { assert lines == [lines[0]]; }
    if at < |lines[0]| < at + |anchor| {
      BreakInside(Join(lines), anchor, at, |lines[0]| - 1);
    }
    if at + |anchor| <= |lines[0]| {
      i := 0;
      assert OccursAt(lines[0], anchor, at);
    } else {
      assert OccursAt(Join(lines[1..]), anchor, at - |lines[0]|);
      i := OccursInLine(lines[1..], anchor, at - |lines[0]|);
      i := i + 1;
    }
  }

  lemma BreakInside(text: string, anchor: string, at: nat, p: nat)
    requires OccursAt(text, anchor, at) && at <= p < at + |anchor| && text[p] == '\n'
    ensures '\n' in anchor
  {
    assert text[p] == anchor[p - at];
  }

  /** Some line is the first that contains the anchor. */
  lemma {:induction false} FirstLineWith(lines: seq<string>, anchor: string, j: nat) returns (i: nat)
    requires j < |lines| && Contains(lines[j], anchor)
    ensures IsKth(lines, anchor, 1, i)
  {
    if k: nat :| k < j && Contains(lines[k], anchor) {
      i := FirstLineWith(lines, anchor, k);
    } else {
      i := j;
      NoHits(lines[..j], anchor);
    }
  }

  lemma {:induction false} NoHits(lines: seq<string>, anchor: string)
    requires forall i :: 0 <= i < |lines| ==> !Contains(lines[i], anchor)
    ensures Hits(lines, anchor) == 0
  {
    if lines != [] {
      NoHits(lines[..|lines| - 1], anchor);
    }
  }

  /** An anchor without a line break is found in every source that contains it. */
  lemma AnchorFound(source: string, anchor: string, snippet: string, offset: nat, r: Result<string, EditError>)
    requires offset <= 1 && anchor != [] && '\n' !in anchor && Contains(source, anchor)
    requires AnchoredInsertion(source, anchor, snippet, 1, offset, r)
    ensures r.Ok? || r == Err(Unbalanced)
  {
    SplitShape(source);
    var at: nat :| at <= |source| && OccursAt(source, anchor, at);
    var j := OccursInLine(SplitLines(source), anchor, at);
    var i := FirstLineWith(SplitLines(source), anchor, j);
  }

  /** Deleting lines `at .. at + count`. */
  function DeleteLines(text: string, at: nat, count: nat): string {
    var lines := SplitLines(text);
    if at + count <= |lines| then Join(lines[..at] + lines[at + count..]) else text
  }

  /** Inserting at a line and deleting the inserted lines is the identity, and the inserted
      lines are the block's own, if and only if the line before ended. */
  lemma InsertionIsExact(source: string, at: nat, block: string)
    requires EndsLine(block) && at <= |SplitLines(source)|
    ensures var lines, r := SplitLines(source), Join(InsertLine(SplitLines(source), at, block));
            SplitLines(r) == lines[..at] + SplitLines(block) + lines[at..]
            <==> (at == 0 || EndsLine(lines[at - 1]))
    ensures var lines, r := SplitLines(source), Join(InsertLine(SplitLines(source), at, block));
            (at == 0 || EndsLine(lines[at - 1]))
            ==> DeleteLines(r, at, |SplitLines(block)|) == source
  {
    hide Join, SplitLines;
    var lines := SplitLines(source);
    var b := SplitLines(block);
    var r := Join(InsertLine(lines, at, block));
    SplitShape(source);
    SplitShape(block);
    InsertedText(lines, at, block);
    if at == 0 || EndsLine(lines[at - 1]) {
      SpliceLines(lines[..at], block, lines[at..]);
      assert (lines[..at] + b + lines[at..])[..at] + (lines[..at] + b + lines[at..])[at + |b|..] == lines;
    } else {
      SplitShape(r);
      assert (lines[..at] + b + lines[at..])[at - 1] == lines[at - 1];
    }
  }

  /** Main result for `insert_before_anchor`: it always inserts whole lines just before the
      k-th line with the anchor, and deleting them recovers the source. */
  lemma BeforeAnchorExact(source: string, anchor: string, snippet: string, k: int, i: nat)
    requires IsKth(SplitLines(source), anchor, k, i)
    ensures var block, lines := EnsureNewline(snippet), SplitLines(source);
            var r := Join(InsertLine(lines, i, block));
            SplitLines(r) == lines[..i] + SplitLines(block) + lines[i..]
            && DeleteLines(r, i, |SplitLines(block)|) == source
  {
    SplitShape(source);
    InsertionIsExact(source, i, EnsureNewline(snippet));
  }

  /** Main result for `insert_after_anchor`: the same, if and only if the k-th line with the
      anchor ends with a line break; otherwise the snippet is glued to that line. */
  lemma AfterAnchorExact(source: string, anchor: string, snippet: string, k: int, i: nat)
    requires IsKth(SplitLines(source), anchor, k, i)
    ensures var block, lines := EnsureNewline(snippet), SplitLines(source);
            var r := Join(InsertLine(lines, i + 1, block));
            (SplitLines(r) == lines[..i + 1] + SplitLines(block) + lines[i + 1..]
             <==> EndsLine(lines[i]))
            && (EndsLine(lines[i]) ==> DeleteLines(r, i + 1, |SplitLines(block)|) == source)
  {
    InsertionIsExact(source, i + 1, EnsureNewline(snippet));
  }

  /** The glued case: the anchor's line is last and has no line break. */
  lemma AfterAnchorGlues()
    ensures IsKth(SplitLines("a"), "a", 1, 0)
    ensures Join(InsertLine(SplitLines("a"), 1, EnsureNewline("b"))) == "ab\n"
  {
    assert SplitLines("a") == ["a"] by { SplitJoin(["a"]); assert Join(["a"]) == "a"; }
    assert OccursAt("a", "a", 0);
    InsertedText(["a"], 1, "b\n");
    assert Join(["a"]) == "a" + Join([]);
  }

  // ---------------------------------------------------------------------
  // Splices of a Python module
  // ---------------------------------------------------------------------

  /** A top-level function or class and its lines, decorators included, counted from 1. */
  datatype Symbol = Symbol(name: string, isFunction: bool, start: nat, end: nat)

  type Parser = string -> Option<seq<Symbol>>

  /** What the parser says of a module it accepts: its symbols stand in order on disjoint
      lines, and a definition starts and ends on lines that are not empty. */
  ghost predicate LawfulParser(parse: Parser) {
    forall text :: LawfulAt(parse, text)
  }

  ghost predicate LawfulAt(parse: Parser, text: string) {
    parse(text).Some? ==>
      var symbols := parse(text).value;
      && (forall i :: 0 <= i < |symbols| ==> SpanInside(SplitLines(text), symbols[i]))
      && (forall i, j :: 0 <= i < j < |symbols| ==> symbols[i].end < symbols[j].start)
  }

  predicate SpanInside(lines: seq<string>, s: Symbol) {
    1 <= s.start <= s.end <= |lines|
    && lines[s.start - 1] != "" && lines[s.start - 1][0] != '\n'
    && lines[s.end - 1] != "" && lines[s.end - 1][0] != '\n'
  }

  /** `_find_toplevel`: the first symbol with the name. */
  function FindTop(symbols: seq<Symbol>, name: string): (r: Option<Symbol>)
    ensures r.Some? ==> r.value in symbols && r.value.name == name
  {
    if symbols == [] then None
    else if symbols[0].name == name then Some(symbols[0])
    else FindTop(symbols[1..], name)
  }

  /** The symbol found is the first with the name; none is found only when there is none. */
  lemma {:induction false} FoundIsFirst(symbols: seq<Symbol>, name: string)
    ensures FindTop(symbols, name).None? <==> forall i :: 0 <= i < |symbols| ==> symbols[i].name != name
    ensures FindTop(symbols, name).Some? ==>
              exists i :: 0 <= i < |symbols| && symbols[i] == FindTop(symbols, name).value && symbols[i].name == name
                          && forall j :: 0 <= j < i ==> symbols[j].name != name
  {
    if symbols != [] && symbols[0].name != name {
      FoundIsFirst(symbols[1..], name);
      if FindTop(symbols[1..], name).None? {
        forall i | 0 <= i < |symbols| ensures symbols[i].name != name {
          assert i > 0 ==> symbols[i] == symbols[1..][i - 1];
        }
      } else {
        var i :| 0 <= i < |symbols[1..]| && symbols[1..][i] == FindTop(symbols[1..], name).value && symbols[1..][i].name == name
                 && forall j :: 0 <= j < i ==> symbols[1..][j].name != name;
        assert symbols[i + 1] == symbols[1..][i];
        forall j | 0 <= j < i + 1 ensures symbols[j].name != name {
          assert j > 0 ==> symbols[j] == symbols[1..][j - 1];
        }
      }
    }
  }

  function StripLeft(s: string): string {
    if s != [] && s[0] == '\n' then StripLeft(s[1..]) else s
  }

  function StripRight(s: string): (r: string)
    ensures r <= s && (r != [] ==> r[|r| - 1] != '\n')
  {
    if s != [] && s[|s| - 1] == '\n' then StripRight(s[..|s| - 1]) else s
  }

  /** `_ensure_trailing_newline(text.strip("\n"))`. */
  function Body(text: string): (r: string)
    ensures EndsLine(r)
  {
    EnsureNewline(StripRight(StripLeft(text)))
  }

  /** The body is the snippet between line breaks, with one line break after it. */
  lemma BodyExactly(text: string) returns (before: string, core: string, after: string)
    ensures text == before + core + after && Body(text) == core + "\n"
    ensures (forall c :: c in before + after ==> c == '\n') && (core != [] ==> core[0] != '\n' && core[|core| - 1] != '\n')
  {
    before := LeftStripped(text);
    core, after := RightStripped(StripLeft(text));
    assert text == before + (core + after);
  }

  lemma {:induction false} LeftStripped(s: string) returns (before: string)
    ensures s == before + StripLeft(s) && (forall c :: c in before ==> c == '\n')
    ensures StripLeft(s) != [] ==> StripLeft(s)[0] != '\n'
  {
    before := [];
    if s != [] && s[0] == '\n' {
      before := LeftStripped(s[1..]);
      before := "\n" + before;
      assert s == [s[0]] + s[1..];
    }
  }

  lemma {:induction false} RightStripped(s: string) returns (core: string, after: string)
    ensures core == StripRight(s) && s == core + after && (forall c :: c in after ==> c == '\n')
  {
    core, after := s, [];
    if s != [] && s[|s| - 1] == '\n' {
      core, after := RightStripped(s[..|s| - 1]);
      after := after + "\n";
      assert s == s[..|s| - 1] + [s[|s| - 1]];
    }
  }

  function Finalize(parse: Parser, candidate: string): (r: Result<string, EditError>)
    ensures r.Ok? ==> r.value == EnsureNewline(candidate) && parse(r.value).Some?
  {
    var text := EnsureNewline(candidate);
    if parse(text).Some? then Ok(text) else Err(ResultInvalid)
  }

  function ReplaceFunction(parse: Parser, source: string, name: string, funcSource: string)
    : Result<string, EditError>
    requires LawfulParser(parse)
  {
    if parse(source).None? then Err(SourceInvalid)
    else
      var node := FindTop(parse(source).value, name);
      if node.None? || !node.value.isFunction then Err(SymbolMissing)
      else if parse(funcSource).None? then Err(SnippetInvalid)
      else
        assert LawfulAt(parse, source);
        Finalize(parse, Spliced(SplitLines(source), node.value, Body(funcSource)))
  }

  /** The lines before the symbol, the body in its place, the lines after it. */
  function Spliced(lines: seq<string>, s: Symbol, body: string): string
    requires 1 <= s.start <= s.end <= |lines|
  {
    Join(lines[..s.start - 1]) + body + Join(lines[s.end..])
  }

  /** A replacement is accepted if and only if the source and the snippet parse, the first symbol with
      the name is a function, and what comes of it parses. */
  lemma ReplaceAccepted(parse: Parser, source: string, name: string, funcSource: string)
    requires LawfulParser(parse)
    ensures ReplaceFunction(parse, source, name, funcSource).Ok? <==>
              && parse(source).Some? && parse(funcSource).Some?
              && FindTop(parse(source).value, name).Some? && FindTop(parse(source).value, name).value.isFunction
              && assert LawfulAt(parse, source);
                 parse(EnsureNewline(Spliced(SplitLines(source), FindTop(parse(source).value, name).value, Body(funcSource)))).Some?
    ensures ReplaceFunction(parse, source, name, funcSource).Ok? ==>
              parse(ReplaceFunction(parse, source, name, funcSource).value).Some?
  {
    hide Join, SplitLines, Spliced, Body, EnsureNewline, FindTop;
    assert LawfulAt(parse, source);
  }

  /** The lines with a line break added to the last one if it has none. */
  function EndLast(lines: seq<string>): (ended: seq<string>)
    ensures |ended| == |lines|
  {
    if lines == [] then [] else lines[..|lines| - 1] + [EnsureNewline(lines[|lines| - 1])]
  }

  lemma JoinLast(lines: seq<string>, last: string)
    ensures Join(lines + [last]) == Join(lines) + last
  {
    JoinConcat(lines, [last]);
    assert Join([last]) == last + Join([]);
  }

  lemma EnsureOfConcat(a: string, b: string)
    requires b != []
    ensures EnsureNewline(a + b) == a + EnsureNewline(b)
  {
  }

  lemma EndLastShape(lines: seq<string>)
    requires AreLines(lines)
    ensures AreLines(EndLast(lines))
    ensures forall i :: 0 <= i < |lines| ==> lines[i] <= EndLast(lines)[i] && EndsLine(EndLast(lines)[i])
  {
  }

  /** The text from line `i` on, its last line ended. */
  lemma EndLastTail(lines: seq<string>, i: nat)
    requires AreLines(lines) && i < |lines|
    ensures Join(EndLast(lines)[i..]) == EnsureNewline(Join(lines[i..])) && Join(lines[i..]) != []
  {
    var n := |lines| - 1;
    assert lines[i..] == lines[i..n] + [lines[n]];
    assert EndLast(lines)[i..] == lines[i..n] + [EnsureNewline(lines[n])];
    JoinLast(lines[i..n], lines[n]);
    JoinLast(lines[i..n], EnsureNewline(lines[n]));
    EnsureOfConcat(Join(lines[i..n]), lines[n]);
  }

  /** Replacing lines of a text and ending the last line, as text. */
  lemma ReplacedText(lines: seq<string>, from: nat, to: nat, body: string)
    requires AreLines(lines) && from < to <= |lines| && (body == [] || EndsLine(body))
    requires Join(lines[..from]) + body + Join(lines[to..]) != []
    ensures EnsureNewline(Join(lines[..from]) + body + Join(lines[to..]))
            == Join(lines[..from]) + body + Join(EndLast(lines)[to..])
  {
    hide Join, EndLast;
    var front := Join(lines[..from]) + body;
    if to < |lines| {
      EndLastTail(lines, to);
      EnsureOfConcat(front, Join(lines[to..]));
    } else {
      assert lines[to..] == [] == EndLast(lines)[to..];
      JoinNothing();
      assert front + Join(lines[to..]) == front;
      EndsAlready(lines[..from], body);
    }
  }

  lemma JoinNothing()
    ensures Join([]) == ""
  {
  }

  lemma EndsAlready(lines: seq<string>, body: string)
    requires (forall i :: 0 <= i < |lines| ==> EndsLine(lines[i])) && (body == [] || EndsLine(body))
    requires Join(lines) + body != []
    ensures EnsureNewline(Join(lines) + body) == Join(lines) + body
  {
    if body == [] {
      JoinEndsLine(lines);
      assert Join(lines) + body == Join(lines);
    }
  }

  /** The other lines stay as they were, in order. */
  lemma ReplacedLines(lines: seq<string>, from: nat, to: nat, body: string)
    requires AreLines(lines) && from < to <= |lines| && (body == [] || EndsLine(body))
    requires Join(lines[..from]) + body + Join(lines[to..]) != []
    ensures SplitLines(EnsureNewline(Join(lines[..from]) + body + Join(lines[to..])))
            == lines[..from] + SplitLines(body) + EndLast(lines)[to..]
  {
    EndLastShape(lines);
    AreLinesSlice(lines, 0, from);
    AreLinesSlice(EndLast(lines), to, |lines|);
    ReplacedText(lines, from, to, body);
    SpliceLines(lines[..from], body, EndLast(lines)[to..]);
  }

  lemma JoinEndsLine(lines: seq<string>)
    requires lines != [] ==> EndsLine(lines[|lines| - 1])
    ensures lines != [] ==> EndsLine(Join(lines))
  {
    if lines != [] {
      var n := |lines| - 1;
      assert lines == lines[..n] + [lines[n]];
      JoinLast(lines[..n], lines[n]);
    }
  }

  /** Main result for `replace_function`: the new file is the old one, its last line ended,
      with the function's lines replaced by the snippet's; every other line is untouched. */
  lemma ReplaceKeepsRest(parse: Parser, source: string, name: string, funcSource: string)
    requires LawfulParser(parse) && ReplaceFunction(parse, source, name, funcSource).Ok?
    ensures assert LawfulAt(parse, source);
            var node, lines := FindTop(parse(source).value, name).value, SplitLines(source);
            1 <= node.start <= node.end <= |lines|
            && SplitLines(ReplaceFunction(parse, source, name, funcSource).value)
               == lines[..node.start - 1] + SplitLines(Body(funcSource)) + EndLast(lines)[node.end..]
  {
    hide Join, SplitLines, Body, EndLast, FindTop, EnsureNewline;
    var node := FindTop(parse(source).value, name).value;
    assert LawfulAt(parse, source);
    SplitShape(source);
    ReplacedLines(SplitLines(source), node.start - 1, node.end, Body(funcSource));
  }

  lemma BodyOfSpan(lines: seq<string>)
    requires AreLines(lines) && lines != [] && EndsLine(lines[|lines| - 1])
    requires lines[0][0] != '\n' && lines[|lines| - 1][0] != '\n'
    ensures Body(Join(lines)) == Join(lines)
  {
    hide Join, Body;
    var n := |lines| - 1;
    JoinStarts(lines);
    assert lines == lines[..n] + [lines[n]];
    JoinLast(lines[..n], lines[n]);
    BodyOfText(Join(lines), Join(lines[..n]), lines[n]);
  }

  lemma JoinStarts(lines: seq<string>)
    requires lines != [] && lines[0] != []
    ensures Join(lines) != [] && Join(lines)[0] == lines[0][0]
  {
  }

  /** A text that starts with no line break and ends with one line break only. */
  lemma BodyOfText(text: string, front: string, last: string)
    requires IsLine(last) && EndsLine(last) && last[0] != '\n'
    requires text == front + last && text[0] != '\n'
    ensures Body(text) == text
  {
    var trimmed := text[..|text| - 1];
    assert trimmed[|trimmed| - 1] == last[|last| - 2];
    StripEnd(trimmed);
    assert text == trimmed + "\n";
    assert StripLeft(text) == text;
  }

  lemma StripEnd(trimmed: string)
    requires trimmed != [] && trimmed[|trimmed| - 1] != '\n'
    ensures StripRight(trimmed + "\n") == trimmed
  {
    assert (trimmed + "\n")[..|trimmed|] == trimmed;
    assert StripRight(trimmed) == trimmed;
  }

  lemma JoinCut(lines: seq<string>, from: nat, to: nat)
    requires from <= to <= |lines|
    ensures Join(lines[..from]) + Join(lines[from..to]) + Join(lines[to..]) == Join(lines)
  {
    hide Join;
    CutParts(lines, from, to);
    JoinThree(lines[..from], lines[from..to], lines[to..]);
  }

  lemma CutParts(lines: seq<string>, from: nat, to: nat)
    requires from <= to <= |lines|
    ensures lines[..from] + lines[from..to] + lines[to..] == lines
  {
  }

  lemma JoinThree(a: seq<string>, b: seq<string>, c: seq<string>)
    ensures Join(a + b + c) == Join(a) + Join(b) + Join(c)
  {
    JoinConcat(a, b);
    JoinConcat(a + b, c);
  }

  lemma JoinEndLast(lines: seq<string>)
    requires AreLines(lines) && lines != []
    ensures Join(EndLast(lines)) == EnsureNewline(Join(lines))
  {
    EndLastTail(lines, 0);
    assert EndLast(lines)[0..] == EndLast(lines) && lines[0..] == lines;
  }

  /** Putting the symbol's own lines back where the lines of another body stand. */
  lemma SpanBack(lines: seq<string>, s: Symbol, others: seq<string>, there: Symbol)
    requires AreLines(lines) && 1 <= s.start <= s.end <= |lines| && others != []
    requires there.start == s.start && there.end == s.start - 1 + |others|
    ensures Spliced(lines[..s.start - 1] + others + EndLast(lines)[s.end..], there,
                    Join(EndLast(lines)[s.start - 1..s.end]))
            == EnsureNewline(Join(lines))
  {
    var ended, from, to := EndLast(lines), s.start - 1, s.end;
    var now := lines[..from] + others + ended[to..];
    assert now[..from] == ended[..from];
    assert now[from + |others|..] == ended[to..];
    JoinCut(ended, from, to);
    JoinEndLast(lines);
  }

  /** The function's own lines, as a snippet. */
  function SpanText(lines: seq<string>, s: Symbol): string
    requires SpanInside(lines, s)
  {
    Join(EndLast(lines)[s.start - 1..s.end])
  }

  lemma SpanTextIsBody(lines: seq<string>, s: Symbol)
    requires AreLines(lines) && SpanInside(lines, s)
    ensures Body(SpanText(lines, s)) == SpanText(lines, s)
  {
    hide Join, Body, EndLast;
    var span := EndLast(lines)[s.start - 1..s.end];
    EndLastShape(lines);
    AreLinesSlice(EndLast(lines), s.start - 1, s.end);
    assert span[0] == EndLast(lines)[s.start - 1] && span[|span| - 1] == EndLast(lines)[s.end - 1];
    BodyOfSpan(span);
  }

  /** The text of the second replacement. */
  lemma BackText(source: string, s: Symbol, body: string, there: Symbol, r: string)
    requires SpanInside(SplitLines(source), s) && EndsLine(body)
    requires there.start == s.start && there.end == s.start - 1 + |SplitLines(body)|
    requires SplitLines(r) == SplitLines(source)[..s.start - 1] + SplitLines(body)
                              + EndLast(SplitLines(source))[s.end..]
    ensures 1 <= there.start <= there.end <= |SplitLines(r)|
    ensures Spliced(SplitLines(r), there, Body(SpanText(SplitLines(source), s))) == EnsureNewline(source)
  {
    SplitShape(source);
    SplitShape(body);
    SpanBack(SplitLines(source), s, SplitLines(body), there);
    SpanTextIsBody(SplitLines(source), s);
  }

  /** The function is found again on all the lines of the snippet. */
  predicate FillsSnippet(node: Symbol, funcSource: string, there: Symbol) {
    there.start == node.start && there.end == node.start - 1 + |SplitLines(Body(funcSource))|
  }

  /** Counting the lines after the second replacement. */
  lemma BackCounts(parse: Parser, source: string, name: string, funcSource: string, r: string, node: Symbol, there: Symbol)
    requires LawfulParser(parse) && ReplaceFunction(parse, source, name, funcSource) == Ok(r)
    requires FindTop(parse(source).value, name) == Some(node) && FindTop(parse(r).value, name) == Some(there)
    requires SpanInside(SplitLines(source), node)
    requires ReplaceFunction(parse, r, name, SpanText(SplitLines(source), node)) == Ok(EnsureNewline(source))
    ensures there.end + 1 - there.start == |SplitLines(Body(funcSource))|
  {
    hide Join, SplitLines, Body, EndLast, FindTop, EnsureNewline;
    var lines := SplitLines(source);
    var span := EndLast(lines)[node.start - 1..node.end];
    ReplaceKeepsRest(parse, source, name, funcSource);
    ReplaceKeepsRest(parse, r, name, SpanText(lines, node));
    SplitShape(source);
    EndLastShape(lines);
    AreLinesSlice(EndLast(lines), node.start - 1, node.end);
    SpanTextIsBody(lines, node);
    SplitJoin(span);
    JoinEndLast(lines);
    SplitJoin(EndLast(lines));
    assert SplitLines(Body(SpanText(lines, node))) == span;
    assert |SplitLines(EnsureNewline(source))| == |lines|;
  }

  /** Main result: when the parser finds the function again within the snippet's lines, replacing
      it by its original lines gives the original file back, its last line ended, if and only if
      it was found on all of them: a snippet with a comment before the function is not undone.
      It is the very same file if and only if that file ended its last line as well. */
  lemma ReplaceBackRestores(parse: Parser, source: string, name: string, funcSource: string, r: string,
                            node: Symbol, there: Symbol)
    requires LawfulParser(parse) && ReplaceFunction(parse, source, name, funcSource) == Ok(r)
    requires FindTop(parse(source).value, name) == Some(node) && FindTop(parse(r).value, name) == Some(there)
    requires node.start <= there.start && there.end < node.start + |SplitLines(Body(funcSource))|
    requires SpanInside(SplitLines(source), node)
    requires parse(SpanText(SplitLines(source), node)).Some? && parse(EnsureNewline(source)).Some?
    ensures var back, whole := ReplaceFunction(parse, r, name, SpanText(SplitLines(source), node)),
                               there.isFunction && FillsSnippet(node, funcSource, there);
            && (back == Ok(EnsureNewline(source)) <==> whole)
            && (back == Ok(source) <==> whole && EndsLine(source))
  {
    hide SplitLines, Join, EndLast, Body, FindTop, SpanText;
    var back := ReplaceFunction(parse, r, name, SpanText(SplitLines(source), node));
    ReplaceKeepsRest(parse, source, name, funcSource);
    if back == Ok(EnsureNewline(source)) {
      BackCounts(parse, source, name, funcSource, r, node, there);
    }
    if FillsSnippet(node, funcSource, there) {
      BackText(source, node, Body(funcSource), there, r);
    }
  }

  // ---------------------------------------------------------------------
  // remove_symbol
  // ---------------------------------------------------------------------

  predicate IsSpace(c: char) {
    c == ' ' || '\t' <= c <= '\r' || '\U{1C}' <= c <= '\U{1F}'
  }

  /** `line.strip() == ""`. */
  predicate IsBlank(line: string) {
    forall i :: 0 <= i < |line| ==> IsSpace(line[i])
  }

  /** The end of the run of blank lines from `from` on. */
  function BlankEnd(lines: seq<string>, from: nat): (end: nat)
    requires from <= |lines|
    ensures from <= end <= |lines|
    ensures forall i :: from <= i < end ==> IsBlank(lines[i])
    ensures end < |lines| ==> !IsBlank(lines[end])
    decreases |lines| - from
  {
    if from < |lines| && IsBlank(lines[from]) then BlankEnd(lines, from + 1) else from
  }

  lemma BlankStep(lines: seq<string>, from: nat)
    requires from <= |lines|
    ensures BlankEnd(lines, from) == if from < |lines| && IsBlank(lines[from]) then BlankEnd(lines, from + 1) else from
  {
  }

  /** The lines before `from` and from `to` on, or one line break if there is no text left. */
  function Cut(lines: seq<string>, from: nat, to: nat): string
    requires from <= to <= |lines|
  {
    var merged := Join(lines[..from]) + Join(lines[to..]);
    if merged == [] then "\n" else merged
  }

  function RemoveTop(parse: Parser, source: string, name: string): Result<string, EditError>
    requires LawfulParser(parse)
  {
    if parse(source).None? then Err(SourceInvalid)
    else
      var node := FindTop(parse(source).value, name);
      if node.None? then Err(SymbolMissing)
      else
        assert LawfulAt(parse, source);
        var lines := SplitLines(source);
        Finalize(parse, Cut(lines, node.value.start - 1, BlankEnd(lines, node.value.end)))
  }

  method RemoveSymbol(parse: Parser, source: string, name: string) returns (r: Result<string, EditError>)
    requires LawfulParser(parse)
    ensures r == RemoveTop(parse, source, name)
  {
    hide Join, SplitLines, IsBlank, Cut, Finalize, FindTop, BlankEnd;
    if parse(source).None? {
      return Err(SourceInvalid);
    }
    var node := FindTop(parse(source).value, name);
    if node.None? {
      return Err(SymbolMissing);
    }
    assert LawfulAt(parse, source);
    var lines := SplitLines(source);
    var start, end := node.value.start, node.value.end;
    while end < |lines| && IsBlank(lines[end])
      invariant node.value.end <= end <= |lines|
      invariant BlankEnd(lines, node.value.end) == BlankEnd(lines, end)
    {
      BlankStep(lines, end);
      end := end + 1;
    }
    BlankStep(lines, end);
    r := Finalize(parse, Cut(lines, start - 1, end));
  }

  /** A removal is accepted if and only if the source parses, has a symbol of the name, and what is left
      of it parses. */
  lemma RemoveAccepted(parse: Parser, source: string, name: string)
    requires LawfulParser(parse)
    ensures RemoveTop(parse, source, name).Ok? <==>
              && parse(source).Some? && FindTop(parse(source).value, name).Some?
              && assert LawfulAt(parse, source);
                 var node, lines := FindTop(parse(source).value, name).value, SplitLines(source);
                 parse(EnsureNewline(Cut(lines, node.start - 1, BlankEnd(lines, node.end)))).Some?
  {
    hide Join, SplitLines, BlankEnd, Cut, EnsureNewline, FindTop;
    assert LawfulAt(parse, source);
  }

  /** Main result for `remove_symbol`: the symbol's lines and the whole run of blank lines
      after it go, and nothing else; a file left empty becomes one line break. */
  lemma RemoveKeepsRest(parse: Parser, source: string, name: string)
    requires LawfulParser(parse) && RemoveTop(parse, source, name).Ok?
    ensures assert LawfulAt(parse, source);
            var node, lines := FindTop(parse(source).value, name).value, SplitLines(source);
            var kept := lines[..node.start - 1] + EndLast(lines)[BlankEnd(lines, node.end)..];
            SplitLines(RemoveTop(parse, source, name).value) == if kept == [] then ["\n"] else kept
  {
    hide Join, SplitLines, EndLast, FindTop, Cut, EnsureNewline, BlankEnd;
    assert LawfulAt(parse, source);
    var node, lines := FindTop(parse(source).value, name).value, SplitLines(source);
    SplitShape(source);
    RemovedLines(lines, node.start - 1, BlankEnd(lines, node.end));
  }

  lemma NothingLeft(lines: seq<string>, from: nat, to: nat)
    requires AreLines(lines) && from <= to <= |lines|
    ensures Join(lines[..from]) + Join(lines[to..]) == [] <==> from == 0 && to == |lines|
  {
    if from > 0 {
      assert lines[..from][0] == lines[0];
    }
    if to < |lines| {
      assert lines[to..][0] == lines[to];
    }
  }

  lemma RemovedLines(lines: seq<string>, from: nat, to: nat)
    requires AreLines(lines) && from < to <= |lines|
    ensures var kept := lines[..from] + EndLast(lines)[to..];
            SplitLines(EnsureNewline(Cut(lines, from, to))) == if kept == [] then ["\n"] else kept
  {
    NothingLeft(lines, from, to);
    if from == 0 && to == |lines| {
      SplitJoin(["\n"]);
      assert Join(["\n"]) == "\n";
    } else {
      assert Join(lines[..from]) + [] + Join(lines[to..]) == Join(lines[..from]) + Join(lines[to..]);
      ReplacedLines(lines, from, to, []);
      assert lines[..from] + SplitLines([]) == lines[..from];
    }
  }
}
