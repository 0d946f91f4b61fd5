/** `dev_requirements.py`: requirements are read off a task's title and description, a card
    is generated to satisfy them, and they are verified against the generated source. */
module Requirements {
  import opened Text
  import Brackets
  import Splice

  datatype Kind = TextKind | DateKind | TimeKind

  datatype Requirement = Requirement(kind: Kind, description: string, expected: string)

  predicate SatisfiedBy(r: Requirement, source: string) {
    Contains(source, r.expected)
  }

  const DATE_MARKER := "toLocaleDateString"
  const TIME_MARKER := "toLocaleTimeString"

  // ---------------------------------------------------------------------
  // The patterns of the extractor (ASCII letters, digits and white space)
  // ---------------------------------------------------------------------

  predicate IsQuoteMark(c: char) {
    c in {'"', '\'', '\U{201C}', '\U{201D}', '\U{2018}', '\U{2019}'}
  }

  predicate IsWordChar(c: char) {
    c == '_' || '0' <= c <= '9' || 'a' <= c <= 'z' || 'A' <= c <= 'Z'
  }

  function Lower(s: string): (r: string)
    ensures |r| == |s|
  {
    seq(|s|, i requires 0 <= i < |s| => if 'A' <= s[i] <= 'Z' then (s[i] as int + 32) as char else s[i])
  }

  function StripSpaceLeft(s: string): string {
    if s != [] && Splice.IsSpace(s[0]) then StripSpaceLeft(s[1..]) else s
  }

  function StripSpaceRight(s: string): string {
    if s != [] && Splice.IsSpace(s[|s| - 1]) then StripSpaceRight(s[..|s| - 1]) else s
  }

  function Strip(s: string): string {
    StripSpaceRight(StripSpaceLeft(s))
  }

  predicate IsEdge(c: char) { c == ' ' || c == '.' }

  /** `text.strip(" .")`. */
  function StripEdges(s: string): string
    decreases |s|
  {
    if s != [] && IsEdge(s[0]) then StripEdges(s[1..])
    else if s != [] && IsEdge(s[|s| - 1]) then StripEdges(s[..|s| - 1])
    else s
  }

  /** `re.split(r"[\n;]+", text)`, up to empty pieces, which the extractor skips. */
  function Pieces(text: string): (r: seq<string>)
    ensures r != []
  {
    if text == [] then [""]
    else
      var rest := Pieces(text[1..]);
      if text[0] == '\n' || text[0] == ';' then [""] + rest
      else [[text[0]] + rest[0]] + rest[1..]
  }

  /** The distance to the next quotation mark, or the length of the text. */
  function NextQuote(s: string): (n: nat)
    ensures n <= |s| && (n < |s| ==> IsQuoteMark(s[n]))
    ensures forall i :: 0 <= i < n ==> !IsQuoteMark(s[i])
  {
    if s == [] || IsQuoteMark(s[0]) then 0 else 1 + NextQuote(s[1..])
  }

  /** The groups of `_QUOTE_RE.finditer(line)`: 1 to 80 characters between two marks. */
  function QuotedGroups(line: string): seq<string>
    decreases |line|
  {
    if line == [] then []
    else if IsQuoteMark(line[0]) then
      var n := NextQuote(line[1..]);
      if 1 <= n <= 80 && n + 1 < |line| then [line[1..n + 1]] + QuotedGroups(line[n + 2..])
      else QuotedGroups(line[1..])
    else QuotedGroups(line[1..])
  }

  /** `\b` at position `i`. */
  predicate Boundary(s: string, i: nat)
    requires i <= |s|
  {
    (i > 0 && IsWordChar(s[i - 1])) != (i < |s| && IsWordChar(s[i]))
  }

  /** `word\b` at position `i`. */
  predicate WordEndsAt(s: string, i: nat, word: string) {
    i + |word| <= |s| && s[i..i + |word|] == word && Boundary(s, i + |word|)
  }

  /** `\b(prefix)?\s*word\b`, searched in the text; "" stands for the absent prefix. */
  predicate Mentions(s: string, prefixes: seq<string>, word: string) {
    exists i | 0 <= i <= |s| ::
      Boundary(s, i) &&
      exists k | 0 <= k < |prefixes| ::
        OccursAt(s, prefixes[k], i) &&
        exists j | i + |prefixes[k]| <= j <= |s| ::
          WordEndsAt(s, j, word) && Splice.IsBlank(s[i + |prefixes[k]|..j])
  }

  predicate MentionsDate(s: string) {
    Mentions(s, ["", "current", "todays", "today's", "the"], "date")
  }

  predicate MentionsTime(s: string) {
    Mentions(s, ["", "current", "the"], "time")
  }

  /** `\b(card|section|banner|widget|component|page)\b`, searched in the text. */
  predicate MentionsWidget(s: string) {
    exists i | 0 <= i <= |s| ::
      Boundary(s, i) &&
      exists word | word in {"card", "section", "banner", "widget", "component", "page"} ::
        WordEndsAt(s, i, word)
  }

  /** The group of `_DISPLAY_RE.match(line)` on a stripped line: what follows the verb. */
  function DisplayPhrase(line: string, verbs: seq<string>): Option<string> {
    if verbs == [] then None
    else
      var n := |verbs[0]|;
      if n < |line| && Lower(line[..n]) == verbs[0] && Splice.IsSpace(line[n]) then
        Some(StripSpaceLeft(line[n..]))
      else DisplayPhrase(line, verbs[1..])
  }

  const VERBS := ["display", "show", "render", "add", "put"]

  // ---------------------------------------------------------------------
  // Extraction
  // ---------------------------------------------------------------------

  /** A requirement with the key under which it is recorded once. */
  datatype Candidate = Candidate(req: Requirement, key: string)

  function TextCandidate(marker: string): Candidate {
    Candidate(Requirement(TextKind, "Display the text \"" + marker + "\"", marker),
              "text:" + Lower(marker))
  }

  const DATE_CANDIDATE := Candidate(Requirement(DateKind, "Display the current date", DATE_MARKER), "date")
  const TIME_CANDIDATE := Candidate(Requirement(TimeKind, "Display the current time", TIME_MARKER), "time")

  function Literals(groups: seq<string>): seq<Candidate> {
    if groups == [] then []
    else
      (if Strip(groups[0]) == [] then [] else [TextCandidate(Strip(groups[0]))])
      + Literals(groups[1..])
  }

  /** What one line asks for, in the order it is recorded. */
  function LineCandidates(raw: string): seq<Candidate> {
    var line := Strip(raw);
    if line == [] then []
    else
      var literals := Literals(QuotedGroups(line));
      literals + MomentCandidates(Lower(line))
      + (if literals == [] then PhraseCandidates(line) else [])
  }

  function MomentCandidates(low: string): seq<Candidate> {
    (if MentionsDate(low) then [DATE_CANDIDATE] else [])
    + (if MentionsTime(low) then [TIME_CANDIDATE] else [])
  }

  function PhraseCandidates(line: string): seq<Candidate> {
    match DisplayPhrase(line, VERBS)
    case None => []
    case Some(raw) =>
      var phrase := StripEdges(raw);
      var low := Lower(phrase);
      if phrase == [] || MentionsDate(low) || MentionsTime(low) || MentionsWidget(low) then []
      else [TextCandidate(phrase)]
  }

  function AllCandidates(lines: seq<string>): seq<Candidate> {
    if lines == [] then []
    else AllCandidates(lines[..|lines| - 1]) + LineCandidates(lines[|lines| - 1])
  }

  /** The first candidate of every key, in order. */
  function FirstOfEachKey(cs: seq<Candidate>): (r: seq<Candidate>)
    ensures forall c :: c in r ==> c in cs
  {
    if cs == [] then []
    else
      var before := FirstOfEachKey(cs[..|cs| - 1]);
      var last := cs[|cs| - 1];
      if HasKey(before, last.key) then before else before + [last]
  }

  predicate HasKey(cs: seq<Candidate>, key: string) {
    exists i :: 0 <= i < |cs| && cs[i].key == key
  }

  function TaskLines(title: string, description: Option<string>): seq<string> {
    Pieces(title + "\n" + (if description.Some? then description.value else ""))
  }

  function Extracted(title: string, description: Option<string>): seq<Candidate> {
    FirstOfEachKey(AllCandidates(TaskLines(title, description)))
  }

  /** The state of the extractor after a list of candidates was offered. */
  ghost predicate Recorded(reqs: seq<Candidate>, seen: set<string>, offered: seq<Candidate>) {
    reqs == FirstOfEachKey(offered) && forall k :: k in seen <==> HasKey(reqs, k)
  }

  /** Recording a candidate unless its key was seen. */
  method Add(reqs: seq<Candidate>, seen: set<string>, c: Candidate, ghost offered: seq<Candidate>)
    returns (reqs': seq<Candidate>, seen': set<string>)
    requires Recorded(reqs, seen, offered)
    ensures Recorded(reqs', seen', offered + [c])
  {
    assert (offered + [c])[..|offered|] == offered;
    if c.key !in seen {
      reqs', seen' := reqs + [c], seen + {c.key};
      forall k ensures k in seen' <==> HasKey(reqs', k) {
        if k == c.key { assert reqs'[|reqs|].key == k; }
        if HasKey(reqs, k) {
          var i :| 0 <= i < |reqs| && reqs[i].key == k;
          assert reqs'[i].key == k;
        }
      }
    } else {
      reqs', seen' := reqs, seen;
    }
  }

  method AddLiterals(reqs: seq<Candidate>, seen: set<string>, groups: seq<string>, ghost offered: seq<Candidate>)
    returns (reqs': seq<Candidate>, seen': set<string>, quoted: bool)
    requires Recorded(reqs, seen, offered)
    ensures Recorded(reqs', seen', offered + Literals(groups))
    ensures quoted <==> Literals(groups) != []
  {
    reqs', seen', quoted := reqs, seen, false;
    assert groups[..0] == [] && offered + [] == offered;
    for g := 0 to |groups|
      invariant quoted <==> Literals(groups[..g]) != []
      invariant Recorded(reqs', seen', offered + Literals(groups[..g]))
    {
      ghost var sofar := offered + Literals(groups[..g]);
      LiteralsSnoc(groups[..g], groups[g]);
      assert groups[..g + 1] == groups[..g] + [groups[g]];
      var lit := Strip(groups[g]);
      if lit != [] {
        quoted := true;
        reqs', seen' := Add(reqs', seen', TextCandidate(lit), sofar);
        assert sofar + [TextCandidate(lit)] == offered + Literals(groups[..g + 1]);
      } else {
        assert Literals(groups[..g + 1]) == Literals(groups[..g]);
      }
    }
    assert groups[..|groups|] == groups;
  }

  method AddMoments(reqs: seq<Candidate>, seen: set<string>, low: string, ghost offered: seq<Candidate>)
    returns (reqs': seq<Candidate>, seen': set<string>)
    requires Recorded(reqs, seen, offered)
    ensures Recorded(reqs', seen', offered + MomentCandidates(low))
  {
    reqs', seen' := reqs, seen;
    ghost var told: seq<Candidate> := [];
    assert offered + told == offered;
    if MentionsDate(low) {
      reqs', seen' := Add(reqs', seen', DATE_CANDIDATE, offered);
      told := [DATE_CANDIDATE];
    }
    if MentionsTime(low) {
      reqs', seen' := Add(reqs', seen', TIME_CANDIDATE, offered + told);
      assert offered + told + [TIME_CANDIDATE] == offered + (told + [TIME_CANDIDATE]);
      told := told + [TIME_CANDIDATE];
    }
    assert told == MomentCandidates(low);
  }

  method AddPhrase(reqs: seq<Candidate>, seen: set<string>, line: string, ghost offered: seq<Candidate>)
    returns (reqs': seq<Candidate>, seen': set<string>)
    requires Recorded(reqs, seen, offered)
    ensures Recorded(reqs', seen', offered + PhraseCandidates(line))
  {
    reqs', seen' := reqs, seen;
    assert offered + [] == offered;
    var m := DisplayPhrase(line, VERBS);
    if m.Some? {
      var phrase := StripEdges(m.value);
      var plow := Lower(phrase);
      if phrase != [] && !MentionsDate(plow) && !MentionsTime(plow) && !MentionsWidget(plow) {
        reqs', seen' := Add(reqs', seen', TextCandidate(phrase), offered);
      }
    }
  }

  method AddLine(reqs: seq<Candidate>, seen: set<string>, raw: string, ghost offered: seq<Candidate>)
    returns (reqs': seq<Candidate>, seen': set<string>)
    requires Recorded(reqs, seen, offered)
    ensures Recorded(reqs', seen', offered + LineCandidates(raw))
  {
    var line := Strip(raw);
    if line == [] {
      assert offered + [] == offered;
      return reqs, seen;
    }
    var groups := QuotedGroups(line);
    var quoted: bool;
    reqs', seen', quoted := AddLiterals(reqs, seen, groups, offered);
    ghost var literals, moments := Literals(groups), MomentCandidates(Lower(line));
    reqs', seen' := AddMoments(reqs', seen', Lower(line), offered + literals);
    ghost var phrases := if literals == [] then PhraseCandidates(line) else [];
    Associative(offered, literals, moments, phrases);
    if !quoted {
      reqs', seen' := AddPhrase(reqs', seen', line, offered + literals + moments);
    }
  }

  lemma Associative(a: seq<Candidate>, b: seq<Candidate>, c: seq<Candidate>, d: seq<Candidate>)
    ensures a + b + c + d == a + (b + c + d)
    ensures d == [] ==> a + b + c == a + (b + c + d)
  {
    if d == [] {
      assert b + c + d == b + c;
    }
  }

  method Extract(title: string, description: Option<string>) returns (reqs: seq<Candidate>)
    ensures reqs == Extracted(title, description)
  {
    var lines := TaskLines(title, description);
    reqs := [];
    var seen: set<string> := {};
    for i := 0 to |lines|
      invariant Recorded(reqs, seen, AllCandidates(lines[..i]))
    {
      assert lines[..i + 1][..i] == lines[..i];
      reqs, seen := AddLine(reqs, seen, lines[i], AllCandidates(lines[..i]));
    }
    assert lines[..|lines|] == lines;
  }

  lemma {:induction false} LiteralsSnoc(groups: seq<string>, g: string)
    ensures Literals(groups + [g])
            == Literals(groups) + if Strip(g) == [] then [] else [TextCandidate(Strip(g))]
  {
    if groups != [] {
      assert (groups + [g])[1..] == groups[1..] + [g];
      LiteralsSnoc(groups[1..], g);
    }
  }

  // ---------------------------------------------------------------------
  // What extraction guarantees
  // ---------------------------------------------------------------------

  /** A key determines the requirement, up to the case of a text marker. */
  ghost predicate WellFormed(c: Candidate) {
    match c.req.kind
    case DateKind => c == DATE_CANDIDATE
    case TimeKind => c == TIME_CANDIDATE
    case TextKind => c.req.expected != [] && c == TextCandidate(c.req.expected)
  }

  lemma {:induction false} LiteralsWellFormed(groups: seq<string>)
    ensures forall c :: c in Literals(groups) ==> WellFormed(c)
    ensures forall g :: 0 <= g < |groups| && Strip(groups[g]) != [] ==>
              TextCandidate(Strip(groups[g])) in Literals(groups)
  {
    if groups != [] {
      LiteralsWellFormed(groups[1..]);
      forall g | 0 <= g < |groups| && Strip(groups[g]) != []
        ensures TextCandidate(Strip(groups[g])) in Literals(groups)
      {
        if g > 0 { assert groups[g] == groups[1..][g - 1]; }
      }
    }
  }

  lemma {:induction false} CandidatesWellFormed(lines: seq<string>)
    ensures forall c :: c in AllCandidates(lines) ==> WellFormed(c)
  {
    if lines != [] {
      CandidatesWellFormed(lines[..|lines| - 1]);
      LineWellFormed(lines[|lines| - 1]);
    }
  }

  lemma {:induction false} LineIsOffered(lines: seq<string>, i: nat, c: Candidate)
    requires i < |lines| && c in LineCandidates(lines[i])
    ensures c in AllCandidates(lines)
  {
    if i < |lines| - 1 {
      LineIsOffered(lines[..|lines| - 1], i, c);
    }
  }

  lemma LineWellFormed(raw: string)
    ensures forall c :: c in LineCandidates(raw) ==> WellFormed(c)
  {
    LiteralsWellFormed(QuotedGroups(Strip(raw)));
  }

  /** The candidate is the first of its key. */
  predicate IsFirst(cs: seq<Candidate>, m: nat, c: Candidate) {
    m < |cs| && cs[m] == c && forall l :: 0 <= l < m ==> cs[l].key != c.key
  }

  /** Every key offered is recorded, and recorded once, as it was offered first. */
  lemma {:induction false} FirstOfEachKeyExact(cs: seq<Candidate>)
    ensures var r := FirstOfEachKey(cs);
            && (forall c :: c in cs ==> HasKey(r, c.key))
            && (forall i, j :: 0 <= i < j < |r| ==> r[i].key != r[j].key)
            && (forall c :: c in r ==> exists m :: 0 <= m < |cs| && IsFirst(cs, m, c))
  {
    if cs != [] {
      var n := |cs| - 1;
      var before, r := FirstOfEachKey(cs[..n]), FirstOfEachKey(cs);
      FirstOfEachKeyExact(cs[..n]);
      assert before <= r;
      forall c | c in cs ensures HasKey(r, c.key) {
        if c in cs[..n] {
          var i :| 0 <= i < |before| && before[i].key == c.key;
          assert r[i].key == c.key;
        } else {
          assert c == cs[n];
          if !HasKey(before, c.key) { assert r[|r| - 1].key == c.key; }
        }
      }
      forall c | c in r ensures exists m :: 0 <= m < |cs| && IsFirst(cs, m, c) {
        if c in before {
          var m :| 0 <= m < n && IsFirst(cs[..n], m, c);
          assert IsFirst(cs, m, c);
        } else {
          assert forall l :: 0 <= l < n ==> cs[l] in cs[..n];
          assert IsFirst(cs, n, c);
        }
      }
    }
  }

  /** Group `g` of line `i`, stripped. */
  predicate IsQuotedLiteral(lines: seq<string>, i: nat, g: nat, literal: string) {
    i < |lines| && g < |QuotedGroups(Strip(lines[i]))| && literal != []
    && literal == Strip(QuotedGroups(Strip(lines[i]))[g])
  }

  lemma LiteralIsOffered(lines: seq<string>, i: nat, g: nat, literal: string)
    requires IsQuotedLiteral(lines, i, g, literal)
    ensures TextCandidate(literal) in AllCandidates(lines)
  {
    var groups := QuotedGroups(Strip(lines[i]));
    LiteralsWellFormed(groups);
    assert TextCandidate(Strip(groups[g])) in Literals(groups);
    LineIsOffered(lines, i, TextCandidate(literal));
  }

  /** Main result of extraction: a task has a date requirement if and only if one of its lines is
      about the date, and likewise for the time; every text that a line asks for, by quoting it or,
      when it quotes none, by naming it after a display verb, is the marker of a requirement up to
      case, and there is no other text requirement; requirements have distinct keys. */
  lemma ExtractionIsComplete(title: string, description: Option<string>)
    ensures var r, lines := Extracted(title, description), TaskLines(title, description);
            && (forall c :: c in r ==> WellFormed(c))
            && (forall i, j :: 0 <= i < j < |r| ==> r[i].key != r[j].key)
            && (forall i, g, literal :: IsQuotedLiteral(lines, i, g, literal) ==>
                  HasKey(r, "text:" + Lower(literal)))
            && (HasKey(r, "date") <==> exists i :: 0 <= i < |lines| && AsksDate(lines[i]))
            && (HasKey(r, "time") <==> exists i :: 0 <= i < |lines| && AsksTime(lines[i]))
            && (forall i, marker :: 0 <= i < |lines| && AsksText(lines[i], marker) ==> HasKey(r, "text:" + Lower(marker)))
            && (forall c :: c in r && c.req.kind == DateKind ==> c.req.expected == "toLocaleDateString")
            && (forall c :: c in r && c.req.kind == TimeKind ==> c.req.expected == "toLocaleTimeString")
            && (forall c :: c in r && c.req.kind == TextKind ==> exists i :: 0 <= i < |lines| && AsksText(lines[i], c.req.expected))
  {
    var r, lines := Extracted(title, description), TaskLines(title, description);
    CandidatesWellFormed(lines);
    FirstOfEachKeyExact(AllCandidates(lines));
    forall i, g, literal | IsQuotedLiteral(lines, i, g, literal)
      ensures HasKey(r, "text:" + Lower(literal))
    {
      LiteralIsOffered(lines, i, g, literal);
    }
    hide LineCandidates, AsksDate, AsksTime, AsksText;
    forall i | 0 <= i < |lines|
      ensures AsksDate(lines[i]) ==> HasKey(r, "date")
      ensures AsksTime(lines[i]) ==> HasKey(r, "time")
      ensures forall marker :: AsksText(lines[i], marker) ==> HasKey(r, "text:" + Lower(marker))
    {
      LineAsks(lines, i);
    }
    forall c | c in r
      ensures exists i :: 0 <= i < |lines| && AsksFor(lines[i], c)
    {
      OfferedByLine(lines, c);
    }
    hide WellFormed;
    KeysTellKinds(r, lines);
  }

  lemma KeysTellKinds(r: seq<Candidate>, lines: seq<string>)
    requires forall c :: c in r ==> exists i :: 0 <= i < |lines| && AsksFor(lines[i], c)
    ensures HasKey(r, "date") ==> exists i :: 0 <= i < |lines| && AsksDate(lines[i])
    ensures HasKey(r, "time") ==> exists i :: 0 <= i < |lines| && AsksTime(lines[i])
    ensures forall c :: c in r && c.req.kind == TextKind ==> exists i :: 0 <= i < |lines| && AsksText(lines[i], c.req.expected)
  {
    hide AsksDate, AsksTime, AsksText;
    forall c | c in r
      ensures c.key == "date" ==> exists i :: 0 <= i < |lines| && AsksDate(lines[i])
      ensures c.key == "time" ==> exists i :: 0 <= i < |lines| && AsksTime(lines[i])
      ensures c.req.kind == TextKind ==> exists i :: 0 <= i < |lines| && AsksText(lines[i], c.req.expected)
    {
      var i :| 0 <= i < |lines| && AsksFor(lines[i], c);
      TextKeys(c);
    }
  }

  lemma TextKeys(c: Candidate)
    ensures c == TextCandidate(c.req.expected) ==> c.key != "date" && c.key != "time"
  {
    if c == TextCandidate(c.req.expected) {
      assert c.key[1] == 'e';
    }
  }

  // What a line asks for -------------------------------------------------

  predicate AsksDate(line: string) {
    MentionsDate(Lower(Strip(line)))
  }

  predicate AsksTime(line: string) {
    MentionsTime(Lower(Strip(line)))
  }

  /** The marker is a literal that the line quotes. */
  predicate Quotes(line: string, marker: string) {
    marker != [] && exists g :: 0 <= g < |QuotedGroups(Strip(line))| && Strip(QuotedGroups(Strip(line))[g]) == marker
  }

  /** The marker is the phrase of a line that starts with a display verb, not about a date, a time
      or a widget. */
  predicate Names(line: string, marker: string) {
    && DisplayPhrase(Strip(line), VERBS).Some? && marker == StripEdges(DisplayPhrase(Strip(line), VERBS).value)
    && marker != [] && !MentionsDate(Lower(marker)) && !MentionsTime(Lower(marker)) && !MentionsWidget(Lower(marker))
  }

  /** The line asks for a text: for each that it quotes, or for the one it names if it quotes none. */
  ghost predicate AsksText(line: string, marker: string) {
    Quotes(line, marker) || (Names(line, marker) && forall other :: !Quotes(line, other))
  }

  /** The candidate is what the line asks for. */
  ghost predicate AsksFor(line: string, c: Candidate) {
    match c.req.kind
    case DateKind => c == DATE_CANDIDATE && AsksDate(line)
    case TimeKind => c == TIME_CANDIDATE && AsksTime(line)
    case TextKind => c == TextCandidate(c.req.expected) && AsksText(line, c.req.expected)
  }

  lemma {:induction false} LiteralsExactly(groups: seq<string>, c: Candidate)
    ensures c in Literals(groups) <==>
              exists g :: 0 <= g < |groups| && Strip(groups[g]) != [] && c == TextCandidate(Strip(groups[g]))
  {
    if groups != [] {
      LiteralsExactly(groups[1..], c);
      if c in Literals(groups[1..]) {
        var g :| 0 <= g < |groups[1..]| && Strip(groups[1..][g]) != [] && c == TextCandidate(Strip(groups[1..][g]));
        assert groups[g + 1] == groups[1..][g];
      }
      if g :| 0 <= g < |groups| && Strip(groups[g]) != [] && c == TextCandidate(Strip(groups[g])) {
        assert g > 0 ==> groups[1..][g - 1] == groups[g];
      }
    }
  }

  lemma LiteralsAreQuoted(line: string)
    ensures forall c :: c in Literals(QuotedGroups(Strip(line))) <==> c == TextCandidate(c.req.expected) && Quotes(line, c.req.expected)
    ensures Literals(QuotedGroups(Strip(line))) == [] <==> forall other :: !Quotes(line, other)
  {
    var literals := Literals(QuotedGroups(Strip(line)));
    hide Strip, QuotedGroups, Literals;
    forall c ensures c in literals <==> c == TextCandidate(c.req.expected) && Quotes(line, c.req.expected) {
      LiteralsExactly(QuotedGroups(Strip(line)), c);
    }
    if other :| Quotes(line, other) {
      assert TextCandidate(other) in literals;
    }
    if literals != [] {
      assert literals[0] in literals;
    }
  }

  lemma {:induction false} OfferedByLine(lines: seq<string>, c: Candidate)
    requires c in AllCandidates(lines)
    ensures exists i :: 0 <= i < |lines| && AsksFor(lines[i], c)
  {
    hide LineCandidates, AsksFor;
    var n := |lines| - 1;
    if c in AllCandidates(lines[..n]) {
      OfferedByLine(lines[..n], c);
      var i :| 0 <= i < n && AsksFor(lines[..n][i], c);
      assert lines[i] == lines[..n][i];
    } else {
      LineOffers(lines[n], c);
    }
  }

  /** A line offers exactly what it asks for. */
  lemma LineOffers(line: string, c: Candidate)
    ensures c in LineCandidates(line) <==> AsksFor(line, c)
  {
    hide Strip, QuotedGroups, Literals, MentionsDate, MentionsTime, MentionsWidget, DisplayPhrase, StripEdges;
    LiteralsAreQuoted(line);
    if Strip(line) == [] {
      NothingAsked(line);
    }
  }

  lemma NothingAsked(line: string)
    requires Strip(line) == []
    ensures !AsksDate(line) && !AsksTime(line) && forall marker :: !AsksText(line, marker)
  {
    assert Lower(Strip(line)) == [];
  }

  lemma LineAsks(lines: seq<string>, i: nat)
    requires i < |lines|
    ensures var r := FirstOfEachKey(AllCandidates(lines));
            && (AsksDate(lines[i]) ==> HasKey(r, "date")) && (AsksTime(lines[i]) ==> HasKey(r, "time"))
            && forall marker :: AsksText(lines[i], marker) ==> HasKey(r, "text:" + Lower(marker))
  {
    hide LineCandidates, AsksDate, AsksTime, AsksText;
    var r := FirstOfEachKey(AllCandidates(lines));
    forall c | AsksFor(lines[i], c) ensures HasKey(r, c.key) {
      LineOffers(lines[i], c);
      LineIsOffered(lines, i, c);
      FirstOfEachKeyExact(AllCandidates(lines));
    }
    assert AsksDate(lines[i]) ==> AsksFor(lines[i], DATE_CANDIDATE);
    assert AsksTime(lines[i]) ==> AsksFor(lines[i], TIME_CANDIDATE);
    forall marker | AsksText(lines[i], marker) ensures HasKey(r, "text:" + Lower(marker)) {
      assert AsksFor(lines[i], TextCandidate(marker));
    }
  }

  // What the patterns mean -----------------------------------------------

  /** The word stands alone at `i`. */
  predicate WordAt(s: string, i: nat, word: string) {
    OccursAt(s, word, i) && Boundary(s, i) && Boundary(s, i + |word|)
  }

  predicate HasWord(s: string, words: seq<string>) {
    exists i, k :: 0 <= i <= |s| && 0 <= k < |words| && WordAt(s, i, words[k])
  }

  /** The pattern matches with these prefix and word positions. */
  predicate FoundAt(s: string, i: nat, prefix: string, j: nat, word: string) {
    && i + |prefix| <= j <= |s| && Boundary(s, i) && OccursAt(s, prefix, i) && WordEndsAt(s, j, word)
    && Splice.IsBlank(s[i + |prefix|..j])
  }

  lemma MentionsFound(s: string, prefixes: seq<string>, word: string)
    ensures Mentions(s, prefixes, word) <==>
              exists i: nat, k: nat, j: nat :: i <= |s| && k < |prefixes| && FoundAt(s, i, prefixes[k], j, word)
  {
    if Mentions(s, prefixes, word) {
      var i :| 0 <= i <= |s| && Boundary(s, i) && exists k | 0 <= k < |prefixes| ::
        OccursAt(s, prefixes[k], i) &&
        exists j | i + |prefixes[k]| <= j <= |s| :: WordEndsAt(s, j, word) && Splice.IsBlank(s[i + |prefixes[k]|..j]);
      var k :| 0 <= k < |prefixes| && OccursAt(s, prefixes[k], i) &&
        exists j | i + |prefixes[k]| <= j <= |s| :: WordEndsAt(s, j, word) && Splice.IsBlank(s[i + |prefixes[k]|..j]);
      var j :| i + |prefixes[k]| <= j <= |s| && WordEndsAt(s, j, word) && Splice.IsBlank(s[i + |prefixes[k]|..j]);
      assert FoundAt(s, i, prefixes[k], j, word);
    }
  }

  /** A word after a blank is found without its prefix. */
  lemma FoundAlone(s: string, i: nat, prefix: string, j: nat, word: string)
    requires FoundAt(s, i, prefix, j, word) && word != [] && IsWordChar(word[0])
    ensures WordAt(s, j, word) || WordAt(s, i, prefix + word)
  {
    if j == i + |prefix| {
      Together(s, prefix, word, i);
    } else {
      var gap := s[i + |prefix|..j];
      assert Splice.IsSpace(gap[|gap| - 1]) && gap[|gap| - 1] == s[j - 1];
      assert s[j] == word[0];
    }
  }

  /** The white space in the pattern makes no difference: it finds the word alone, or run together
      with one of the prefixes. */
  lemma MentionsExactly(s: string, prefixes: seq<string>, word: string)
    requires prefixes != [] && prefixes[0] == "" && word != [] && IsWordChar(word[0])
    ensures Mentions(s, prefixes, word) <==> exists i, k :: 0 <= i <= |s| && 0 <= k < |prefixes| && WordAt(s, i, prefixes[k] + word)
  {
    hide Mentions, WordAt, FoundAt;
    MentionsFound(s, prefixes, word);
    if i, k :| 0 <= i <= |s| && 0 <= k < |prefixes| && WordAt(s, i, prefixes[k] + word) {
      FoundTogether(s, i, prefixes[k], word);
    }
    if i: nat, k: nat, j: nat :| i <= |s| && k < |prefixes| && FoundAt(s, i, prefixes[k], j, word) {
      FoundAlone(s, i, prefixes[k], j, word);
      assert prefixes[0] + word == word;
      assert WordAt(s, j, prefixes[0] + word) || WordAt(s, i, prefixes[k] + word);
      assert j <= |s| by { WithinText(s, i, prefixes[k], j, word); }
    }
  }

  lemma WithinText(s: string, i: nat, prefix: string, j: nat, word: string)
    requires FoundAt(s, i, prefix, j, word)
    ensures j <= |s|
  {
  }

  lemma Together(s: string, prefix: string, word: string, i: nat)
    requires OccursAt(s, prefix, i) && OccursAt(s, word, i + |prefix|)
    ensures OccursAt(s, prefix + word, i)
  {
  }

  lemma FoundTogether(s: string, i: nat, prefix: string, word: string)
    requires i <= |s| && WordAt(s, i, prefix + word)
    ensures FoundAt(s, i, prefix, i + |prefix|, word)
  {
    var j := i + |prefix|;
    assert s[i..i + |prefix + word|][..|prefix|] == s[i..j];
    assert s[i..i + |prefix + word|][|prefix|..] == s[j..j + |word|];
    assert s[j..j] == [];
  }

  /** And a phrase is about a widget when it has one of these. */
  lemma WidgetWords(s: string)
    ensures MentionsWidget(s) <==> HasWord(s, ["card", "section", "banner", "widget", "component", "page"])
  {
    hide WordEndsAt, Boundary, WordAt;
    var words := ["card", "section", "banner", "widget", "component", "page"];
    var widgets := {"card", "section", "banner", "widget", "component", "page"};
    if MentionsWidget(s) {
      var i: nat :| i <= |s| && Boundary(s, i) && exists word | word in widgets :: WordEndsAt(s, i, word);
      var word :| word in widgets && WordEndsAt(s, i, word);
      EndsIsAt(s, i, word);
      var k := WidgetIndex(word);
      assert WordAt(s, i, words[k]);
    }
    if i: nat, k: nat :| i <= |s| && k < |words| && WordAt(s, i, words[k]) {
      EndsIsAt(s, i, words[k]);
      assert words[k] in widgets;
    }
  }

  lemma EndsIsAt(s: string, i: nat, word: string)
    requires i <= |s|
    ensures WordAt(s, i, word) <==> Boundary(s, i) && WordEndsAt(s, i, word)
  {
  }

  lemma WidgetIndex(word: string) returns (k: nat)
    requires word in {"card", "section", "banner", "widget", "component", "page"}
    ensures k < 6 && ["card", "section", "banner", "widget", "component", "page"][k] == word
  {
    k := if word == "card" then 0 else if word == "section" then 1 else if word == "banner" then 2
         else if word == "widget" then 3 else if word == "component" then 4 else 5;
  }

  /** A run of 1 to `n` characters between two marks, at `i`. */
  predicate QuotedAt(line: string, i: nat, n: nat) {
    && 1 <= n <= 80 && i + n + 1 < |line| && IsQuoteMark(line[i]) && IsQuoteMark(line[i + n + 1])
    && forall k :: i < k <= i + n ==> !IsQuoteMark(line[k])
  }

  /** The first group is the leftmost one, and the search goes on behind it. */
  lemma {:induction false} FirstQuoted(line: string, i: nat, n: nat)
    requires QuotedAt(line, i, n) && forall h: nat, m: nat :: h < i ==> !QuotedAt(line, h, m)
    ensures QuotedGroups(line) == [line[i + 1..i + 1 + n]] + QuotedGroups(line[i + n + 2..])
    decreases |line|
  {
    if i == 0 {
      assert forall k :: 0 <= k < n ==> line[1..][k] == line[k + 1];
      assert line[1..][n] == line[n + 1];
    } else {
      QuoteCloses(line);
      forall h: nat, m: nat | h < i - 1 ensures !QuotedAt(line[1..], h, m) {
        QuotedLater(line, h, m);
      }
      QuotedLater(line, i - 1, n);
      FirstQuoted(line[1..], i - 1, n);
      assert line[1..][i..i + n] == line[i + 1..i + 1 + n] && line[1..][i + n + 1..] == line[i + n + 2..];
    }
  }

  lemma QuoteCloses(line: string)
    requires line != []
    ensures var n := NextQuote(line[1..]);
            IsQuoteMark(line[0]) && 1 <= n <= 80 && n + 1 < |line| ==> QuotedAt(line, 0, n)
  {
    assert forall k :: 0 <= k < |line| - 1 ==> line[1..][k] == line[k + 1];
  }

  lemma QuotedLater(line: string, i: nat, n: nat)
    requires line != []
    ensures QuotedAt(line[1..], i, n) <==> QuotedAt(line, i + 1, n)
  {
    assert forall k :: 0 <= k < |line| - 1 ==> line[1..][k] == line[k + 1];
    if QuotedAt(line[1..], i, n) {
      assert forall k :: i + 1 < k <= i + 1 + n ==> line[k] == line[1..][k - 1];
    }
  }

  /** And there is none when nothing is quoted. */
  lemma {:induction false} NoneQuoted(line: string)
    requires forall i: nat, n: nat :: !QuotedAt(line, i, n)
    ensures QuotedGroups(line) == []
    decreases |line|
  {
    if line != [] {
      QuoteCloses(line);
      forall i: nat, n: nat ensures !QuotedAt(line[1..], i, n) {
        QuotedLater(line, i, n);
      }
      NoneQuoted(line[1..]);
    }
  }

  /** The pieces, with a separator between any two of them. */
  function Rejoined(pieces: seq<string>, separators: string): string
    requires |pieces| == |separators| + 1
  {
    if separators == [] then pieces[0] else pieces[0] + [separators[0]] + Rejoined(pieces[1..], separators[1..])
  }

  predicate IsSeparator(c: char) { c == '\n' || c == ';' }

  /** Cutting at line breaks and semicolons, and nowhere else, loses nothing. */
  lemma {:induction false} PiecesExactly(text: string) returns (separators: string)
    ensures |Pieces(text)| == |separators| + 1 && Rejoined(Pieces(text), separators) == text
    ensures forall k :: 0 <= k < |separators| ==> IsSeparator(separators[k])
    ensures forall k, i :: 0 <= k < |Pieces(text)| && 0 <= i < |Pieces(text)[k]| ==> !IsSeparator(Pieces(text)[k][i])
  {
    if text == [] {
      return [];
    }
    var rest := PiecesExactly(text[1..]);
    assert text == [text[0]] + text[1..];
    if IsSeparator(text[0]) {
      separators := [text[0]] + rest;
      assert Pieces(text)[1..] == Pieces(text[1..]);
    } else {
      separators := rest;
      assert Pieces(text)[1..] == Pieces(text[1..])[1..];
    }
  }

  /** The lines of a task are those of its title and its description, if it has one. */
  lemma TaskLinesExactly(title: string, description: Option<string>) returns (separators: string)
    ensures |TaskLines(title, description)| == |separators| + 1
    ensures Rejoined(TaskLines(title, description), separators)
            == title + "\n" + match description case None => "" case Some(text) => text
    ensures forall k :: 0 <= k < |separators| ==> IsSeparator(separators[k])
  {
    separators := PiecesExactly(title + "\n" + (if description.Some? then description.value else ""));
  }

  /** What is left of a stripped text, and that only white space is stripped. */
  lemma {:induction false} StripExactly(s: string) returns (before: string, after: string)
    ensures s == before + Strip(s) + after && Splice.IsBlank(before) && Splice.IsBlank(after)
    ensures Strip(s) != [] ==> !Splice.IsSpace(Strip(s)[0]) && !Splice.IsSpace(Strip(s)[|Strip(s)| - 1])
  {
    before := StripLeftExactly(s);
    after := StripRightExactly(StripSpaceLeft(s));
  }

  lemma {:induction false} StripLeftExactly(s: string) returns (before: string)
    ensures s == before + StripSpaceLeft(s) && Splice.IsBlank(before)
    ensures StripSpaceLeft(s) != [] ==> !Splice.IsSpace(StripSpaceLeft(s)[0])
  {
    before := [];
    if s != [] && Splice.IsSpace(s[0]) {
      before := StripLeftExactly(s[1..]);
      before := [s[0]] + before;
      assert s == [s[0]] + s[1..];
    }
  }

  lemma {:induction false} StripRightExactly(s: string) returns (after: string)
    ensures s == StripSpaceRight(s) + after && Splice.IsBlank(after) && StripSpaceRight(s) <= s
    ensures StripSpaceRight(s) != [] ==> !Splice.IsSpace(StripSpaceRight(s)[|StripSpaceRight(s)| - 1])
  {
    after := [];
    if s != [] && Splice.IsSpace(s[|s| - 1]) {
      after := StripRightExactly(s[..|s| - 1]);
      after := after + [s[|s| - 1]];
      assert s == s[..|s| - 1] + [s[|s| - 1]];
    }
  }

  /** The phrase is what follows a display verb, in any case, and a blank. */
  lemma PhraseExactly(line: string)
    ensures DisplayPhrase(line, VERBS).Some? <==>
              exists v :: v in ["display", "show", "render", "add", "put"] && |v| < |line| && Lower(line[..|v|]) == v && Splice.IsSpace(line[|v|])
    ensures DisplayPhrase(line, VERBS).Some? ==>
              exists v :: v in ["display", "show", "render", "add", "put"] && |v| < |line| && Lower(line[..|v|]) == v && Splice.IsSpace(line[|v|])
                          && DisplayPhrase(line, VERBS).value == StripSpaceLeft(line[|v|..])
  {
    PhraseOf(line, VERBS);
  }

  lemma {:induction false} PhraseOf(line: string, verbs: seq<string>)
    ensures DisplayPhrase(line, verbs).Some? <==>
              exists v :: v in verbs && |v| < |line| && Lower(line[..|v|]) == v && Splice.IsSpace(line[|v|])
    ensures DisplayPhrase(line, verbs).Some? ==>
              exists v :: v in verbs && |v| < |line| && Lower(line[..|v|]) == v && Splice.IsSpace(line[|v|])
                          && DisplayPhrase(line, verbs).value == StripSpaceLeft(line[|v|..])
  {
    if verbs != [] {
      PhraseOf(line, verbs[1..]);
      assert forall v :: v in verbs <==> v == verbs[0] || v in verbs[1..];
    }
  }

  /** So a line is about the date exactly when it has one of these words. */
  lemma DateWords(s: string)
    ensures MentionsDate(s) <==> HasWord(s, ["date", "currentdate", "todaysdate", "today'sdate", "thedate"])
  {
    var prefixes, words := ["", "current", "todays", "today's", "the"], ["date", "currentdate", "todaysdate", "today'sdate", "thedate"];
    MentionsExactly(s, prefixes, "date");
    assert forall k :: 0 <= k < 5 ==> prefixes[k] + "date" == words[k];
  }

  /** And about the time when it has one of these. */
  lemma TimeWords(s: string)
    ensures MentionsTime(s) <==> HasWord(s, ["time", "currenttime", "thetime"])
  {
    var prefixes, words := ["", "current", "the"], ["time", "currenttime", "thetime"];
    MentionsExactly(s, prefixes, "time");
    assert forall k :: 0 <= k < 3 ==> prefixes[k] + "time" == words[k];
  }

  // ---------------------------------------------------------------------
  // The card
  // ---------------------------------------------------------------------

  /** `text.replace(c, "")`. */
  function Without(s: string, c: char): (r: string)
    ensures c !in r && forall d :: d in r ==> d in s
    ensures c !in s ==> r == s
  {
    if s == [] then []
    else (if s[0] == c then [] else [s[0]]) + Without(s[1..], c)
  }

  function SafeText(marker: string): string {
    Without(Without(Without(Without(marker, '<'), '>'), '{'), '}')
  }

  function SafeHeading(heading: string): string {
    Without(Without(heading, '<'), '>')
  }

  /** None of `< > { }`. */
  predicate Clean(marker: string) {
    '<' !in marker && '>' !in marker && '{' !in marker && '}' !in marker
  }

  function Quoted(s: string): string {
    "\"" + s + "\""
  }

  /** `before "id" after`, an opening tag. */
  function Tag(before: string, id: string, after: string): string {
    before + Quoted(id) + after
  }

  /** A paragraph of the card with its test id. */
  function Paragraph(id: string, inside: string): string {
    Tag("        <p data-testid=", id, ">") + inside + "</p>"
  }

  const GENERIC_ROW := "        <p>" + "Added by the WES autonomous " + "development engine." + "</p>"

  /** The expression `{new Date().marker()}`. */
  function LiveDate(marker: string): string {
    "{" + ("new Date" + "()" + "." + marker + "()") + "}"
  }

  function Row(r: Requirement): string {
    match r.kind
    case TextKind => Paragraph("wes-req-text", SafeText(r.expected))
    case DateKind => Paragraph("wes-current-date", LiveDate(DATE_MARKER))
    case TimeKind => Paragraph("wes-current-time", LiveDate(TIME_MARKER))
  }

  /** `"\n".join(rows)`. */
  function JoinRows(rows: seq<string>): string {
    if rows == [] then []
    else if |rows| == 1 then rows[0]
    else rows[0] + "\n" + JoinRows(rows[1..])
  }

  function Rows(reqs: seq<Requirement>): (rows: seq<string>)
    ensures |rows| == |reqs| && forall i :: 0 <= i < |reqs| ==> rows[i] == Row(reqs[i])
  {
    seq(|reqs|, i requires 0 <= i < |reqs| => Row(reqs[i]))
  }

  function CardTop(heading: string): string {
    Tag("      <div className=", "card wes-auto-card", "") + Tag(" data-testid=", "wes-auto-card", ">\n        <h2>")
    + SafeHeading(heading) + "</h2>\n"
  }

  function CardRows(reqs: seq<Requirement>): (rows: seq<string>)
    ensures reqs != [] ==> rows == Rows(reqs)
  {
    if reqs == [] then [GENERIC_ROW] else Rows(reqs)
  }

  function Card(heading: string, reqs: seq<Requirement>): string {
    CardTop(heading) + JoinRows(CardRows(reqs)) + "\n      </div>\n"
  }

  method BuildRequirementsCard(heading: string, requirements: seq<Requirement>) returns (card: string)
    ensures card == Card(heading, requirements)
  {
    hide Row, CardTop, JoinRows;
    var rows: seq<string> := [];
    for i := 0 to |requirements|
      invariant |rows| == i && forall j :: 0 <= j < i ==> rows[j] == Row(requirements[j])
    {
      rows := rows + [Row(requirements[i])];
    }
    assert rows == Rows(requirements);
    if rows == [] {
      rows := [GENERIC_ROW];
    }
    card := CardTop(heading) + JoinRows(rows) + "\n      </div>\n";
  }

  lemma ContainsWider(a: string, b: string, c: string, sub: string)
    requires Contains(b, sub)
    ensures Contains(a + b + c, sub)
  {
    var at: nat :| at <= |b| && OccursAt(b, sub, at);
    assert (a + b + c)[|a| + at..|a| + at + |sub|] == b[at..at + |sub|];
    assert OccursAt(a + b + c, sub, |a| + at);
  }

  lemma ContainsItself(s: string)
    ensures Contains(s, s)
  {
    assert s[0..|s|] == s;
    assert OccursAt(s, s, 0);
  }

  lemma {:induction false} JoinedRowsContain(rows: seq<string>, i: nat, sub: string)
    requires i < |rows| && Contains(rows[i], sub)
    ensures Contains(JoinRows(rows), sub)
  {
    if |rows| > 1 {
      if i == 0 {
        ContainsWider([], rows[0], "\n" + JoinRows(rows[1..]), sub);
        assert [] + rows[0] + ("\n" + JoinRows(rows[1..])) == JoinRows(rows);
      } else {
        JoinedRowsContain(rows[1..], i - 1, sub);
        ContainsWider(rows[0] + "\n", JoinRows(rows[1..]), [], sub);
        assert rows[0] + "\n" + JoinRows(rows[1..]) + [] == JoinRows(rows);
      }
    }
  }

  /** The row of a requirement carries its marker, unless the card had to strip it. */
  lemma RowSatisfies(c: Candidate)
    requires WellFormed(c) && (c.req.kind == TextKind ==> Clean(c.req.expected))
    ensures SatisfiedBy(c.req, Row(c.req))
  {
    var marker := c.req.expected;
    ContainsItself(marker);
    match c.req.kind {
      case TextKind =>
        ParagraphContains("wes-req-text", marker, marker);
      case DateKind =>
        LiveDateContains(DATE_MARKER);
        ParagraphContains("wes-current-date", LiveDate(DATE_MARKER), marker);
      case TimeKind =>
        LiveDateContains(TIME_MARKER);
        ParagraphContains("wes-current-time", LiveDate(TIME_MARKER), marker);
    }
  }

  lemma ParagraphContains(id: string, inside: string, marker: string)
    requires Contains(inside, marker)
    ensures Contains(Paragraph(id, inside), marker)
  {
    ContainsWider(Tag("        <p data-testid=", id, ">"), inside, "</p>", marker);
  }

  lemma LiveDateContains(marker: string)
    ensures Contains(LiveDate(marker), marker)
  {
    ContainsItself(marker);
    ContainsWider("{" + ("new Date" + "()" + "."), marker, "()" + "}", marker);
    assert "{" + ("new Date" + "()" + ".") + marker + ("()" + "}") == LiveDate(marker);
  }

  function Reqs(cs: seq<Candidate>): (r: seq<Requirement>)
    ensures |r| == |cs| && forall i :: 0 <= i < |cs| ==> r[i] == cs[i].req
  {
    seq(|cs|, i requires 0 <= i < |cs| => cs[i].req)
  }

  lemma CardSatisfies(heading: string, cs: seq<Candidate>, i: nat)
    requires i < |cs| && WellFormed(cs[i])
    requires cs[i].req.kind == TextKind ==> Clean(cs[i].req.expected)
    ensures SatisfiedBy(cs[i].req, Card(heading, Reqs(cs)))
  {
    var marker, rows := cs[i].req.expected, Rows(Reqs(cs));
    RowSatisfies(cs[i]);
    JoinedRowsContain(rows, i, marker);
    ContainsWider(CardTop(heading), JoinRows(rows), "\n      </div>\n", marker);
  }

  /** The card shows its heading, less the angle brackets. */
  lemma CardShowsHeading(heading: string, reqs: seq<Requirement>)
    ensures Contains(Card(heading, reqs), Without(Without(heading, '<'), '>'))
    ensures '<' !in heading && '>' !in heading ==> Contains(Card(heading, reqs), heading)
  {
    hide Tag, JoinRows, CardRows, Contains, SafeHeading;
    var shown := SafeHeading(heading);
    ShownHeading(heading);
    var top := Tag("      <div className=", "card wes-auto-card", "") + Tag(" data-testid=", "wes-auto-card", ">\n        <h2>");
    ContainsItself(shown);
    ContainsWider(top, shown, "</h2>\n", shown);
    ContainsFirst(CardTop(heading), JoinRows(CardRows(reqs)), "\n      </div>\n", shown);
  }

  lemma ShownHeading(heading: string)
    ensures SafeHeading(heading) == Without(Without(heading, '<'), '>')
    ensures '<' !in heading && '>' !in heading ==> SafeHeading(heading) == heading
  {
  }

  lemma ContainsFirst(a: string, b: string, c: string, sub: string)
    requires Contains(a, sub)
    ensures Contains(a + b + c, sub)
  {
    ContainsWider([], a, b + c, sub);
    assert [] + a + (b + c) == a + b + c;
  }

  // ---------------------------------------------------------------------
  // The card passes the bracket check
  // ---------------------------------------------------------------------

  /** No bracket and no quote character of the bracket scanner. */
  predicate Plain(s: string) {
    forall i :: 0 <= i < |s| ==>
      !Brackets.IsQuote(s[i]) && !Brackets.IsOpener(s[i]) && !Brackets.IsCloser(s[i])
  }

  lemma {:induction false} PlainIsNeutral(s: string)
    requires Plain(s)
    ensures Brackets.CodeBrackets(Brackets.Code, s) == [] && Brackets.Neutral(s)
    decreases |s|
  {
    if s != [] {
      PlainIsNeutral(s[1..]);
    }
  }

  lemma NeutralConcat(a: string, b: string)
    requires Brackets.Neutral(a) && Brackets.Neutral(b)
    ensures Brackets.Neutral(a + b)
  {
    Brackets.NeutralInsertion(a, b, []);
    assert a + b + [] == a + b && a + [] == a;
  }

  lemma {:induction false} PlainStaysQuoted(q: char, escaped: bool, s: string)
    requires Plain(s) && Brackets.IsQuote(q) && '\\' !in s
    ensures Brackets.CodeBrackets(Brackets.Literal(q, escaped), s) == []
    ensures Brackets.ModeAfter(Brackets.Literal(q, escaped), s) == Brackets.Literal(q, s == [] && escaped)
    decreases |s|
  {
    if s != [] {
      PlainStaysQuoted(q, false, s[1..]);
    }
  }

  lemma QuotedIsNeutral(s: string)
    requires Plain(s) && '\\' !in s
    ensures Brackets.Neutral(Quoted(s))
  {
    var lit := Brackets.Literal('"', false);
    PlainStaysQuoted('"', false, s);
    Brackets.ModeConcat(Brackets.Code, "\"" + s, "\"");
    Brackets.ModeConcat(Brackets.Code, "\"", s);
    assert Brackets.ModeAfter(Brackets.Code, "\"") == lit;
    assert Brackets.CodeBrackets(Brackets.Code, "\"") == [];
  }

  lemma WrapIsNeutral(o: char, s: string)
    requires Brackets.IsOpener(o) && Brackets.Neutral(s)
    ensures Brackets.Neutral([o] + s + [Brackets.CloserOf(o)])
  {
    var c := [Brackets.CloserOf(o)];
    assert Brackets.ModeAfter(Brackets.Code, [o]) == Brackets.Code;
    Brackets.NeutralInsertion([o], s, c);
    Brackets.ModeConcat(Brackets.Code, [o], c);
    assert Brackets.CodeBrackets(Brackets.Code, [o]) == [o];
    assert Brackets.CodeBrackets(Brackets.Code, c) == c;
    Brackets.GrammarRuns([], Brackets.Wrap(o, Brackets.Empty, Brackets.Empty));
    assert [o] + [] + c + [] == [o] + c;
  }

  lemma NeutralThree(a: string, b: string, c: string)
    requires Brackets.Neutral(a) && Brackets.Neutral(b) && Brackets.Neutral(c)
    ensures Brackets.Neutral(a + b + c)
  {
    NeutralConcat(a, b);
    NeutralConcat(a + b, c);
  }

  lemma PlainText(s: string)
    requires Plain(s)
    ensures Brackets.Neutral(s)
  {
    PlainIsNeutral(s);
  }

  lemma TagIsNeutral(before: string, id: string, after: string)
    requires Plain(before) && Plain(id) && '\\' !in id && Plain(after)
    ensures Brackets.Neutral(Tag(before, id, after))
  {
    PlainIsNeutral(before);
    PlainIsNeutral(after);
    QuotedIsNeutral(id);
    NeutralThree(before, Quoted(id), after);
  }

  lemma ThenPlain(a: string, b: string, plain: string)
    requires Brackets.Neutral(a) && Brackets.Neutral(b) && Plain(plain)
    ensures Brackets.Neutral(a + b + plain)
  {
    PlainIsNeutral(plain);
    NeutralThree(a, b, plain);
  }

  lemma ParagraphIsNeutral(id: string, inside: string)
    requires Plain(id) && '\\' !in id && Brackets.Neutral(inside)
    ensures Brackets.Neutral(Paragraph(id, inside))
  {
    hide Brackets.Neutral;
    TagIsNeutral("        <p data-testid=", id, ">");
    ThenPlain(Tag("        <p data-testid=", id, ">"), inside, "</p>");
  }

  lemma LiveDateIsNeutral(marker: string)
    requires Plain(marker)
    ensures Brackets.Neutral(LiveDate(marker))
  {
    hide Brackets.Neutral;
    PlainText([]);
    WrapIsNeutral('(', []);
    assert "(" + [] + ")" == "()";
    PlainText("new Date");
    PlainText(".");
    PlainText(marker);
    NeutralConcat("new Date", "()");
    NeutralConcat("new Date" + "()", ".");
    NeutralConcat("new Date" + "()" + ".", marker);
    NeutralConcat("new Date" + "()" + "." + marker, "()");
    WrapIsNeutral('{', "new Date" + "()" + "." + marker + "()");
  }

  lemma RowIsNeutral(r: Requirement)
    requires r.kind == TextKind ==> Brackets.Neutral(SafeText(r.expected))
    ensures Brackets.Neutral(Row(r))
  {
    hide Brackets.Neutral, Paragraph, LiveDate, SafeText;
    match r.kind {
      case TextKind => ParagraphIsNeutral("wes-req-text", SafeText(r.expected));
      case DateKind => DateRowIsNeutral(r);
      case TimeKind => TimeRowIsNeutral(r);
    }
  }

  lemma DateRowIsNeutral(r: Requirement)
    requires r.kind == DateKind
    ensures Brackets.Neutral(Row(r))
  {
    hide Brackets.Neutral, Paragraph, LiveDate;
    LiveDateIsNeutral(DATE_MARKER);
    ParagraphIsNeutral("wes-current-date", LiveDate(DATE_MARKER));
  }

  lemma TimeRowIsNeutral(r: Requirement)
    requires r.kind == TimeKind
    ensures Brackets.Neutral(Row(r))
  {
    hide Brackets.Neutral, Paragraph, LiveDate;
    LiveDateIsNeutral(TIME_MARKER);
    ParagraphIsNeutral("wes-current-time", LiveDate(TIME_MARKER));
  }

  lemma {:induction false} JoinedRowsNeutral(rows: seq<string>)
    requires forall i :: 0 <= i < |rows| ==> Brackets.Neutral(rows[i])
    ensures Brackets.Neutral(JoinRows(rows))
  {
    if rows == [] {
      PlainText([]);
    } else if |rows| > 1 {
      PlainText("\n");
      JoinedRowsNeutral(rows[1..]);
      NeutralConcat(rows[0], "\n");
      NeutralConcat(rows[0] + "\n", JoinRows(rows[1..]));
    }
  }

  lemma CardTopIsNeutral(heading: string)
    requires Brackets.Neutral(SafeHeading(heading))
    ensures Brackets.Neutral(CardTop(heading))
  {
    hide Brackets.Neutral, Tag, SafeHeading;
    DivTagIsNeutral();
    HeadingTagIsNeutral();
    NeutralConcat(Tag("      <div className=", "card wes-auto-card", ""),
                  Tag(" data-testid=", "wes-auto-card", ">\n        <h2>"));
    ThenPlain(Tag("      <div className=", "card wes-auto-card", "") + Tag(" data-testid=", "wes-auto-card", ">\n        <h2>"),
              SafeHeading(heading), "</h2>\n");
  }

  lemma DivTagIsNeutral()
    ensures Brackets.Neutral(Tag("      <div className=", "card wes-auto-card", ""))
  {
    hide Brackets.Neutral, Tag;
    TagIsNeutral("      <div className=", "card wes-auto-card", "");
  }

  lemma HeadingTagIsNeutral()
    ensures Brackets.Neutral(Tag(" data-testid=", "wes-auto-card", ">\n        <h2>"))
  {
    hide Brackets.Neutral, Tag;
    TagIsNeutral(" data-testid=", "wes-auto-card", ">\n        <h2>");
  }

  lemma GenericRowIsPlain()
    ensures Plain(GENERIC_ROW)
  {
    assert Plain("        <p>") && Plain("Added by the WES autonomous ") && Plain("development engine.") && Plain("</p>");
  }

  /** The text a heading or marker leaves in the card is neutral for the bracket scanner. */
  ghost predicate NeutralTexts(heading: string, reqs: seq<Requirement>) {
    && Brackets.Neutral(SafeHeading(heading))
    && forall i :: 0 <= i < |reqs| && reqs[i].kind == TextKind ==> Brackets.Neutral(SafeText(reqs[i].expected))
  }

  lemma RowsAreNeutral(reqs: seq<Requirement>)
    requires forall i :: 0 <= i < |reqs| && reqs[i].kind == TextKind ==> Brackets.Neutral(SafeText(reqs[i].expected))
    ensures Brackets.Neutral(JoinRows(CardRows(reqs)))
  {
    hide Brackets.Neutral;
    if reqs == [] {
      GenericRowIsPlain();
      PlainIsNeutral(GENERIC_ROW);
      assert JoinRows(CardRows(reqs)) == GENERIC_ROW;
    } else {
      forall i | 0 <= i < |reqs| ensures Brackets.Neutral(Rows(reqs)[i]) {
        RowIsNeutral(reqs[i]);
      }
      JoinedRowsNeutral(Rows(reqs));
    }
  }

  /** The card is accepted by the bracket check and leaves every host's verdict as it was. */
  lemma CardIsNeutral(heading: string, reqs: seq<Requirement>)
    requires NeutralTexts(heading, reqs)
    ensures Brackets.Neutral(Card(heading, reqs))
  {
    hide Brackets.Neutral;
    CardTopIsNeutral(heading);
    RowsAreNeutral(reqs);
    ThenPlain(CardTop(heading), JoinRows(CardRows(reqs)), "\n      </div>\n");
  }

  // ---------------------------------------------------------------------
  // Generate, insert, verify
  // ---------------------------------------------------------------------

  /** `verify_requirements`: one verdict for each requirement. */
  function Verify(source: string, reqs: seq<Requirement>): (report: seq<bool>)
    ensures |report| == |reqs|
  {
    seq(|reqs|, i requires 0 <= i < |reqs| => SatisfiedBy(reqs[i], source))
  }

  /** Every text marker is free of `< > { }`. */
  ghost predicate CleanMarkers(reqs: seq<Requirement>) {
    forall i :: 0 <= i < |reqs| && reqs[i].kind == TextKind ==> Clean(reqs[i].expected)
  }

  /** Whatever the card contains, the source it was inserted into contains. */
  lemma InsertedContains(source: string, anchor: string, card: string, k: int, offset: nat,
                         r: Result<string, Splice.EditError>, sub: string)
    requires offset <= 1 && EndsLine(card) && Contains(card, sub)
    requires Splice.AnchoredInsertion(source, anchor, card, k, offset, r) && r.Ok?
    ensures Contains(r.value, sub)
  {
    var lines := SplitLines(source);
    var i: nat :| Splice.IsKth(lines, anchor, k, i)
                  && r.value == Join(Splice.InsertLine(lines, i + offset, EnsureNewline(card)));
    Splice.InsertedText(lines, i + offset, card);
    ContainsWider(Join(lines[..i + offset]), card, Join(lines[i + offset..]), sub);
  }

  /** Main result: for every task whose text markers contain none of `< > { }`, a card
      inserted at an anchor makes every extracted requirement hold of the new source. */
  lemma GeneratedCardVerifies(title: string, description: Option<string>, heading: string, source: string,
                              anchor: string, k: int, offset: nat, r: Result<string, Splice.EditError>)
    requires offset <= 1
    requires CleanMarkers(Reqs(Extracted(title, description)))
    requires Splice.AnchoredInsertion(source, anchor, Card(heading, Reqs(Extracted(title, description))), k, offset, r)
    requires r.Ok?
    ensures forall ok :: ok in Verify(r.value, Reqs(Extracted(title, description))) ==> ok
  {
    var cs := Extracted(title, description);
    var reqs := Reqs(cs);
    ExtractionIsComplete(title, description);
    forall j | 0 <= j < |cs| ensures SatisfiedBy(reqs[j], r.value) {
      assert cs[j] in cs;
      CardSatisfies(heading, cs, j);
      CardEnds(heading, reqs);
      InsertedContains(source, anchor, Card(heading, reqs), k, offset, r, reqs[j].expected);
    }
  }

  lemma CardEnds(heading: string, reqs: seq<Requirement>)
    ensures EndsLine(Card(heading, reqs))
  {
    var front := CardTop(heading) + JoinRows(CardRows(reqs));
    assert (front + "\n      </div>\n")[|front| + 13] == '\n';
  }

  lemma PlainSubset(s: string, t: string)
    requires Plain(s) && forall c :: c in t ==> c in s
    ensures Plain(t)
  {
    forall i | 0 <= i < |t|
      ensures !Brackets.IsQuote(t[i]) && !Brackets.IsOpener(t[i]) && !Brackets.IsCloser(t[i])
    {
      assert t[i] in s;
    }
  }

  /** The bracket check never stands in the way when the texts are neutral - in particular
      when heading and markers have no brackets and no quotes. */
  lemma CardIsNeverUnbalanced(heading: string, reqs: seq<Requirement>, source: string, anchor: string,
                              k: int, r: Result<string, Splice.EditError>)
    requires NeutralTexts(heading, reqs)
             || (Plain(heading) && forall i :: 0 <= i < |reqs| && reqs[i].kind == TextKind ==> Plain(reqs[i].expected))
    requires Splice.AnchoredInsertion(source, anchor, Card(heading, reqs), k, 0, r)
    ensures r != Err(Splice.Unbalanced)
  {
    if !NeutralTexts(heading, reqs) {
      PlainSubset(heading, SafeHeading(heading));
      PlainText(SafeHeading(heading));
      forall i | 0 <= i < |reqs| && reqs[i].kind == TextKind
        ensures Brackets.Neutral(SafeText(reqs[i].expected))
      {
        PlainSubset(reqs[i].expected, SafeText(reqs[i].expected));
        PlainText(SafeText(reqs[i].expected));
      }
    }
    CardIsNeutral(heading, reqs);
    Brackets.RunIsGrammar(Brackets.CodeBrackets(Brackets.Code, Card(heading, reqs)));
  }

  // ---------------------------------------------------------------------
  // When the card loses a marker
  // ---------------------------------------------------------------------

  predicate NoBraces(s: string) {
    '{' !in s && '}' !in s
  }

  lemma {:induction false} JoinedRowsNoBraces(rows: seq<string>)
    requires forall i :: 0 <= i < |rows| ==> NoBraces(rows[i])
    ensures NoBraces(JoinRows(rows))
  {
    if |rows| > 1 {
      JoinedRowsNoBraces(rows[1..]);
    }
  }

  lemma ThreeNoBraces(a: string, b: string, c: string)
    requires NoBraces(a) && NoBraces(b) && NoBraces(c)
    ensures NoBraces(a + b + c)
  {
  }

  lemma TagHasNoBraces(before: string, id: string, after: string)
    requires NoBraces(before) && NoBraces(id) && NoBraces(after)
    ensures NoBraces(Tag(before, id, after))
  {
  }

  lemma TextRowHasNoBraces(r: Requirement)
    requires r.kind == TextKind
    ensures NoBraces(Row(r))
  {
    TagHasNoBraces("        <p data-testid=", "wes-req-text", ">");
    ThreeNoBraces(Tag("        <p data-testid=", "wes-req-text", ">"), SafeText(r.expected), "</p>");
  }

  lemma DivTagHasNoBraces()
    ensures NoBraces(Tag("      <div className=", "card wes-auto-card", ""))
  {
    hide Tag;
    TagHasNoBraces("      <div className=", "card wes-auto-card", "");
  }

  lemma HeadingTagHasNoBraces()
    ensures NoBraces(Tag(" data-testid=", "wes-auto-card", ">\n        <h2>"))
  {
    hide Tag;
    TagHasNoBraces(" data-testid=", "wes-auto-card", ">\n        <h2>");
  }

  /** A card of text rows shows no brace at all. */
  lemma TextCardHasNoBraces(heading: string, reqs: seq<Requirement>)
    requires NoBraces(heading) && reqs != [] && forall i :: 0 <= i < |reqs| ==> reqs[i].kind == TextKind
    ensures NoBraces(Card(heading, reqs))
  {
    forall i | 0 <= i < |reqs| ensures NoBraces(Rows(reqs)[i]) {
      TextRowHasNoBraces(reqs[i]);
    }
    JoinedRowsNoBraces(Rows(reqs));
    DivTagHasNoBraces();
    HeadingTagHasNoBraces();
    ThreeNoBraces(Tag("      <div className=", "card wes-auto-card", "")
                  + Tag(" data-testid=", "wes-auto-card", ">\n        <h2>"), SafeHeading(heading), "</h2>\n");
    ThreeNoBraces(CardTop(heading), JoinRows(CardRows(reqs)), "\n      </div>\n");
  }

  lemma BracesNotContained(text: string, marker: string)
    requires NoBraces(text) && !NoBraces(marker)
    ensures !Contains(text, marker)
  {
    var j :| 0 <= j < |marker| && (marker[j] == '{' || marker[j] == '}');
    forall at: nat | at <= |text| ensures !OccursAt(text, marker, at) {
      assert at + |marker| <= |text| ==> text[at..at + |marker|][j] == text[at + j];
    }
  }

  /** Exactly which markers a card of text rows keeps, among those without `<` and `>` (a
      marker with these can still occur in the markup itself): the ones without braces. */
  lemma TextMarkerKept(heading: string, cs: seq<Candidate>, i: nat)
    requires NoBraces(heading) && i < |cs|
    requires forall j :: 0 <= j < |cs| ==> WellFormed(cs[j]) && cs[j].req.kind == TextKind
    requires '<' !in cs[i].req.expected && '>' !in cs[i].req.expected
    ensures SatisfiedBy(cs[i].req, Card(heading, Reqs(cs))) <==> NoBraces(cs[i].req.expected)
  {
    if NoBraces(cs[i].req.expected) {
      CardSatisfies(heading, cs, i);
    } else {
      TextCardHasNoBraces(heading, Reqs(cs));
      BracesNotContained(Card(heading, Reqs(cs)), cs[i].req.expected);
    }
  }

  /** A marker in braces is dropped, and verification then refuses the card. */
  lemma BraceMarkerLost()
    ensures !SatisfiedBy(TextCandidate("{x}").req, Card("", Reqs([TextCandidate("{x}")])))
  {
    assert "{x}"[0] == '{';
    TextMarkerKept("", [TextCandidate("{x}")], 0);
  }
}
