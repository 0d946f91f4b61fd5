/** `dev_intent.py`: whether a task is about existing code, read off its words, and so whether it is
    implemented by changing a page or by a new module. */
module Intent {
  import opened Text
  import Requirements
  import Rename

  /** The words that signal existing code; no stop word and no alias is among them. */
  const SIGNALS: seq<string> := ["dashboard", "page", "component", "screen", "view", "modify", "update", "edit", "change",
                                 "refactor", "rename", "delete", "remove"]

  const EXTENSIONS: seq<string> := ["tsx", "ts", "jsx", "js", "py"]

  predicate InToken(c: char) { '0' <= c <= '9' || 'a' <= c <= 'z' }

  /** `word` is one of `re.findall(r"[a-z0-9]+", s)`, for a word of such characters. */
  predicate HasToken(s: string, word: string) {
    exists i: nat | i <= |s| :: StandsAt(s, word, i)
  }

  predicate StandsAt(s: string, word: string, i: nat) {
    OccursAt(s, word, i) && (i > 0 ==> !InToken(s[i - 1])) && (i + |word| < |s| ==> !InToken(s[i + |word|]))
  }

  /** It is so exactly when the word is a token: a maximal run of such characters. */
  lemma {:induction false} TokenExactly(s: string, word: string)
    requires Rename.IsName(InToken, word)
    ensures HasToken(s, word) <==> word in Rename.Tokens(InToken, s)
    decreases |s|
  {
    if s == [] {
      return;
    }
    var n := if InToken(s[0]) then Rename.RunLength(InToken, s) else 1;
    var first, rest := s[..n], s[n..];
    assert Rename.Tokens(InToken, s) == [first] + Rename.Tokens(InToken, rest);
    TokenExactly(rest, word);
    forall i: nat | StandsAt(s, word, i) ensures word == first || HasToken(rest, word) {
      StandsFirst(s, word, i, n);
    }
    if word == first {
      assert StandsAt(s, word, 0);
    }
    forall i: nat | StandsAt(rest, word, i) ensures StandsAt(s, word, n + i) {
      StandsLater(s, word, i, n);
    }
  }

  lemma FirstRun(s: string, n: nat)
    requires s != [] && n == if InToken(s[0]) then Rename.RunLength(InToken, s) else 1
    ensures 1 <= n <= |s| && (n > 1 ==> forall k :: 0 <= k < n ==> InToken(s[k]))
    ensures n < |s| && InToken(s[n]) ==> n == 1 && !InToken(s[0])
  {
    if InToken(s[0]) {
      assert forall k :: 0 <= k < n ==> InToken(s[..n][k]);
    }
  }

  lemma StandsFirst(s: string, word: string, i: nat, n: nat)
    requires StandsAt(s, word, i) && Rename.IsName(InToken, word)
    requires s != [] && n == if InToken(s[0]) then Rename.RunLength(InToken, s) else 1
    ensures word == s[..n] || HasToken(s[n..], word)
  {
    FirstRun(s, n);
    FirstOf(s, word, i);
    if i == 0 {
      WholeRun(s, word, n);
    } else {
      assert !InToken(s[i - 1]);
      Shifted(s, n, i - n, |word|);
      assert i - n > 0 ==> s[n..][i - n - 1] == s[i - 1];
      assert StandsAt(s[n..], word, i - n);
    }
  }

  /** A token at the start of the text is its first run. */
  lemma WholeRun(s: string, word: string, n: nat)
    requires StandsAt(s, word, 0) && Rename.IsName(InToken, word) && InToken(s[0]) && n == Rename.RunLength(InToken, s)
    ensures word == s[..n]
  {
    assert forall k :: 0 <= k < |word| ==> word[k] == s[k];
    assert forall k :: 0 <= k < n ==> s[..n][k] == s[k];
    assert |word| == n;
  }

  lemma StandsLater(s: string, word: string, i: nat, n: nat)
    requires s != [] && n == (if InToken(s[0]) then Rename.RunLength(InToken, s) else 1)
    requires StandsAt(s[n..], word, i) && Rename.IsName(InToken, word)
    ensures StandsAt(s, word, n + i)
  {
    FirstRun(s, n);
    Shifted(s, n, i, |word|);
    assert i > 0 ==> s[n + i - 1] == s[n..][i - 1];
    FirstOf(s[n..], word, i);
  }

  lemma Shifted(s: string, n: nat, i: nat, m: nat)
    requires n <= |s| && i + m <= |s[n..]|
    ensures s[n..][i..i + m] == s[n + i..n + i + m]
    ensures i + m < |s[n..]| ==> s[n..][i + m] == s[n + i + m]
  {
  }

  lemma FirstOf(s: string, word: string, i: nat)
    requires OccursAt(s, word, i) && Rename.IsName(InToken, word)
    ensures i < |s| && InToken(s[i])
  {
    assert s[i..i + |word|][0] == word[0];
  }

  predicate HasSignal(text: string) {
    exists k | 0 <= k < |SIGNALS| :: HasToken(Requirements.Lower(text), SIGNALS[k])
  }

  predicate ExtensionAt(text: string, at: nat) {
    exists k | 0 <= k < |EXTENSIONS| :: Requirements.WordEndsAt(text, at, EXTENSIONS[k])
  }

  predicate PathDotAt(text: string, i: nat) {
    0 < i < |text| && text[i] == '.' && (Requirements.IsWordChar(text[i - 1]) || text[i - 1] == '/') && ExtensionAt(text, i + 1)
  }

  /** `[\w/]+\.(tsx|ts|jsx|js|py)\b`, searched in the text. */
  predicate HasPath(text: string) {
    exists i: nat | i < |text| :: PathDotAt(text, i)
  }

  function TaskText(title: string, description: Option<string>): string {
    title + " " + if description.Some? then description.value else ""
  }

  /** The task's words refer to existing code. */
  predicate References(title: string, description: Option<string>) {
    HasSignal(TaskText(title, description)) || HasPath(TaskText(title, description))
  }

  /** A page that was found for the task, and the anchor found in it. */
  datatype Page = Page(source: string, anchor: string)

  /** `Explicit` is a task that brings its own modification spec. */
  datatype Kind = Explicit | Modify(page: Page) | Unresolved | NewModule

  /** `page` is the page that matches the task's words best, if any does. */
  function KindOf(title: string, description: Option<string>, explicit: bool, page: Option<Page>): Kind {
    if explicit then Explicit
    else if !References(title, description) then NewModule
    else if page.None? then Unresolved
    else Modify(page.value)
  }

  /** The requirements the task is held to: a new module to none. */
  function Demanded(kind: Kind, title: string, description: Option<string>): seq<Requirements.Requirement> {
    if kind.NewModule? || kind.Unresolved? then [] else Requirements.Reqs(Requirements.Extracted(title, description))
  }

  /** What extraction reads off the task. */
  function Asked(title: string, description: Option<string>): seq<Requirements.Requirement> {
    Requirements.Reqs(Requirements.Extracted(title, description))
  }

  /** A task refers to existing code if and only if one of the thirteen signal words is a token of it, in any
      case, or it names a file. */
  lemma ReferencesExactly(title: string, description: Option<string>)
    ensures var text := TaskText(title, description);
            References(title, description) <==>
              || (exists word :: word in ["dashboard", "page", "component", "screen", "view", "modify", "update", "edit", "change",
                                          "refactor", "rename", "delete", "remove"]
                                 && word in Rename.Tokens(InToken, Requirements.Lower(text)))
              || HasPath(text)
  {
    var low := Requirements.Lower(TaskText(title, description));
    hide HasToken, Rename.Tokens, Requirements.Lower, HasPath, TaskText;
    forall word | word in SIGNALS ensures HasToken(low, word) <==> word in Rename.Tokens(InToken, low) {
      SignalIsToken(word);
      TokenExactly(low, word);
      var k := WordIndex(SIGNALS, word);
    }
    forall k | 0 <= k < |SIGNALS| ensures SIGNALS[k] in SIGNALS {}
  }

  lemma SignalIsToken(word: string)
    requires word in SIGNALS
    ensures Rename.IsName(InToken, word)
  {
  }

  lemma {:induction false} WordIndex(words: seq<string>, word: string) returns (k: nat)
    requires word in words
    ensures k < |words| && words[k] == word
  {
    k :| 0 <= k < |words| && words[k] == word;
  }

  /** A task with a signal word among its words, in any case, is not a new module. */
  lemma RefersByWord(title: string, description: Option<string>, word: string, page: Option<Page>)
    requires word in ["dashboard", "page", "component", "screen", "view", "modify", "update", "edit", "change", "refactor",
                      "rename", "delete", "remove"]
    requires HasToken(Requirements.Lower(TaskText(title, description)), word)
    ensures KindOf(title, description, false, page) == if page.Some? then Modify(page.value) else Unresolved
  {
    var k := WordIndex(SIGNALS, word);
    assert HasSignal(TaskText(title, description));
  }

  /** Nor is one that names a file: a name, a dot, and one of the extensions as a whole word. */
  lemma RefersByPath(title: string, description: Option<string>, i: nat, extension: string, page: Option<Page>)
    requires extension in ["tsx", "ts", "jsx", "js", "py"] && 0 < i < |TaskText(title, description)|
    requires var text := TaskText(title, description);
             text[i] == '.' && Requirements.IsWordChar(text[i - 1]) && Requirements.WordEndsAt(text, i + 1, extension)
    ensures KindOf(title, description, false, page) == if page.Some? then Modify(page.value) else Unresolved
  {
    var k := WordIndex(EXTENSIONS, extension);
    assert PathDotAt(TaskText(title, description), i);
  }

  /** Every requirement asks for a text that an empty source does not contain. */
  lemma AskedNotEmpty(title: string, description: Option<string>, i: nat)
    requires i < |Asked(title, description)|
    ensures !Requirements.SatisfiedBy(Asked(title, description)[i], "")
  {
    var cs := Requirements.Extracted(title, description);
    Requirements.ExtractionIsComplete(title, description);
    assert cs[i] in cs && Requirements.WellFormed(cs[i]);
  }

  /** A task of a quoted letter refers to no existing code, */
  lemma QuotedLetterRefersToNothing()
    ensures !References("\"x\"", None)
  {
    var text := TaskText("\"x\"", None);
    assert text == "\"x\" ";
    var low := Requirements.Lower(text);
    assert forall i :: 0 <= i < 4 ==> low[i] == text[i];
    forall k | 0 <= k < |SIGNALS| ensures !HasToken(low, SIGNALS[k]) {
      SignalsAreWords(k);
    }
  }

  lemma SignalsAreWords(k: nat)
    requires k < |SIGNALS|
    ensures |SIGNALS[k]| >= 4 && SIGNALS[k][0] != '\"'
  {
  }

  /** and asks for that letter. */
  lemma QuotedLetterIsAsked()
    ensures Asked("\"x\"", None) != []
  {
    var lines := Requirements.TaskLines("\"x\"", None);
    assert "\"x\"" + "\n" + "" == "\"x\"\n";
    LettersPieces();
    assert lines == Requirements.Pieces("\"x\"\n");
    Requirements.ExtractionIsComplete("\"x\"", None);
    LetterIsQuoted();
    assert Requirements.IsQuotedLiteral(lines, 0, 0, "x");
  }

  lemma LettersPieces()
    ensures Requirements.Pieces("\"x\"\n")[0] == "\"x\""
  {
    assert "\"x\"\n"[1..] == "x\"\n" && "x\"\n"[1..] == "\"\n" && "\"\n"[1..] == "\n" && "\n"[1..] == "";
    assert Requirements.Pieces("\n") == [""] + Requirements.Pieces("");
    assert Requirements.Pieces("\"\n")[0] == "\"";
    assert Requirements.Pieces("x\"\n")[0] == "x\"";
  }

  lemma LetterIsQuoted()
    ensures Requirements.Strip("\"x\"") == "\"x\"" && Requirements.Strip("x") == "x"
    ensures Requirements.QuotedGroups("\"x\"") == ["x"] + Requirements.QuotedGroups("")
  {
    var s := "\"x\"";
    assert s[1..] == "x\"" && "x\""[1..] == "\"";
    assert Requirements.NextQuote("\"") == 0;
    assert Requirements.NextQuote("x\"") == 1;
    assert s[1..2] == "x" && s[3..] == "";
  }
}
