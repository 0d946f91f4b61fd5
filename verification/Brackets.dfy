/** `CodeModificationEngine._assert_balanced`: one pass over a snippet with a stack of
    open brackets and the quote of the string literal being read, if any. */
module Brackets {
  import opened Text

  predicate IsQuote(c: char) { c == '\'' || c == '"' || c == '`' }
  predicate IsOpener(c: char) { c == '(' || c == '[' || c == '{' }
  predicate IsCloser(c: char) { c == ')' || c == ']' || c == '}' }

  function CloserOf(c: char): char
    requires IsOpener(c)
  {
    match c case '(' => ')' case '[' => ']' case _ => '}'
  }

  function OpenerOf(c: char): char
    requires IsCloser(c)
  {
    match c case ')' => '(' case ']' => '[' case _ => '{'
  }

  // ---------------------------------------------------------------------
  // String literals: what the scanner reads as code
  // ---------------------------------------------------------------------

  /** Outside any literal, or inside one opened by `quote`, the last character read
      being a backslash or not. */
  datatype Mode = Code | Literal(quote: char, escaped: bool)

  function NextMode(m: Mode, c: char): Mode {
    match m
    case Code => if IsQuote(c) then Literal(c, false) else Code
    case Literal(q, escaped) => if c == q && !escaped then Code else Literal(q, c == '\\')
  }

  function ModeAfter(m: Mode, s: string): Mode
    decreases |s|
  {
    if s == [] then m else ModeAfter(NextMode(m, s[0]), s[1..])
  }

  /** The brackets of `s` that stand outside string literals. */
  function CodeBrackets(m: Mode, s: string): (r: string)
    ensures forall i :: 0 <= i < |r| ==> IsOpener(r[i]) || IsCloser(r[i])
    decreases |s|
  {
    if s == [] then []
    else
      (if m == Code && (IsOpener(s[0]) || IsCloser(s[0])) then [s[0]] else [])
      + CodeBrackets(NextMode(m, s[0]), s[1..])
  }

  // ---------------------------------------------------------------------
  // The grammar of balanced bracket words
  // ---------------------------------------------------------------------

  /** A derivation of: word = empty | opener word closer word. */
  datatype Balanced = Empty | Wrap(opener: char, inside: Balanced, after: Balanced)

  ghost predicate Grammatical(b: Balanced) {
    b.Wrap? ==> IsOpener(b.opener) && Grammatical(b.inside) && Grammatical(b.after)
  }

  ghost function Word(b: Balanced): string
    requires Grammatical(b)
  {
    match b
    case Empty => []
    case Wrap(o, inside, after) => [o] + Word(inside) + [CloserOf(o)] + Word(after)
  }

  ghost predicate InGrammar(word: string) {
    exists b :: Grammatical(b) && Word(b) == word
  }

  // ---------------------------------------------------------------------
  // The stack machine
  // ---------------------------------------------------------------------

  /** The stack after reading a bracket word, or None when a closer does not fit. */
  function Run(stack: string, word: string): Option<string>
    decreases |word|
  {
    if word == [] then Some(stack)
    else if IsCloser(word[0]) then
      if stack == [] || stack[|stack| - 1] != OpenerOf(word[0]) then None
      else Run(stack[..|stack| - 1], word[1..])
    else Run(stack + [word[0]], word[1..])
  }

  lemma {:induction false} RunConcat(stack: string, a: string, b: string)
    ensures Run(stack, a + b)
            == match Run(stack, a) case None => None case Some(mid) => Run(mid, b)
    decreases |a|
  {
    if a == [] {
      assert a + b == b;
    } else {
      assert (a + b)[1..] == a[1..] + b;
      if !IsCloser(a[0]) {
        RunConcat(stack + [a[0]], a[1..], b);
      } else if stack != [] && stack[|stack| - 1] == OpenerOf(a[0]) {
        RunConcat(stack[..|stack| - 1], a[1..], b);
      }
    }
  }

  /** A grammatical word leaves every stack as it was. */
  lemma {:induction false} GrammarRuns(stack: string, b: Balanced)
    requires Grammatical(b)
    ensures Run(stack, Word(b)) == Some(stack)
    decreases b
  {
    if b.Wrap? {
      var o := b.opener;
      var pushed := stack + [o];
      GrammarRuns(pushed, b.inside);
      GrammarRuns(stack, b.after);
      var tail := [CloserOf(o)] + Word(b.after);
      assert Word(b) == [o] + (Word(b.inside) + tail);
      assert ([o] + (Word(b.inside) + tail))[1..] == Word(b.inside) + tail;
      RunConcat(pushed, Word(b.inside), tail);
      assert pushed[..|pushed| - 1] == stack;
      assert tail[1..] == Word(b.after);
    }
  }

  ghost predicate AllGrammatical(bs: seq<Balanced>) {
    forall i :: 0 <= i < |bs| ==> Grammatical(bs[i])
  }

  predicate AllOpeners(stack: string) {
    forall i :: 0 <= i < |stack| ==> IsOpener(stack[i])
  }

  /** For each open bracket from the top of the stack down: its closer, then a balanced word. */
  ghost function Unwind(stack: string, bs: seq<Balanced>): string
    requires |bs| == |stack| && AllGrammatical(bs) && AllOpeners(stack)
    decreases |stack|
  {
    if stack == [] then []
    else
      [CloserOf(stack[|stack| - 1])] + (Word(bs[0]) + Unwind(stack[..|stack| - 1], bs[1..]))
  }

  /** A word that empties the stack is a balanced word followed by an unwinding. */
  lemma {:induction false} AcceptedUnwinds(stack: string, word: string) returns (b: Balanced, bs: seq<Balanced>)
    requires AllOpeners(stack) && Run(stack, word) == Some([])
    requires forall i :: 0 <= i < |word| ==> IsOpener(word[i]) || IsCloser(word[i])
    ensures Grammatical(b) && |bs| == |stack| && AllGrammatical(bs)
    ensures word == Word(b) + Unwind(stack, bs)
    decreases |word|
  {
    if word == [] {
      b, bs := Empty, [];
    } else if IsCloser(word[0]) {
      var inner, rest := AcceptedUnwinds(stack[..|stack| - 1], word[1..]);
      b, bs := Empty, [inner] + rest;
      assert bs[1..] == rest;
    } else {
      var pushed := stack + [word[0]];
      var inside, rest := AcceptedUnwinds(pushed, word[1..]);
      b, bs := Wrap(word[0], inside, rest[0]), rest[1..];
      assert pushed[..|pushed| - 1] == stack;
      WrapUnwinds(stack, word[0], inside, rest);
    }
  }

  lemma WrapUnwinds(stack: string, o: char, inside: Balanced, rest: seq<Balanced>)
    requires AllOpeners(stack) && IsOpener(o) && Grammatical(inside)
    requires |rest| == |stack| + 1 && AllGrammatical(rest)
    ensures Word(Wrap(o, inside, rest[0])) + Unwind(stack, rest[1..])
            == [o] + (Word(inside) + Unwind(stack + [o], rest))
  {
    hide IsOpener, CloserOf;
    var inner, after, rest_ := Word(inside), Word(rest[0]), Unwind(stack, rest[1..]);
    assert (stack + [o])[..|stack|] == stack;
    assert Unwind(stack + [o], rest) == [CloserOf(o)] + (after + rest_);
    Regroup([o], inner, [CloserOf(o)], after, rest_);
  }

  lemma Regroup(a: string, b: string, c: string, d: string, e: string)
    ensures (a + b + c + d) + e == a + (b + (c + (d + e)))
  {
  }

  lemma RunIsGrammar(word: string)
    requires forall i :: 0 <= i < |word| ==> IsOpener(word[i]) || IsCloser(word[i])
    ensures Run([], word) == Some([]) <==> InGrammar(word)
  {
    if Run([], word) == Some([]) {
      var b, _ := AcceptedUnwinds([], word);
      assert Word(b) == word;
    }
    if InGrammar(word) {
      var b :| Grammatical(b) && Word(b) == word;
      GrammarRuns([], b);
    }
  }

  // ---------------------------------------------------------------------
  // The scanner
  // ---------------------------------------------------------------------

  /** The scanner's verdict on a snippet, read from code mode with an empty stack. */
  predicate Accepts(snippet: string) {
    Run([], CodeBrackets(Code, snippet)) == Some([])
  }

  /** `_assert_balanced`: no exception exactly when the brackets outside string literals
      form a word of the grammar. The mode at the end of the snippet is never checked. */
  method AssertBalanced(snippet: string) returns (ok: bool)
    ensures ok <==> InGrammar(CodeBrackets(Code, snippet))
    ensures ok == Accepts(snippet)
  {
    RunIsGrammar(CodeBrackets(Code, snippet));
    var stack: string := [];
    var inStr: Option<char> := None;
    var prev: Option<char> := None;
    ghost var mode := Code;
    assert snippet[0..] == snippet;
    for i := 0 to |snippet|
      invariant mode == if inStr.None? then Code else Literal(inStr.value, prev == Some('\\'))
      invariant inStr.Some? ==> IsQuote(inStr.value)
      invariant Run([], CodeBrackets(Code, snippet)) == Run(stack, CodeBrackets(mode, snippet[i..]))
    {
      var ch := snippet[i];
      assert snippet[i..][0] == ch && snippet[i..][1..] == snippet[i + 1..];
      ghost var rest := CodeBrackets(NextMode(mode, ch), snippet[i + 1..]);
      assert [] + rest == rest;
      mode := NextMode(mode, ch);
      if inStr.Some? {
        if ch == inStr.value && prev != Some('\\') {
          inStr := None;
        }
        prev := Some(ch);
        continue;
      }
      if IsQuote(ch) {
        inStr := Some(ch);
      } else if IsOpener(ch) {
        assert ([ch] + rest)[1..] == rest;
        stack := stack + [ch];
      } else if IsCloser(ch) {
        assert ([ch] + rest)[1..] == rest;
        if stack == [] || stack[|stack| - 1] != OpenerOf(ch) {
          return false;
        }
        stack := stack[..|stack| - 1];
      }
      prev := Some(ch);
    }
    assert snippet[|snippet|..] == [];
    return stack == [];
  }

  /** Two brackets are balanced exactly when they are one of the three pairs. */
  lemma PairsFit(o: char, c: char)
    requires IsOpener(o) || IsCloser(o)
    requires IsOpener(c) || IsCloser(c)
    ensures Accepts([o, c]) <==> [o, c] in {"()", "[]", "{}"}
  {
    assert [o, c][1..] == [c] && [c][1..] == [];
    assert [o, c] == "()" <==> o == '(' && c == ')';
    assert [o, c] == "[]" <==> o == '[' && c == ']';
    assert [o, c] == "{}" <==> o == '{' && c == '}';
    assert [] + [o] == [o] && [o][..0] == [];
    assert CodeBrackets(Code, [c]) == [c] && CodeBrackets(Code, [o, c]) == [o, c];
    assert Run([o], [c]) == if IsCloser(c) then (if o == OpenerOf(c) then Some([]) else None) else Some([o, c]);
  }

  predicate EscapedAt(escaped: bool, body: string, i: nat)
    requires i < |body|
  {
    if i == 0 then escaped else body[i - 1] == '\\'
  }

  /** No quote of the kind in the text but behind a backslash, and no backslash at its end. */
  predicate StaysInside(q: char, escaped: bool, body: string) {
    && (forall i :: 0 <= i < |body| && body[i] == q ==> EscapedAt(escaped, body, i))
    && (if body == [] then !escaped else body[|body| - 1] != '\\')
  }

  lemma {:induction false} LiteralRuns(q: char, escaped: bool, body: string)
    requires IsQuote(q) && StaysInside(q, escaped, body)
    ensures ModeAfter(Literal(q, escaped), body) == Literal(q, false) && CodeBrackets(Literal(q, escaped), body) == []
    decreases |body|
  {
    if body != [] {
      var m := body[0] == '\\';
      assert body[0] == q ==> EscapedAt(escaped, body, 0);
      assert NextMode(Literal(q, escaped), body[0]) == Literal(q, m);
      forall i | 0 <= i < |body[1..]| && body[1..][i] == q ensures EscapedAt(m, body[1..], i) {
        assert body[i + 1] == q && EscapedAt(escaped, body, i + 1);
      }
      LiteralRuns(q, m, body[1..]);
    }
  }

  /** A string literal in code, whatever brackets, other quotes and escaped quotes are in it, counts for
      nothing. */
  lemma LiteralIsSkipped(pre: string, q: char, body: string, post: string)
    requires IsQuote(q) && ModeAfter(Code, pre) == Code && StaysInside(q, false, body)
    ensures CodeBrackets(Code, pre + [q] + body + [q] + post) == CodeBrackets(Code, pre) + CodeBrackets(Code, post)
    ensures Accepts(pre + [q] + body + [q] + post) == Accepts(pre + post)
  {
    var inside := Literal(q, false);
    LiteralRuns(q, false, body);
    assert [q][1..] == [];
    assert NextMode(Code, q) == inside && ModeAfter(inside, []) == inside && CodeBrackets(inside, []) == [];
    assert ModeAfter(Code, [q]) == inside && CodeBrackets(Code, [q]) == [];
    assert NextMode(inside, q) == Code;
    assert ModeAfter(Code, []) == Code && CodeBrackets(Code, []) == [];
    assert ModeAfter(inside, [q]) == Code && CodeBrackets(inside, [q]) == [];
    ModeConcat(Code, pre, [q]);
    ModeConcat(Code, pre + [q], body);
    ModeConcat(Code, pre + [q] + body, [q]);
    ModeConcat(Code, pre + [q] + body + [q], post);
    ModeConcat(Code, pre, post);
    assert CodeBrackets(Code, pre) + [] + [] + [] == CodeBrackets(Code, pre);
  }

  // ---------------------------------------------------------------------
  // Inserting a snippet into a host
  // ---------------------------------------------------------------------

  lemma {:induction false} ModeConcat(m: Mode, a: string, b: string)
    ensures ModeAfter(m, a + b) == ModeAfter(ModeAfter(m, a), b)
    ensures CodeBrackets(m, a + b) == CodeBrackets(m, a) + CodeBrackets(ModeAfter(m, a), b)
    decreases |a|
  {
    if a == [] {
      assert a + b == b;
    } else {
      assert (a + b)[1..] == a[1..] + b;
      ModeConcat(NextMode(m, a[0]), a[1..], b);
      var head := if m == Code && (IsOpener(a[0]) || IsCloser(a[0])) then [a[0]] else [];
      var x, y := CodeBrackets(NextMode(m, a[0]), a[1..]), CodeBrackets(ModeAfter(m, a), b);
      assert head + (x + y) == (head + x) + y;
    }
  }

  /** An accepted snippet that ends outside a string: it can stand anywhere in code. */
  predicate Neutral(s: string) {
    Accepts(s) && ModeAfter(Code, s) == Code
  }

  /** Inserting a neutral snippet at a code position keeps the host's verdict. */
  lemma NeutralInsertion(pre: string, s: string, post: string)
    requires Neutral(s) && ModeAfter(Code, pre) == Code
    ensures Accepts(pre + s + post) == Accepts(pre + post)
    ensures ModeAfter(Code, pre + s + post) == ModeAfter(Code, pre + post)
  {
    var a, b, c := CodeBrackets(Code, pre), CodeBrackets(Code, s), CodeBrackets(Code, post);
    ModeConcat(Code, pre, s);
    ModeConcat(Code, pre + s, post);
    ModeConcat(Code, pre, post);
    RunConcat([], a + b, c);
    RunConcat([], a, b);
    RunConcat([], a, c);
    RunIsGrammar(b);
    var d :| Grammatical(d) && Word(d) == b;
    if Run([], a).Some? {
      GrammarRuns(Run([], a).value, d);
    }
  }

  /** Main result: an accepted snippet leaves every host's verdict unchanged, at every
      position outside a string, if and only if it ends outside a string itself. The
      source does not check that it does. */
  lemma InsertionKeepsVerdicts(s: string)
    requires Accepts(s)
    ensures ModeAfter(Code, s) == Code
            <==> forall pre: string, post: string :: ModeAfter(Code, pre) == Code ==>
                   Accepts(pre + s + post) == Accepts(pre + post)
  {
    if ModeAfter(Code, s) == Code {
      forall pre: string, post: string | ModeAfter(Code, pre) == Code
        ensures Accepts(pre + s + post) == Accepts(pre + post)
      {
        NeutralInsertion(pre, s, post);
      }
    } else {
      var open := ModeAfter(Code, s);
      LiteralQuote(Code, s);
      assert [] + s + ")" == s + ")" && [] + ")" == ")";
      ModeConcat(Code, s, ")");
      assert CodeBrackets(open, ")") == [];
      assert CodeBrackets(Code, ")") == ")" + CodeBrackets(Code, ")"[1..]) == ")";
      assert CodeBrackets(Code, s + ")") == CodeBrackets(Code, s);
      assert Accepts([] + s + ")") && !Accepts([] + ")");
    }
  }

  lemma {:induction false} LiteralQuote(m: Mode, s: string)
    requires m.Literal? ==> IsQuote(m.quote)
    ensures ModeAfter(m, s).Literal? ==> IsQuote(ModeAfter(m, s).quote)
    decreases |s|
  {
    if s != [] {
      LiteralQuote(NextMode(m, s[0]), s[1..]);
    }
  }

  /** The unchecked case: a snippet that opens a string and never closes it is accepted,
      and hides the brackets of the host that follow it. */
  lemma OpenStringAccepted()
    ensures Accepts("'(") && !Accepts(")") && Accepts("'(" + ")")
  {
    assert CodeBrackets(Literal('\'', false), "(") == [];
    assert "'("[1..] == "(";
    assert ("'(" + ")")[1..] == "()" && "()"[1..] == ")";
  }
}
