/** `CodeModificationEngine.rename_symbol`: a regular-expression substitution over the
    source, guarded by what the parser says about the text before and after. */
module Rename {
  import opened Text

  /** Which characters `\w` matches. */
  type WordClass = char -> bool

  predicate AllWord(w: WordClass, s: string) {
    forall i :: 0 <= i < |s| ==> w(s[i])
  }

  predicate IsName(w: WordClass, s: string) {
    s != [] && AllWord(w, s)
  }

  // ---------------------------------------------------------------------
  // The substitution as the regular-expression engine runs it
  // ---------------------------------------------------------------------

  /** `(?<![\w.])(old)(?![\w])` at the start of `s`. `blocked` says that the character
      just before `s` is a word character or a dot, so that the look-behind fails. */
  predicate Matches(w: WordClass, blocked: bool, s: string, old_: string) {
    !blocked && old_ <= s && (|old_| < |s| ==> !w(s[|old_|]))
  }

  predicate Blocks(w: WordClass, c: char) {
    w(c) || c == '.'
  }

  /** `re.sub(pattern, new_name, source)`: leftmost matches, without overlap. */
  function Substitute(w: WordClass, blocked: bool, s: string, old_: string, new_: string): string
    requires old_ != []
    decreases |s|
  {
    if s == [] then []
    else if Matches(w, blocked, s, old_) then
      new_ + Substitute(w, Blocks(w, old_[|old_| - 1]), s[|old_|..], old_, new_)
    else
      [s[0]] + Substitute(w, Blocks(w, s[0]), s[1..], old_, new_)
  }

  // ---------------------------------------------------------------------
  // Tokens: maximal runs of word characters, and single other characters
  // ---------------------------------------------------------------------

  function RunLength(w: WordClass, s: string): (n: nat)
    ensures n <= |s| && AllWord(w, s[..n])
    ensures n < |s| ==> !w(s[n])
  {
    if s == [] || !w(s[0]) then 0 else 1 + RunLength(w, s[1..])
  }

  function Tokens(w: WordClass, s: string): (ts: seq<string>)
    ensures Join(ts) == s
    decreases |s|
  {
    if s == [] then []
    else
      var n := if w(s[0]) then RunLength(w, s) else 1;
      [s[..n]] + Tokens(w, s[n..])
  }

  predicate IsToken(w: WordClass, t: string) {
    IsName(w, t) || (|t| == 1 && !w(t[0]))
  }

  /** The shape of a tokenization: no two runs of word characters touch. */
  predicate AreTokens(w: WordClass, ts: seq<string>) {
    (forall i :: 0 <= i < |ts| ==> IsToken(w, ts[i])) &&
    (forall i :: 0 < i < |ts| ==> IsName(w, ts[i]) ==> !IsName(w, ts[i - 1]))
  }

  /** Token `i` is the name and is not an attribute access. */
  predicate Free(ts: seq<string>, i: nat, name: string)
    requires i < |ts|
  {
    ts[i] == name && (i > 0 ==> ts[i - 1] != ".")
  }

  predicate Mentions(ts: seq<string>, name: string) {
    exists i :: 0 <= i < |ts| && Free(ts, i, name)
  }

  function MapTokens(ts: seq<string>, old_: string, new_: string): seq<string> {
    seq(|ts|, i requires 0 <= i < |ts| => if Free(ts, i, old_) then new_ else ts[i])
  }

  lemma {:induction false} TokensShape(w: WordClass, s: string)
    ensures AreTokens(w, Tokens(w, s))
    decreases |s|
  {
    if s != [] {
      var n := if w(s[0]) then RunLength(w, s) else 1;
      TokensShape(w, s[n..]);
      if n < |s| && w(s[0]) {
        assert s[n..][0] == s[n];
        assert !w(Tokens(w, s[n..])[0][0]);
      }
    }
  }

  /** A text has one tokenization. */
  lemma {:induction false} TokensOfJoin(w: WordClass, ts: seq<string>)
    requires AreTokens(w, ts)
    ensures Tokens(w, Join(ts)) == ts
    decreases |ts|
  {
    if ts != [] {
      var s, rest := Join(ts), Join(ts[1..]);
      assert s == ts[0] + rest;
      if |ts| == 1 {
        assert rest == [];
      } else {
        assert rest[0] == ts[1][0];
      }
      if IsName(w, ts[0]) {
        RunIs(w, ts[0], rest);
      }
      var n := if w(s[0]) then RunLength(w, s) else 1;
      assert n == |ts[0]|;
      assert s[..n] == ts[0] && s[n..] == rest;
      TokensOfJoin(w, ts[1..]);
    }
  }

  lemma {:induction false} RunIs(w: WordClass, run: string, rest: string)
    requires AllWord(w, run) && (rest != [] ==> !w(rest[0]))
    ensures RunLength(w, run + rest) == |run|
  {
    if run != [] {
      assert (run + rest)[1..] == run[1..] + rest;
      RunIs(w, run[1..], rest);
    } else {
      assert run + rest == rest;
    }
  }

  // ---------------------------------------------------------------------
  // The substitution is the map over tokens
  // ---------------------------------------------------------------------

  /** Inside a word run the look-behind fails, so the rest of the run is copied. */
  lemma {:induction false} RunIsCopied(w: WordClass, run: string, rest: string, old_: string, new_: string)
    requires old_ != [] && AllWord(w, run)
    ensures run != [] ==> Substitute(w, true, run + rest, old_, new_)
                          == run + Substitute(w, true, rest, old_, new_)
  {
    if run != [] {
      var s := run + rest;
      assert s[1..] == run[1..] + rest;
      if |run| == 1 {
        assert s[1..] == rest;
      } else {
        RunIsCopied(w, run[1..], rest, old_, new_);
        assert run == [run[0]] + run[1..];
      }
    }
  }

  /** At the start of a token the name matches exactly when it is that token. */
  lemma MatchIsToken(w: WordClass, t: string, rest: string, old_: string)
    requires IsName(w, old_) && IsToken(w, t)
    requires IsName(w, t) && rest != [] ==> !w(rest[0])
    ensures Matches(w, false, t + rest, old_) <==> t == old_
  {
    var s := t + rest;
    if Matches(w, false, s, old_) {
      assert w(s[0]) by { assert s[0] == old_[0]; }
      assert forall i :: 0 <= i < |old_| ==> s[i] == old_[i];
      assert |t| <= |old_| by {
        assert |old_| < |s| ==> !w(s[|old_|]);
      }
      assert |old_| <= |t| by {
        assert |t| < |s| ==> s[|t|] == rest[0];
      }
      assert t == s[..|t|];
    }
  }

  /** One token of the scan. */
  lemma {:induction false} TokenStep(w: WordClass, blocked: bool, t: string, rest: string, old_: string, new_: string)
    requires IsName(w, old_) && IsToken(w, t)
    requires IsName(w, t) && rest != [] ==> !w(rest[0])
    ensures Substitute(w, blocked, t + rest, old_, new_)
            == (if !blocked && t == old_ then new_ else t)
               + Substitute(w, Blocks(w, t[|t| - 1]), rest, old_, new_)
  {
    var s := t + rest;
    MatchIsToken(w, t, rest, old_);
    if !blocked && t == old_ {
      assert s[|old_|..] == rest;
    } else {
      assert !Matches(w, blocked, s, old_);
      assert s[1..] == t[1..] + rest;
      if |t| == 1 {
        assert s[1..] == rest;
      } else {
        RunIsCopied(w, t[1..], rest, old_, new_);
        Prepend(t, Substitute(w, true, rest, old_, new_));
      }
    }
  }

  lemma Prepend(t: string, rest: string)
    requires t != []
    ensures [t[0]] + (t[1..] + rest) == t + rest
  {
  }

  lemma {:induction false} SubstituteFrom(w: WordClass, ts: seq<string>, i: nat, old_: string, new_: string)
    requires !w('.') && IsName(w, old_) && AreTokens(w, ts) && i <= |ts|
    ensures Substitute(w, i > 0 && Blocks(w, ts[i - 1][|ts[i - 1]| - 1]), Join(ts[i..]), old_, new_)
            == Join(MapTokens(ts, old_, new_)[i..])
    decreases |ts| - i
  {
    if i < |ts| {
      var blocked := i > 0 && Blocks(w, ts[i - 1][|ts[i - 1]| - 1]);
      var t, rest := ts[i], Join(ts[i + 1..]);
      assert ts[i..][1..] == ts[i + 1..];
      assert Join(ts[i..]) == t + rest;
      if i + 1 < |ts| {
        assert ts[i + 1..][0] == ts[i + 1];
        assert rest[0] == ts[i + 1][0];
      }
      TokenStep(w, blocked, t, rest, old_, new_);
      SubstituteFrom(w, ts, i + 1, old_, new_);
      var mapped := MapTokens(ts, old_, new_);
      assert mapped[i..][1..] == mapped[i + 1..];
      assert Join(mapped[i..]) == mapped[i] + Join(mapped[i + 1..]);
      if i > 0 && t == old_ {
        assert ts[i - 1] == "." <==> blocked;
      }
    }
  }

  /** Main result: the substitution renames exactly the free tokens. */
  lemma SubstituteIsTokenMap(w: WordClass, source: string, old_: string, new_: string)
    requires !w('.') && IsName(w, old_)
    ensures Substitute(w, false, source, old_, new_)
            == Join(MapTokens(Tokens(w, source), old_, new_))
  {
    var ts := Tokens(w, source);
    TokensShape(w, source);
    SubstituteFrom(w, ts, 0, old_, new_);
    assert ts[0..] == ts;
    assert MapTokens(ts, old_, new_)[0..] == MapTokens(ts, old_, new_);
  }

  // ---------------------------------------------------------------------
  // rename_symbol
  // ---------------------------------------------------------------------

  /** What the method asks of Python: which texts are identifiers, and the names of the
      top-level functions and classes of a module that parses. */
  datatype Language = Language(isWord: WordClass,
                               isIdentifier: string -> bool,
                               parse: string -> Option<seq<string>>)

  ghost predicate Lawful(l: Language) {
    && !l.isWord('.') && !l.isWord('\n')
    && (forall n :: l.isIdentifier(n) ==> n != [])
    && (forall text, n :: l.parse(text).Some? && n in l.parse(text).value ==> l.isIdentifier(n))
  }

  datatype RenameError =
    | NotAnIdentifier | SourceInvalid | OldMissing | NewExists
    | ResultInvalid | NewNotProduced | OldLeftBehind

  function RenameSymbol(l: Language, source: string, old_: string, new_: string): Result<string, RenameError>
    requires Lawful(l)
  {
    if !l.isIdentifier(new_) then Err(NotAnIdentifier)
    else if l.parse(source).None? then Err(SourceInvalid)
    else if old_ !in l.parse(source).value then Err(OldMissing)
    else if new_ in l.parse(source).value then Err(NewExists)
    else
      assert l.isIdentifier(old_);
      var result := EnsureNewline(Substitute(l.isWord, false, source, old_, new_));
      if l.parse(result).None? then Err(ResultInvalid)
      else if new_ !in l.parse(result).value then Err(NewNotProduced)
      else if old_ in l.parse(result).value then Err(OldLeftBehind)
      else Ok(result)
  }

  /** What an accepted rename returns: the source with its free tokens renamed, ending its
      last line, whose top level has the new name and no longer the old one. */
  lemma RenamedText(l: Language, source: string, old_: string, new_: string)
    requires Lawful(l) && RenameSymbol(l, source, old_, new_).Ok?
    ensures var r := RenameSymbol(l, source, old_, new_).value;
            && (IsName(l.isWord, old_) ==> r == EnsureNewline(Join(MapTokens(Tokens(l.isWord, source), old_, new_))))
            && l.parse(r).Some? && new_ in l.parse(r).value && old_ !in l.parse(r).value
  {
    hide Substitute, Tokens, MapTokens;
    if IsName(l.isWord, old_) {
      SubstituteIsTokenMap(l.isWord, source, old_, new_);
    }
  }

  /** A rename of a name of word characters is accepted if and only if the new name is an identifier, the
      source parses and defines the old name and not the new one at its top level, and the renamed
      text parses and defines the new one and not the old one. */
  lemma RenameAccepted(l: Language, source: string, old_: string, new_: string)
    requires Lawful(l) && IsName(l.isWord, old_)
    ensures RenameSymbol(l, source, old_, new_).Ok? <==>
              var r := EnsureNewline(Join(MapTokens(Tokens(l.isWord, source), old_, new_)));
              && l.isIdentifier(new_) && l.parse(source).Some? && old_ in l.parse(source).value && new_ !in l.parse(source).value
              && l.parse(r).Some? && new_ in l.parse(r).value && old_ !in l.parse(r).value
  {
    hide Substitute, Tokens, MapTokens;
    SubstituteIsTokenMap(l.isWord, source, old_, new_);
  }

  /** For which names the substitution renames exactly the free tokens of every source: those whose
      characters are all word characters. Python also allows names with others, a combining mark
      say, and renames them differently. */
  lemma TokenMapExactly(w: WordClass, old_: string)
    requires !w('.') && w('a') && old_ != []
    ensures (forall source: string, new_: string ::
               Substitute(w, false, source, old_, new_) == Join(MapTokens(Tokens(w, source), old_, new_)))
            <==> IsName(w, old_)
  {
    if IsName(w, old_) {
      forall source: string, new_: string
        ensures Substitute(w, false, source, old_, new_) == Join(MapTokens(Tokens(w, source), old_, new_))
      {
        SubstituteIsTokenMap(w, source, old_, new_);
      }
    } else if |old_| == 1 {
      NotBeforeWord(w, old_);
    } else {
      WholeName(w, old_);
    }
  }

  /** A single other character is no match before a word character, but is a token there. */
  lemma NotBeforeWord(w: WordClass, old_: string)
    requires w('a') && |old_| == 1 && !w(old_[0])
    ensures Substitute(w, false, old_ + "a", old_, "b" + old_) != Join(MapTokens(Tokens(w, old_ + "a"), old_, "b" + old_))
  {
    var s, ts := old_ + "a", [old_, "a"];
    assert Join(ts[1..]) == "a" + Join([]);
    assert Join(ts) == s;
    TokensOfJoin(w, ts);
    var mapped := MapTokens(ts, old_, "b" + old_);
    assert Free(ts, 0, old_) && mapped[0] == "b" + old_;
    assert Join(mapped) == mapped[0] + Join(mapped[1..]);
    assert s[1..] == "a";
    assert |Substitute(w, false, s, old_, "b" + old_)| == 2;
  }

  /** A longer name is matched as a whole, but is not one token. */
  lemma WholeName(w: WordClass, old_: string)
    requires !IsName(w, old_) && |old_| > 1
    ensures Substitute(w, false, old_, old_, old_ + old_) != Join(MapTokens(Tokens(w, old_), old_, old_ + old_))
  {
    var ts := Tokens(w, old_);
    TokensShape(w, old_);
    assert MapTokens(ts, old_, old_ + old_) == ts;
    assert old_[|old_|..] == [];
    assert Substitute(w, false, old_, old_, old_ + old_) == old_ + old_ + [];
  }

  lemma {:induction false} JoinEnds(ts: seq<string>)
    requires ts != [] && ts[|ts| - 1] != []
    ensures EndsLine(Join(ts)) <==> EndsLine(ts[|ts| - 1])
  {
    if |ts| > 1 {
      JoinEnds(ts[1..]);
      assert Join(ts[1..]) != [] by {
        JoinConcat(ts[1..|ts| - 1], [ts[|ts| - 1]]);
        assert ts[1..] == ts[1..|ts| - 1] + [ts[|ts| - 1]];
        assert Join([ts[|ts| - 1]]) == ts[|ts| - 1];
      }
    } else {
      assert Join(ts) == ts[0];
    }
  }

  lemma MapKeepsTokens(w: WordClass, ts: seq<string>, old_: string, new_: string)
    requires AreTokens(w, ts) && IsName(w, old_) && IsName(w, new_)
    ensures AreTokens(w, MapTokens(ts, old_, new_))
  {
  }

  /** Renaming twice, token by token, is the identity when the new name was not free. */
  lemma MapBack(w: WordClass, ts: seq<string>, old_: string, new_: string)
    requires !w('.') && AreTokens(w, ts) && IsName(w, old_) && IsName(w, new_) && old_ != new_
    ensures MapTokens(MapTokens(ts, old_, new_), new_, old_) == ts <==> !Mentions(ts, new_)
  {
    var mapped := MapTokens(ts, old_, new_);
    var back := MapTokens(mapped, new_, old_);
    assert old_ != "." && new_ != "." by {
      assert w(old_[0]) && w(new_[0]);
    }
    forall i | 0 <= i < |ts|
      ensures Free(mapped, i, new_) <==> Free(ts, i, old_) || Free(ts, i, new_)
    {
      if i > 0 { assert mapped[i - 1] == "." <==> ts[i - 1] == "."; }
    }
    if Mentions(ts, new_) {
      var i :| 0 <= i < |ts| && Free(ts, i, new_);
      assert back[i] == old_ != ts[i];
    }
  }

  /** Both substitutions, as maps over the tokens of the source. */
  lemma SubstituteTwice(w: WordClass, source: string, old_: string, new_: string)
    requires !w('.') && IsName(w, old_) && IsName(w, new_)
    ensures var ts := Tokens(w, source);
            var back := MapTokens(MapTokens(ts, old_, new_), new_, old_);
            Substitute(w, false, Substitute(w, false, source, old_, new_), new_, old_) == Join(back)
            && Tokens(w, Join(back)) == back
  {
    var ts := Tokens(w, source);
    var mapped := MapTokens(ts, old_, new_);
    TokensShape(w, source);
    MapKeepsTokens(w, ts, old_, new_);
    MapKeepsTokens(w, mapped, new_, old_);
    TokensOfJoin(w, mapped);
    TokensOfJoin(w, MapTokens(mapped, new_, old_));
    SubstituteIsTokenMap(w, source, old_, new_);
    SubstituteIsTokenMap(w, Join(mapped), new_, old_);
  }

  /** A name does not end a line, so neither substitution touches the last line break. */
  lemma SubstituteEnds(w: WordClass, source: string, old_: string, new_: string)
    requires !w('.') && !w('\n') && IsName(w, old_) && EndsLine(source)
    ensures EndsLine(Substitute(w, false, source, old_, new_))
  {
    var ts := Tokens(w, source);
    TokensShape(w, source);
    JoinEnds(ts);
    SubstituteIsTokenMap(w, source, old_, new_);
    var mapped := MapTokens(ts, old_, new_);
    assert mapped[|ts| - 1] == ts[|ts| - 1];
    JoinEnds(mapped);
  }

  lemma SubstituteBack(w: WordClass, source: string, old_: string, new_: string)
    requires !w('.') && IsName(w, old_) && IsName(w, new_) && old_ != new_
    ensures Substitute(w, false, Substitute(w, false, source, old_, new_), new_, old_) == source
            <==> !Mentions(Tokens(w, source), new_)
  {
    TokensShape(w, source);
    MapBack(w, Tokens(w, source), old_, new_);
    SubstituteTwice(w, source, old_, new_);
  }

  lemma NamesOfRename(l: Language, source: string, old_: string, new_: string)
    requires Lawful(l) && RenameSymbol(l, source, old_, new_).Ok?
    ensures old_ != [] && new_ != [] && old_ != new_
    ensures forall back: string, o: string, n: string :: RenameSymbol(l, back, o, n).Ok? ==> EndsLine(RenameSymbol(l, back, o, n).value)
  {
    hide Substitute;
    assert l.isIdentifier(old_) && l.isIdentifier(new_);
  }

  /** Main result: for names of word characters, renaming back restores the source exactly if and
      only if the source ended its last line and the new name was not already a free token of it. */
  lemma RenameBackRestores(l: Language, source: string, old_: string, new_: string)
    requires Lawful(l) && RenameSymbol(l, source, old_, new_).Ok?
    ensures !EndsLine(source) ==>
              RenameSymbol(l, RenameSymbol(l, source, old_, new_).value, new_, old_) != Ok(source)
    ensures IsName(l.isWord, old_) && IsName(l.isWord, new_) ==>
              (RenameSymbol(l, RenameSymbol(l, source, old_, new_).value, new_, old_) == Ok(source)
               <==> EndsLine(source) && !Mentions(Tokens(l.isWord, source), new_))
  {
    hide Substitute, Tokens, Mentions;
    NamesOfRename(l, source, old_, new_);
    if EndsLine(source) && IsName(l.isWord, old_) && IsName(l.isWord, new_) {
      var there := Substitute(l.isWord, false, source, old_, new_);
      SubstituteEnds(l.isWord, source, old_, new_);
      SubstituteEnds(l.isWord, there, new_, old_);
      SubstituteBack(l.isWord, source, old_, new_);
      BackIsSubstitute(l, source, old_, new_);
    }
  }

  /** Where both texts end their last line, renaming back is substituting back. */
  lemma BackIsSubstitute(l: Language, source: string, old_: string, new_: string)
    requires Lawful(l) && RenameSymbol(l, source, old_, new_).Ok? && old_ != [] && new_ != []
    requires EndsLine(Substitute(l.isWord, false, source, old_, new_))
    requires EndsLine(Substitute(l.isWord, false, Substitute(l.isWord, false, source, old_, new_), new_, old_))
    ensures RenameSymbol(l, RenameSymbol(l, source, old_, new_).value, new_, old_) == Ok(source)
            <==> Substitute(l.isWord, false, Substitute(l.isWord, false, source, old_, new_), new_, old_) == source
  {
    hide Substitute;
  }
}
