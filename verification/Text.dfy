/** Results and text shared by the modules: a text is a sequence of characters
    whose only line break is '\n'. */
module Text {
  datatype Option<+T> = None | Some(value: T)

  datatype Result<+T, +E> = Ok(value: T) | Err(error: E)

  predicate OccursAt(text: string, sub: string, at: nat) {
    at + |sub| <= |text| && text[at..at + |sub|] == sub
  }

  /** `sub in text` of the source. */
  predicate Contains(text: string, sub: string) {
    exists at: nat :: at <= |text| && OccursAt(text, sub, at)
  }

  function EnsureNewline(text: string): (r: string)
    ensures text != [] && text[|text| - 1] == '\n' ==> r == text
    ensures r != [] && r[|r| - 1] == '\n' && text <= r
  {
    if text != [] && text[|text| - 1] == '\n' then text else text + "\n"
  }

  /** `"".join(lines)`. */
  function Join(lines: seq<string>): string {
    if lines == [] then "" else lines[0] + Join(lines[1..])
  }

  lemma {:induction false} JoinConcat(a: seq<string>, b: seq<string>)
    ensures Join(a + b) == Join(a) + Join(b)
  {
    if a == [] {
      assert a + b == b;
    } else {
      assert (a + b)[1..] == a[1..] + b;
      JoinConcat(a[1..], b);
    }
  }

  /** The text before and including the first line break, or all of it. */
  function FirstLineEnd(text: string): (n: nat)
    requires text != []
    ensures 1 <= n <= |text|
    ensures forall i :: 0 <= i < n - 1 ==> text[i] != '\n'
    ensures n < |text| ==> text[n - 1] == '\n'
  {
    if text[0] == '\n' || |text| == 1 then 1 else 1 + FirstLineEnd(text[1..])
  }

  /** `text.splitlines(keepends=True)`. */
  function SplitLines(text: string): (lines: seq<string>)
    ensures Join(lines) == text
  {
    if text == [] then []
    else
      var n := FirstLineEnd(text);
      [text[..n]] + SplitLines(text[n..])
  }

  predicate IsLine(line: string) {
    line != [] && forall i :: 0 <= i < |line| - 1 ==> line[i] != '\n'
  }

  predicate EndsLine(line: string) {
    line != [] && line[|line| - 1] == '\n'
  }

  /** The shape `splitlines` produces: non-empty lines, every one but the last ended. */
  predicate AreLines(lines: seq<string>) {
    (forall i :: 0 <= i < |lines| ==> IsLine(lines[i])) &&
    (forall i :: 0 <= i < |lines| - 1 ==> EndsLine(lines[i]))
  }

  lemma {:induction false} SplitShape(text: string)
    ensures AreLines(SplitLines(text))
    ensures text != [] ==> SplitLines(text) != []
    ensures EndsLine(text) ==> EndsLine(SplitLines(text)[|SplitLines(text)| - 1])
    decreases |text|
  {
    if text != [] {
      hide Join, IsLine, EndsLine, AreLines;
      var n := FirstLineEnd(text);
      var rest := SplitLines(text[n..]);
      FirstLine(text);
      SplitShape(text[n..]);
      assert SplitLines(text) == [text[..n]] + rest;
      assert text[n..] == [] ==> rest == [];
      OneMoreLine(text[..n], rest);
    }
  }

  lemma FirstLine(text: string)
    requires text != []
    ensures var n := FirstLineEnd(text);
            && IsLine(text[..n])
            && (text[n..] != [] ==> EndsLine(text[..n]))
            && (EndsLine(text) ==> if text[n..] == [] then EndsLine(text[..n]) else EndsLine(text[n..]))
  {
  }

  lemma OneMoreLine(first: string, rest: seq<string>)
    requires IsLine(first) && AreLines(rest) && (rest != [] ==> EndsLine(first))
    ensures AreLines([first] + rest)
  {
  }

  /** Splitting is the only way to cut a text into lines: it inverts joining. */
  lemma {:induction false} SplitJoin(lines: seq<string>)
    requires AreLines(lines)
    ensures SplitLines(Join(lines)) == lines
    decreases |lines|
  {
    if lines != [] {
      var text := Join(lines);
      var n := FirstLineEnd(text);
      FirstLineIs(lines[0], Join(lines[1..]));
      if |lines| == 1 { assert Join(lines[1..]) == []; }
      assert text[..n] == lines[0];
      assert text[n..] == Join(lines[1..]);
      SplitJoin(lines[1..]);
    }
  }

  lemma {:induction false} FirstLineIs(line: string, rest: string)
    requires IsLine(line) && (rest == [] || EndsLine(line))
    ensures FirstLineEnd(line + rest) == |line|
  {
    if |line| > 1 {
      assert (line + rest)[1..] == line[1..] + rest;
      FirstLineIs(line[1..], rest);
    }
  }
}
