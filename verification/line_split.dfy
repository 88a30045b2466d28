/**
 * Reading a text line by line as successive std::getline calls do, and
 * concatenating what a rule makes of each line. The rule is a parameter, so
 * these facts hold for the streaming decoder whatever it does with a line.
 */
module LineSplit {

  /** The index of the first newline in s, or |s| when there is none. */
  function FirstNewline(s: string): (i: nat)
    ensures i <= |s|
    ensures forall k :: 0 <= k < i ==> s[k] != '\n'
    ensures i < |s| ==> s[i] == '\n'
  {
    if s == [] then 0
    else if s[0] == '\n' then 0
    else 1 + FirstNewline(s[1..])
  }

  /** Any index with the defining properties of the first newline is the first newline. */
  lemma FirstNewlineUnique(s: string, j: nat)
    requires j <= |s|
    requires forall k :: 0 <= k < j ==> s[k] != '\n'
    requires j < |s| ==> s[j] == '\n'
    ensures FirstNewline(s) == j
  {
  }

  /**
   * The lines successive std::getline calls read from a text: each newline
   * ends a line and is not part of it, and a final line without a newline is
   * read only when it is not empty.
   */
  function Lines(text: string): (r: seq<string>)
    ensures r == [] <==> text == []
    decreases |text|
  {
    if text == [] then []
    else
      var i := FirstNewline(text);
      if i == |text| then [text]
      else [text[..i]] + Lines(text[i + 1..])
  }

  /** No line read contains a newline. */
  lemma {:induction false} LinesNewlineFree(text: string)
    ensures forall k :: 0 <= k < |Lines(text)| ==> '\n' !in Lines(text)[k]
    decreases |text|
  {
    if text != [] {
      var i := FirstNewline(text);
      if i < |text| {
        LinesNewlineFree(text[i + 1..]);
        assert '\n' !in text[..i] by {
          forall k | 0 <= k < i ensures text[..i][k] != '\n' { }
        }
      }
    }
  }

  /** Unfolds Lines at a text whose first newline is at index i. */
  lemma LinesAt(text: string, i: nat)
    requires i < |text| && text[i] == '\n'
    requires forall k :: 0 <= k < i ==> text[k] != '\n'
    ensures Lines(text) == [text[..i]] + Lines(text[i + 1..])
  {
    FirstNewlineUnique(text, i);
  }

  /** A non-empty text without a newline is one line. */
  lemma LinesOne(text: string)
    requires text != []
    requires forall k :: 0 <= k < |text| ==> text[k] != '\n'
    ensures Lines(text) == [text]
  {
    FirstNewlineUnique(text, |text|);
  }

  /** The line std::getline reads at pos ends at a newline, and reading resumes after it. */
  lemma NextLineNewline(text: string, pos: nat, end: nat)
    requires pos <= end < |text| && text[end] == '\n'
    requires forall k :: pos <= k < end ==> text[k] != '\n'
    ensures Lines(text[pos..]) == [text[pos..end]] + Lines(text[end + 1..])
  {
    var rest := text[pos..];
    assert rest[..end - pos] == text[pos..end] && rest[end - pos + 1..] == text[end + 1..];
    LinesAt(rest, end - pos);
  }

  /** The last line std::getline reads runs to the end of the text. */
  lemma NextLineLast(text: string, pos: nat)
    requires pos < |text|
    requires forall k :: pos <= k < |text| ==> text[k] != '\n'
    ensures Lines(text[pos..]) == [text[pos..|text|]] + Lines(text[|text|..])
  {
    var rest := text[pos..];
    assert text[pos..|text|] == rest && text[|text|..] == [];
    LinesOne(rest);
    assert [rest] + [] == [rest];
  }

  /** The line read at pos ends at end; reading resumes after the newline, if there is one. */
  lemma NextLine(text: string, pos: nat, end: nat)
    requires pos < |text| && pos <= end <= |text|
    requires forall k :: pos <= k < end ==> text[k] != '\n'
    requires end < |text| ==> text[end] == '\n'
    ensures Lines(text[pos..]) == [text[pos..end]] + Lines(text[if end < |text| then end + 1 else end..])
  {
    if end < |text| {
      NextLineNewline(text, pos, end);
    } else {
      NextLineLast(text, pos);
    }
  }

  /** The lines written back out, each followed by a newline. */
  function Unlines(ls: seq<string>): string
  {
    if ls == [] then [] else ls[0] + "\n" + Unlines(ls[1..])
  }

  /** The text with a newline added at the end unless it is empty or already ends with one. */
  function Terminated(s: string): string
  {
    if s == [] || s[|s| - 1] == '\n' then s else s + "\n"
  }

  lemma TerminatedPrepend(first: string, rest: string)
    ensures Terminated(first + "\n" + rest) == first + "\n" + Terminated(rest)
  {
    var s := first + "\n" + rest;
    if rest != [] {
      assert s[|s| - 1] == rest[|rest| - 1];
      if rest[|rest| - 1] != '\n' {
        assert s + "\n" == first + "\n" + (rest + "\n");
      }
    }
  }

  lemma UnlinesLinesStep(text: string, i: nat)
    requires i == FirstNewline(text) && i < |text|
    ensures Unlines(Lines(text)) == text[..i] + "\n" + Unlines(Lines(text[i + 1..]))
  {
    LinesAt(text, i);
    var ls := Lines(text);
    assert ls[0] == text[..i] && ls[1..] == Lines(text[i + 1..]);
  }

  /** Splitting loses nothing but a missing final newline. */
  lemma {:induction false} UnlinesLines(text: string)
    ensures Unlines(Lines(text)) == Terminated(text)
    decreases |text|
  {
    if text != [] {
      var i := FirstNewline(text);
      if i < |text| {
        UnlinesLines(text[i + 1..]);
        UnlinesLinesStep(text, i);
        TerminatedAt(text, i);
      } else {
        UnlinesLinesLast(text);
      }
    }
  }

  lemma TerminatedAt(text: string, i: nat)
    requires i < |text| && text[i] == '\n'
    ensures Terminated(text) == text[..i] + "\n" + Terminated(text[i + 1..])
  {
    assert text == text[..i] + "\n" + text[i + 1..];
    TerminatedPrepend(text[..i], text[i + 1..]);
  }

  lemma UnlinesLinesLast(text: string)
    requires text != [] && FirstNewline(text) == |text|
    ensures Unlines(Lines(text)) == Terminated(text)
  {
    assert text[|text| - 1] != '\n';
    assert Lines(text) == [text];
    assert Unlines([text]) == text + "\n" + Unlines([]);
  }

  /** Newline-free lines written out with newlines are read back unchanged. */
  lemma {:induction false} LinesUnlines(ls: seq<string>)
    requires forall k :: 0 <= k < |ls| ==> '\n' !in ls[k]
    ensures Lines(Unlines(ls)) == ls
  {
    if ls != [] {
      var text := Unlines(ls);
      assert text == ls[0] + "\n" + Unlines(ls[1..]);
      FirstNewlineUnique(text, |ls[0]|);
      assert text[..|ls[0]|] == ls[0];
      assert text[|ls[0]| + 1..] == Unlines(ls[1..]);
      LinesUnlines(ls[1..]);
    }
  }

  /** What the rule f makes of each line, concatenated in line order. */
  function ConcatMap(f: string -> string, ls: seq<string>): string
  {
    if ls == [] then [] else f(ls[0]) + ConcatMap(f, ls[1..])
  }

  /** A non-empty concatenation has a line the rule makes something of. */
  lemma {:induction false} ConcatMapNonEmpty(f: string -> string, ls: seq<string>)
    ensures ConcatMap(f, ls) != [] ==> exists k :: 0 <= k < |ls| && f(ls[k]) != []
  {
    if ls != [] && f(ls[0]) == [] && ConcatMap(f, ls) != [] {
      ConcatMapNonEmpty(f, ls[1..]);
      var k :| 0 <= k < |ls[1..]| && f(ls[1..][k]) != [];
      assert f(ls[k + 1]) != [];
    }
  }

  lemma ConcatAssoc(a: string, b: string, c: string)
    ensures a + (b + c) == (a + b) + c
  {
  }

  lemma ConcatMapCons(f: string -> string, line: string, ls: seq<string>)
    ensures ConcatMap(f, [line] + ls) == f(line) + ConcatMap(f, ls)
  {
    assert ([line] + ls)[0] == line && ([line] + ls)[1..] == ls;
  }

  lemma {:induction false} ConcatMapAppend(f: string -> string, a: seq<string>, b: seq<string>)
    ensures ConcatMap(f, a + b) == ConcatMap(f, a) + ConcatMap(f, b)
  {
    if a != [] {
      ConcatMapAppend(f, a[1..], b);
      assert a + b == [a[0]] + (a[1..] + b);
      assert a == [a[0]] + a[1..];
      ConcatMapCons(f, a[0], a[1..] + b);
      ConcatMapCons(f, a[0], a[1..]);
      ConcatAssoc(f(a[0]), ConcatMap(f, a[1..]), ConcatMap(f, b));
    } else {
      assert a + b == b;
    }
  }

  /** A text without a newline contributes what the rule makes of it as one line. */
  lemma ConcatMapOneLine(f: string -> string, line: string)
    requires f([]) == []
    requires forall k :: 0 <= k < |line| ==> line[k] != '\n'
    ensures ConcatMap(f, Lines(line)) == f(line)
  {
    if line != [] {
      LinesOne(line);
      ConcatMapCons(f, line, []);
    }
  }

  /** How Lines unfolds on x + "\n" + y when x has its first newline at i. */
  lemma LinesConcatStep(x: string, y: string, i: nat)
    requires i < |x| && x[i] == '\n'
    requires forall k :: 0 <= k < i ==> x[k] != '\n'
    ensures Lines(x + "\n" + y) == [x[..i]] + Lines(x[i + 1..] + "\n" + y)
  {
    var s := x + "\n" + y;
    assert s[..i] == x[..i] && s[i + 1..] == x[i + 1..] + "\n" + y;
    LinesAt(s, i);
  }

  /** The base case of ConcatMapLinesJoin: the first piece holds no newline. */
  lemma ConcatMapLinesJoinLine(f: string -> string, x: string, y: string)
    requires f([]) == []
    requires forall k :: 0 <= k < |x| ==> x[k] != '\n'
    ensures ConcatMap(f, Lines(x + "\n" + y)) == ConcatMap(f, Lines(x)) + ConcatMap(f, Lines(y))
  {
    var s := x + "\n" + y;
    LinesAt(s, |x|);
    assert s[..|x|] == x && s[|x| + 1..] == y;
    ConcatMapCons(f, x, Lines(y));
    ConcatMapOneLine(f, x);
  }

  /** The inductive step of ConcatMapLinesJoin: the first piece has its first newline at i. */
  lemma ConcatMapLinesJoinStep(f: string -> string, x: string, y: string, i: nat)
    requires i < |x| && x[i] == '\n'
    requires forall k :: 0 <= k < i ==> x[k] != '\n'
    requires ConcatMap(f, Lines(x[i + 1..] + "\n" + y)) ==
      ConcatMap(f, Lines(x[i + 1..])) + ConcatMap(f, Lines(y))
    ensures ConcatMap(f, Lines(x + "\n" + y)) == ConcatMap(f, Lines(x)) + ConcatMap(f, Lines(y))
  {
    var rest := x[i + 1..];
    LinesConcatStep(x, y, i);
    LinesAt(x, i);
    ConcatMapCons(f, x[..i], Lines(rest + "\n" + y));
    ConcatMapCons(f, x[..i], Lines(rest));
    ConcatAssoc(f(x[..i]), ConcatMap(f, Lines(rest)), ConcatMap(f, Lines(y)));
  }

  /**
   * Line-wise concatenation is compositional: for a rule that makes nothing
   * of an empty line, two pieces of text joined by a newline give what the
   * first gives followed by what the second gives. (When x itself ends with a
   * newline the join adds an empty line, which contributes nothing.)
   */
  lemma {:induction false} ConcatMapLinesJoin(f: string -> string, x: string, y: string)
    requires f([]) == []
    ensures ConcatMap(f, Lines(x + "\n" + y)) == ConcatMap(f, Lines(x)) + ConcatMap(f, Lines(y))
    decreases |x|
  {
    var i := FirstNewline(x);
    if i == |x| {
      ConcatMapLinesJoinLine(f, x, y);
    } else {
      ConcatMapLinesJoin(f, x[i + 1..], y);
      ConcatMapLinesJoinStep(f, x, y, i);
    }
  }
}
