/** Reading text as lines of words: what the words of a text are, and how the words of its parts give its own. */
module Lexing {
  import opened Text
  import opened Fetcher

  // ---------- words ----------

  type Sep = char -> bool

  /** Only separators. */
  predicate Blank(g: string, sep: Sep) {
    forall i :: 0 <= i < |g| ==> sep(g[i])
  }

  /** One word: not empty, without separators. */
  predicate IsWord(w: string, sep: Sep) {
    w != "" && forall i :: 0 <= i < |w| ==> !sep(w[i])
  }

  predicate AllWords(ws: seq<string>, sep: Sep) {
    forall i :: 0 <= i < |ws| ==> IsWord(ws[i], sep)
  }

  lemma {:induction false} BlankFront(g: string, s: string, sep: Sep)
    requires Blank(g, sep)
    ensures FieldsBy(g + s, sep) == FieldsBy(s, sep)
  {
    if g == "" {
      Units(s);
    } else {
      assert (g + s)[1..] == g[1..] + s;
      BlankFront(g[1..], s, sep);
    }
  }

  lemma {:induction false} FirstIn(w: string, s: string, sep: Sep)
    requires forall i :: 0 <= i < |w| ==> !sep(w[i])
    requires s == "" || sep(s[0])
    ensures FirstIndex(w + s, sep) == |w|
  {
    if w == "" {
      Units(s);
    } else {
      assert (w + s)[1..] == w[1..] + s;
      FirstIn(w[1..], s, sep);
    }
  }

  /** A word in front, ended by a separator or the end. */
  lemma WordFront(w: string, s: string, sep: Sep)
    requires IsWord(w, sep) && (s == "" || sep(s[0]))
    ensures FieldsBy(w + s, sep) == [w] + FieldsBy(s, sep)
  {
    FirstIn(w, s, sep);
    assert (w + s)[0] == w[0] && (w + s)[..|w|] == w && (w + s)[|w|..] == s;
  }

  lemma OneWord(w: string, sep: Sep)
    requires IsWord(w, sep)
    ensures FieldsBy(w, sep) == [w]
  {
    WordFront(w, "", sep);
    Units(w);
  }

  /** Each word after the blanks in front of it, and blanks at the end. */
  function Spaced(gaps: seq<string>, words: seq<string>): (r: string)
    requires |gaps| == |words| + 1
  {
    if words == [] then gaps[0] else gaps[0] + (words[0] + Spaced(gaps[1..], words[1..]))
  }

  /** Blanks everywhere, and between two words at least one. */
  predicate Spacing(gaps: seq<string>, words: seq<string>, sep: Sep) {
    && |gaps| == |words| + 1 && AllWords(words, sep)
    && (forall i :: 0 <= i < |gaps| ==> Blank(gaps[i], sep))
    && (forall i :: 0 < i < |words| ==> gaps[i] != "")
  }

  lemma SpacingRest(gaps: seq<string>, words: seq<string>, sep: Sep)
    requires Spacing(gaps, words, sep) && words != []
    ensures Spacing(gaps[1..], words[1..], sep)
    ensures |words| > 1 ==> Spaced(gaps[1..], words[1..]) != "" && sep(Spaced(gaps[1..], words[1..])[0])
    ensures |words| == 1 ==> Spaced(gaps[1..], words[1..]) == gaps[1]
  {
    assert forall i :: 0 <= i < |words| - 1 ==> words[1..][i] == words[i + 1];
    if |words| > 1 {
      assert gaps[1] != "" && gaps[1..][0] == gaps[1] && Blank(gaps[1], sep);
    }
  }

  /** The words of a text are found again, however they are spaced. */
  lemma {:induction false} FieldsOfSpaced(gaps: seq<string>, words: seq<string>, sep: Sep)
    requires Spacing(gaps, words, sep)
    ensures FieldsBy(Spaced(gaps, words), sep) == words
  {
    if words == [] {
      BlankFront(gaps[0], "", sep);
      Units(gaps[0]);
    } else {
      var rest := Spaced(gaps[1..], words[1..]);
      SpacingRest(gaps, words, sep);
      FieldsOfSpaced(gaps[1..], words[1..], sep);
      assert |words| == 1 && rest != "" ==> sep(rest[0]) by { assert Blank(gaps[1], sep); }
      BlankFront(gaps[0], words[0] + rest, sep);
      WordFront(words[0], rest, sep);
    }
  }

  /** And every text is its words, spaced: there are no others. */
  lemma {:induction false} FieldsAreSpaced(s: string, sep: Sep) returns (gaps: seq<string>)
    ensures Spacing(gaps, FieldsBy(s, sep), sep) && Spaced(gaps, FieldsBy(s, sep)) == s
    ensures s != "" && !sep(s[0]) ==> gaps[0] == ""
    decreases |s|
  {
    if s == "" {
      gaps := [""];
    } else if sep(s[0]) {
      var more := FieldsAreSpaced(s[1..], sep);
      var ws := FieldsBy(s[1..], sep);
      gaps := [[s[0]] + more[0]] + more[1..];
      assert forall i :: 0 < i < |gaps| ==> gaps[i] == more[i];
      if ws != [] {
        assert gaps[1..] == more[1..];
        Assoc([s[0]], more[0], ws[0] + Spaced(more[1..], ws[1..]));
      }
    } else {
      var n := FirstIndex(s, sep);
      FirstIndexMeaning(s, sep);
      var more := FieldsAreSpaced(s[n..], sep);
      gaps := [""] + more;
      WordBehind(s, n, more, sep);
    }
  }

  lemma WordBehind(s: string, n: nat, more: seq<string>, sep: Sep)
    requires 0 < n <= |s| && IsWord(s[..n], sep) && (n < |s| ==> sep(s[n]))
    requires Spacing(more, FieldsBy(s[n..], sep), sep) && Spaced(more, FieldsBy(s[n..], sep)) == s[n..]
    ensures Spacing([""] + more, [s[..n]] + FieldsBy(s[n..], sep), sep)
    ensures Spaced([""] + more, [s[..n]] + FieldsBy(s[n..], sep)) == s
  {
    var gaps, ws := [""] + more, [s[..n]] + FieldsBy(s[n..], sep);
    assert gaps[1..] == more && ws[1..] == FieldsBy(s[n..], sep);
    assert forall i :: 0 < i < |ws| ==> ws[i] == FieldsBy(s[n..], sep)[i - 1];
    assert forall i :: 0 < i < |gaps| ==> gaps[i] == more[i - 1];
  }

  /** Where a separator is at the seam, the words of two texts are the words of each. */
  lemma {:induction false} FieldsSeam(a: string, b: string, sep: Sep)
    requires a == "" || b == "" || sep(a[|a| - 1]) || sep(b[0])
    ensures FieldsBy(a + b, sep) == FieldsBy(a, sep) + FieldsBy(b, sep)
    decreases |a|
  {
    if a == "" {
      Units(b);
      Units(FieldsBy(b, sep));
    } else if b == "" {
      Units(a);
      Units(FieldsBy(a, sep));
    } else if sep(a[0]) {
      assert (a + b)[1..] == a[1..] + b;
      FieldsSeam(a[1..], b, sep);
    } else {
      var n := FirstIndex(a, sep);
      FirstIndexMeaning(a, sep);
      FieldsSeam(a[n..], b, sep);
      SeamBehind(a[..n], a[n..], b, sep);
      assert a == a[..n] + a[n..];
    }
  }

  lemma SeamBehind(w: string, tail: string, b: string, sep: Sep)
    requires IsWord(w, sep) && (tail == "" || sep(tail[0])) && (tail == "" ==> b == "" || sep(b[0]))
    requires FieldsBy(tail + b, sep) == FieldsBy(tail, sep) + FieldsBy(b, sep)
    ensures FieldsBy(w + tail + b, sep) == FieldsBy(w + tail, sep) + FieldsBy(b, sep)
  {
    Assoc(w, tail, b);
    assert tail != "" ==> (tail + b)[0] == tail[0];
    WordFront(w, tail + b, sep);
    WordFront(w, tail, sep);
    Assoc([w], FieldsBy(tail, sep), FieldsBy(b, sep));
  }

  /** Words with a separating text between each two. */
  lemma {:induction false} FieldsOfConcat(ws: seq<string>, between: string, sep: Sep)
    requires AllWords(ws, sep) && between != "" && Blank(between, sep)
    ensures FieldsBy(Concat(ws, between), sep) == ws
  {
    if |ws| == 1 {
      OneWord(ws[0], sep);
    } else if ws != [] {
      var rest := Concat(ws[1..], between);
      FieldsOfConcat(ws[1..], between, sep);
      BlankFront(between, rest, sep);
      assert (between + rest)[0] == between[0];
      WordFront(ws[0], between + rest, sep);
      Assoc(ws[0], between, rest);
      assert ws == [ws[0]] + ws[1..];
    }
  }

  lemma FieldsOfLine(pad: string, ws: seq<string>, sep: Sep)
    requires Blank(pad, sep) && AllWords(ws, sep) && sep(' ')
    ensures FieldsBy(pad + Concat(ws, " "), sep) == ws
  {
    BlankFront(pad, Concat(ws, " "), sep);
    FieldsOfConcat(ws, " ", sep);
  }

  lemma ConcatCons(w: string, ws: seq<string>, between: string)
    requires ws != []
    ensures Concat([w] + ws, between) == w + between + Concat(ws, between)
  {
    assert ([w] + ws)[1..] == ws;
  }

  // ---------- lines ----------

  lemma {:induction false} LinesConcat(a: seq<string>, b: seq<string>)
    ensures Lines(a + b) == Lines(a) + Lines(b)
  {
    if a == [] {
      assert a + b == b;
    } else {
      assert (a + b)[1..] == a[1..] + b;
      LinesConcat(a[1..], b);
    }
  }

  lemma LinesOne(l: string)
    ensures Lines([l]) == l + "\n"
  {
    assert [l][1..] == [];
  }

  function Unlines(s: string): (r: seq<string>) {
    Split(s)[..|Split(s)| - 1]
  }

  lemma {:induction false} UnlinesLines(ls: seq<string>)
    requires AllOneLine(ls)
    ensures Unlines(Lines(ls)) == ls && Split(Lines(ls)) == ls + [""]
  {
    if ls != [] {
      UnlinesLines(ls[1..]);
      assert Lines(ls) == ls[0] + "\n" + Lines(ls[1..]);
      SplitAtNewline(ls[0], Lines(ls[1..]));
    }
  }

  // ---------- statements ----------

  /** The words of a line. */
  type Statement = seq<string>

  /** Neither blank nor a comment. */
  predicate Counts(st: Statement) {
    st != [] && !HasPrefix(st[0], "#")
  }

  /** The lines that are neither blank nor comments, as words. */
  function Statements(ls: seq<string>, sep: Sep): (r: seq<Statement>) {
    if ls == [] then []
    else (if Counts(FieldsBy(ls[0], sep)) then [FieldsBy(ls[0], sep)] else []) + Statements(ls[1..], sep)
  }

  function StatementsOf(text: string, sep: Sep): (r: seq<Statement>) {
    Statements(Split(text), sep)
  }

  lemma {:induction false} StatementsConcat(a: seq<string>, b: seq<string>, sep: Sep)
    ensures Statements(a + b, sep) == Statements(a, sep) + Statements(b, sep)
  {
    if a == [] {
      Units(b);
    } else {
      assert (a + b)[0] == a[0] && (a + b)[1..] == a[1..] + b;
      StatementsConcat(a[1..], b, sep);
      Assoc(if Counts(FieldsBy(a[0], sep)) then [FieldsBy(a[0], sep)] else [], Statements(a[1..], sep),
            Statements(b, sep));
    }
  }

  /** The statements of a text that is written line by line. */
  lemma StatementsOfLines(ls: seq<string>, sep: Sep)
    requires AllOneLine(ls)
    ensures StatementsOf(Lines(ls), sep) == Statements(ls, sep)
  {
    UnlinesLines(ls);
    StatementsConcat(ls, [""], sep);
    assert Statements([""], sep) == [];
    Units(Statements(ls, sep));
  }

  lemma StatementOne(l: string, ws: Statement, sep: Sep)
    requires FieldsBy(l, sep) == ws && Counts(ws)
    ensures Statements([l], sep) == [ws]
  {
    assert [l][1..] == [];
  }

  lemma StatementsCons(l: string, ls: seq<string>, ws: Statement, sep: Sep)
    requires FieldsBy(l, sep) == ws
    ensures Statements([l] + ls, sep) == (if Counts(ws) then [ws] else []) + Statements(ls, sep)
  {
    assert ([l] + ls)[1..] == ls;
  }

  /** A comment line. */
  lemma CommentSkipped(l: string, ls: seq<string>, sep: Sep)
    requires l != "" && l[0] == '#' && !sep('#')
    ensures Statements([l] + ls, sep) == Statements(ls, sep)
  {
    var n := FirstIndex(l, sep);
    assert ([l] + ls)[1..] == ls;
    assert FieldsBy(l, sep)[0] == l[..n] && l[..n][..1] == "#";
  }

  // ---------- short lines ----------

  /** One more word at the end. */
  lemma WordBehindBlank(s: string, w: string, sep: Sep)
    requires sep(' ') && IsWord(w, sep)
    ensures FieldsBy(s + " " + w, sep) == FieldsBy(s, sep) + [w]
  {
    Assoc(s, " ", w);
    FieldsSeam(s, " " + w, sep);
    BlankFront(" ", w, sep);
    OneWord(w, sep);
  }

  lemma TwoWords(pad: string, a: string, b: string, sep: Sep)
    requires sep(' ') && Blank(pad, sep) && IsWord(a, sep) && IsWord(b, sep)
    ensures FieldsBy(pad + (a + " " + b), sep) == [a, b]
  {
    ConcatCons(a, [b], " ");
    FieldsOfLine(pad, [a] + [b], sep);
  }

  lemma ThreeWords(pad: string, a: string, b: string, c: string, sep: Sep)
    requires sep(' ') && Blank(pad, sep) && IsWord(a, sep) && IsWord(b, sep) && IsWord(c, sep)
    ensures FieldsBy(pad + (a + " " + (b + " " + c)), sep) == [a, b, c]
  {
    ConcatCons(b, [c], " ");
    ConcatCons(a, [b] + [c], " ");
    FieldsOfLine(pad, [a] + ([b] + [c]), sep);
  }

  lemma CountsBy(st: Statement)
    requires st != [] && st[0] != "" && st[0][0] != '#'
    ensures Counts(st)
  {
    assert st[0][..1][0] != "#"[0];
  }

  lemma LinesCons(a: string, ls: seq<string>)
    ensures Lines([a] + ls) == a + "\n" + Lines(ls)
  {
    assert ([a] + ls)[1..] == ls;
  }

  lemma TwoLines(a: string, b: string)
    ensures Lines([a, b]) == a + "\n" + (b + "\n")
  {
    LinesOne(b);
    LinesCons(a, [b]);
    assert [a, b] == [a] + [b];
  }

  lemma OneLinesBoth(a: seq<string>, b: seq<string>)
    requires AllOneLine(a) && AllOneLine(b)
    ensures AllOneLine(a + b)
  {
  }

  lemma {:induction false} ConcatOneLine(ws: seq<string>, between: string)
    requires AllOneLine(ws) && OneLine(between)
    ensures OneLine(Concat(ws, between))
  {
    if |ws| > 1 {
      ConcatOneLine(ws[1..], between);
    }
  }

  lemma TwoStatements(a: string, b: string, x: Statement, y: Statement, sep: Sep)
    requires FieldsBy(a, sep) == x && FieldsBy(b, sep) == y && Counts(x) && Counts(y)
    ensures Statements([a, b], sep) == [x, y]
  {
    StatementOne(b, y, sep);
    StatementsCons(a, [b], x, sep);
    assert [a, b] == [a] + [b];
  }

  lemma FourWords(a: string, b: string, c: string, d: string)
    ensures Concat([a, b, c, d], " ") == a + " " + (b + " " + (c + " " + d))
  {
    ConcatCons(c, [d], " ");
    ConcatCons(b, [c, d], " ");
    ConcatCons(a, [b, c, d], " ");
    assert [a] + [b, c, d] == [a, b, c, d] && [b] + [c, d] == [b, c, d] && [c] + [d] == [c, d];
  }

  lemma FourInLine(a: string, b: string, c: string, d: string, sep: Sep)
    requires sep(' ') && IsWord(a, sep) && IsWord(b, sep) && IsWord(c, sep) && IsWord(d, sep)
    ensures FieldsBy(a + " " + b + " " + c + " " + d, sep) == [a, b, c, d]
  {
    FourWords(a, b, c, d);
    FieldsOfLine("", [a, b, c, d], sep);
    Units(Concat([a, b, c, d], " "));
    RegroupFour(a, b, c, d);
  }

  lemma RegroupFour(a: string, b: string, c: string, d: string)
    ensures a + " " + b + " " + c + " " + d == a + " " + (b + " " + (c + " " + d))
  {
  }
}
