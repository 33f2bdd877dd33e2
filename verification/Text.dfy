/** The string operations that the config editors share: lines, trimming, prefixes.
    A string is a sequence of code points; a config file is such a string. */
module Text {

  datatype Option<+T> = None | Some(value: T)

  datatype Result<+T> = Ok(value: T) | Err(message: string)

  lemma Assoc<T>(a: seq<T>, b: seq<T>, c: seq<T>)
    ensures (a + b) + c == a + (b + c)
  {
  }

  lemma Units<T>(a: seq<T>)
    ensures [] + a == a && a + [] == a
  {
  }

  // ---------- white space ----------

  /** The white space that TrimSpace and Fields recognise. */
  predicate IsSpace(c: char) {
    || c == ' '
    || '\t' <= c <= '\r'
    || c == '\U{0085}' || c == '\U{00A0}' || c == '\U{1680}'
    || '\U{2000}' <= c <= '\U{200A}'
    || c == '\U{2028}' || c == '\U{2029}' || c == '\U{202F}' || c == '\U{205F}' || c == '\U{3000}'
  }

  predicate AllSpace(s: string) {
    forall i :: 0 <= i < |s| ==> IsSpace(s[i])
  }

  function TrimLeft(s: string): (r: string) {
    if s != "" && IsSpace(s[0]) then TrimLeft(s[1..]) else s
  }

  function TrimRight(s: string): (r: string) {
    if s != "" && IsSpace(s[|s| - 1]) then TrimRight(s[..|s| - 1]) else s
  }

  function TrimSpace(s: string): (r: string) {
    TrimRight(TrimLeft(s))
  }

  /** A string whose first and last characters are visible. */
  predicate Solid(s: string) {
    s != "" && !IsSpace(s[0]) && !IsSpace(s[|s| - 1])
  }

  lemma {:induction false} TrimLeftPadding(pad: string, s: string)
    requires AllSpace(pad)
    ensures TrimLeft(pad + s) == TrimLeft(s)
  {
    if pad == "" {
      assert pad + s == s;
    } else {
      assert (pad + s)[1..] == pad[1..] + s;
      TrimLeftPadding(pad[1..], s);
    }
  }

  lemma TrimPadded(pad: string, s: string)
    requires AllSpace(pad) && Solid(s)
    ensures TrimSpace(pad + s) == s
  {
    TrimLeftPadding(pad, s);
  }

  /** Trimming padded text keeps its first visible character in front. */
  lemma TrimFirst(pad: string, s: string)
    requires AllSpace(pad) && s != "" && !IsSpace(s[0])
    ensures TrimSpace(pad + s) != "" && TrimSpace(pad + s)[0] == s[0]
  {
    TrimLeftPadding(pad, s);
    TrimRightFirst(s);
  }

  lemma {:induction false} TrimRightFirst(s: string)
    requires s != "" && !IsSpace(s[0])
    ensures TrimRight(s) != "" && TrimRight(s)[0] == s[0]
  {
    if IsSpace(s[|s| - 1]) {
      TrimRightFirst(s[..|s| - 1]);
    }
  }

  lemma {:induction false} TrimLeftKeeps(a: string, c: char, b: string)
    requires !IsSpace(c)
    ensures exists a' :: TrimLeft(a + [c] + b) == a' + [c] + b && |a'| <= |a|
  {
    if a != "" && IsSpace(a[0]) {
      assert (a + [c] + b)[1..] == a[1..] + [c] + b;
      TrimLeftKeeps(a[1..], c, b);
    } else {
      assert TrimLeft(a + [c] + b) == a + [c] + b;
    }
  }

  lemma {:induction false} TrimRightKeeps(a: string, s: string)
    requires Solid(s)
    ensures TrimRight(a + s) == a + s
  {
    assert (a + s)[|a + s| - 1] == s[|s| - 1];
  }

  /** Text in front of a visible string survives trimming from its first visible character on. */
  lemma TrimSpaceLonger(a: string, c: char, b: string, s: string)
    requires !IsSpace(c) && Solid(s)
    ensures |TrimSpace(a + [c] + b + s)| > |s|
  {
    TrimLeftKeeps(a, c, b + s);
    assert a + [c] + (b + s) == a + [c] + b + s;
    var a' :| TrimLeft(a + [c] + (b + s)) == a' + [c] + (b + s) && |a'| <= |a|;
    TrimRightKeeps(a' + [c] + b, s);
    assert a' + [c] + b + s == a' + [c] + (b + s);
  }

  // ---------- lines ----------

  predicate OneLine(s: string) {
    '\n' !in s
  }

  predicate AllOneLine(ls: seq<string>) {
    forall i :: 0 <= i < |ls| ==> OneLine(ls[i])
  }

  /** A single line that starts with a visible character other than '#'. */
  predicate PlainLine(s: string) {
    OneLine(s) && s != "" && !IsSpace(s[0]) && s[0] != '#'
  }

  /** The pieces of s between newlines. */
  function Split(s: string): (r: seq<string>)
    ensures r != [] && AllOneLine(r)
  {
    if s == "" then [""]
    else if s[0] == '\n' then [""] + Split(s[1..])
    else var r := Split(s[1..]); [[s[0]] + r[0]] + r[1..]
  }

  /** The lines with a newline between each two. */
  function Join(ls: seq<string>): (r: string) {
    if ls == [] then ""
    else if |ls| == 1 then ls[0]
    else ls[0] + "\n" + Join(ls[1..])
  }

  lemma {:induction false} JoinSplit(s: string)
    ensures Join(Split(s)) == s
  {
    if s == "" {
    } else {
      JoinSplit(s[1..]);
      var r := Split(s[1..]);
      if s[0] == '\n' {
        assert ([""] + r)[1..] == r;
      } else {
        assert ([[s[0]] + r[0]] + r[1..])[1..] == r[1..];
      }
    }
  }

  lemma {:induction false} SplitLine(l: string)
    requires OneLine(l)
    ensures Split(l) == [l]
  {
    if l != "" {
      SplitLine(l[1..]);
      assert [l[0]] + l[1..] == l;
    }
  }

  lemma {:induction false} SplitAtNewline(l: string, s: string)
    requires OneLine(l)
    ensures Split(l + "\n" + s) == [l] + Split(s)
  {
    if l == "" {
      assert l + "\n" + s == "\n" + s;
    } else {
      assert (l + "\n" + s)[1..] == l[1..] + "\n" + s;
      SplitAtNewline(l[1..], s);
      assert [l[0]] + l[1..] == l;
    }
  }

  lemma {:induction false} SplitJoin(ls: seq<string>)
    requires ls != [] && AllOneLine(ls)
    ensures Split(Join(ls)) == ls
  {
    if |ls| == 1 {
      SplitLine(ls[0]);
    } else {
      SplitJoin(ls[1..]);
      SplitAtNewline(ls[0], Join(ls[1..]));
      assert [ls[0]] + ls[1..] == ls;
    }
  }

  lemma {:induction false} JoinConcat(a: seq<string>, b: seq<string>)
    requires a != [] && b != []
    ensures Join(a + b) == Join(a) + "\n" + Join(b)
  {
    if |a| == 1 {
      assert (a + b)[1..] == b;
    } else {
      assert (a + b)[1..] == a[1..] + b;
      JoinConcat(a[1..], b);
    }
  }

  /** The lines after one more character in front. */
  function Next(c: char, ls: seq<string>): (r: seq<string>)
    requires ls != []
  {
    if c == '\n' then [""] + ls else [[c] + ls[0]] + ls[1..]
  }

  lemma SplitCons(c: char, s: string)
    ensures Split([c] + s) == Next(c, Split(s))
  {
    assert ([c] + s)[1..] == s;
  }

  lemma NextConcat(c: char, a: seq<string>, b: seq<string>)
    requires a != []
    ensures Next(c, a + b) == Next(c, a) + b
  {
    assert (a + b)[1..] == a[1..] + b;
  }

  lemma {:induction false} SplitConcat(a: string, b: string)
    ensures Split(a + "\n" + b) == Split(a) + Split(b)
  {
    if a == "" {
      assert a + "\n" + b == "\n" + b;
    } else {
      var rest := a[1..] + "\n" + b;
      assert a + "\n" + b == [a[0]] + rest && a == [a[0]] + a[1..];
      SplitConcat(a[1..], b);
      SplitCons(a[0], rest);
      SplitCons(a[0], a[1..]);
      NextConcat(a[0], Split(a[1..]), Split(b));
    }
  }

  // ---------- prefixes, suffixes, fields ----------

  predicate HasPrefix(s: string, p: string) {
    |p| <= |s| && s[..|p|] == p
  }

  predicate HasSuffix(s: string, p: string) {
    |p| <= |s| && s[|s| - |p|..] == p
  }

  function TrimSuffix(s: string, p: string): (r: string) {
    if HasSuffix(s, p) then s[..|s| - |p|] else s
  }

  /** Index of the first character of s that satisfies p, or |s|. */
  function FirstIndex(s: string, p: char -> bool): (n: nat)
    ensures n <= |s|
  {
    if s == "" || p(s[0]) then 0 else 1 + FirstIndex(s[1..], p)
  }

  lemma {:induction false} FirstIndexMeaning(s: string, p: char -> bool)
    ensures FirstIndex(s, p) < |s| ==> p(s[FirstIndex(s, p)])
    ensures forall i :: 0 <= i < FirstIndex(s, p) ==> !p(s[i])
  {
    if s != "" && !p(s[0]) {
      FirstIndexMeaning(s[1..], p);
    }
  }

  /** The maximal runs of characters that are not separators. */
  function FieldsBy(s: string, sep: char -> bool): (r: seq<string>)
    decreases |s|
  {
    if s == "" then []
    else if sep(s[0]) then FieldsBy(s[1..], sep)
    else
      var n := FirstIndex(s, sep);
      [s[..n]] + FieldsBy(s[n..], sep)
  }

  function Fields(s: string): (r: seq<string>) {
    FieldsBy(s, IsSpace)
  }

  /** ASCII lower case. */
  function ToLower(s: string): (r: string)
    ensures |r| == |s|
  {
    seq(|s|, i requires 0 <= i < |s| =>
      if 'A' <= s[i] <= 'Z' then (s[i] as int + 32) as char else s[i])
  }
}
