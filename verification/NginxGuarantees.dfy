/** What one nginx injection promises: when strip undoes it, and which server blocks the scanner finds
    afterwards. */
module NginxGuarantees {
  import opened Text
  import opened ManagedBlocks
  import opened NginxScan
  import opened NginxInject
  import opened NginxStructure

  // ---------- the result, line by line ----------

  lemma InsertedLines(indent: string, mk: Marks, include_: string, b: string)
    requires OneLine(indent) && OneLine(mk.begin) && OneLine(mk.end) && OneLine(include_)
    ensures Split(Inserted(indent, mk, include_) + b) == Block(mk, [include_], indent) + Split(b)
  {
    var x, y, z := indent + mk.begin, indent + include_, indent + mk.end;
    assert Inserted(indent, mk, include_) + b == x + "\n" + (y + "\n" + (z + "\n" + b));
    SplitAtNewline(x, y + "\n" + (z + "\n" + b));
    SplitAtNewline(y, z + "\n" + b);
    SplitAtNewline(z, b);
    assert Indented([include_], indent) == [y];
    assert [x] + ([y] + ([z] + Split(b))) == [x] + [y] + [z] + Split(b);
  }

  /** Where the insertion is at the beginning of a line, it is a block between two lines. */
  lemma SplicedLines(src: string, at: nat, indent: string, mk: Marks, include_: string)
    requires 0 < at <= |src| && src[at - 1] == '\n'
    requires OneLine(indent) && OneLine(mk.begin) && OneLine(mk.end) && OneLine(include_)
    ensures var k := |Split(src[..at - 1])|;
            && k <= |Split(src)|
            && Split(Spliced(src, at, Inserted(indent, mk, include_)))
                == InsertLines(Split(src), k, Block(mk, [include_], indent))
  {
    var a, b, x := src[..at - 1], src[at..], Inserted(indent, mk, include_);
    assert src == a + "\n" + b;
    assert Spliced(src, at, x) == a + "\n" + (x + b);
    SplitConcat(a, b);
    SplitConcat(a, x + b);
    InsertedLines(indent, mk, include_, b);
    Assoc(Split(a), Block(mk, [include_], indent), Split(b));
    assert Split(src)[..|Split(a)|] == Split(a) && Split(src)[|Split(a)|..] == Split(b);
  }

  lemma {:induction false} LastLine(s: string, o: nat)
    requires o < |s| && !HasNewline(s, o)
    ensures var l := Split(s)[|Split(s)| - 1]; s[o] in l
  {
    if o == 0 {
      assert forall k :: 0 <= k < |s| ==> s[k] != '\n';
      SplitLine(s);
    } else {
      assert forall k :: o - 1 <= k < |s| - 1 ==> s[1..][k] == s[k + 1];
      LastLine(s[1..], o - 1);
    }
  }

  lemma {:induction false} SplitAppend(s: string, w: string)
    requires OneLine(w)
    ensures var ls := Split(s); Split(s + w) == ls[..|ls| - 1] + [ls[|ls| - 1] + w]
  {
    if s == "" {
      Units(w);
      SplitLine(w);
    } else {
      assert (s + w)[1..] == s[1..] + w;
      SplitAppend(s[1..], w);
      SplitAppendStep(s[0], Split(s[1..]), w);
    }
  }

  lemma SplitAppendStep(c: char, r: seq<string>, w: string)
    requires r != []
    ensures var r' := r[..|r| - 1] + [r[|r| - 1] + w];
            && (var ls := [""] + r; [""] + r' == ls[..|ls| - 1] + [ls[|ls| - 1] + w])
            && (var ls := [[c] + r[0]] + r[1..]; [[c] + r'[0]] + r'[1..] == ls[..|ls| - 1] + [ls[|ls| - 1] + w])
  {
    Assoc([c], r[0], w);
  }

  // ---------- when strip undoes the injection ----------

  /** Marks of equal length and lines that may be inserted. */
  predicate Insertable(mk: Marks, include_: string) {
    && OneLine(mk.begin) && OneLine(mk.end) && |mk.begin| == |mk.end|
    && Foreign(include_, mk)
  }

  lemma KeysAreInsertable(key: string, include_: string)
    requires OneLine(key) && PlainLine(include_)
    ensures Insertable(MarksOf(key), include_)
  {
    MarksOneLine(key);
    PlainIsForeign(include_, key);
    assert |MarksOf(key).begin| == |MarksOf(key).end|;
  }

  lemma IndentIsBlank(s: string, pos: nat)
    requires pos <= |s|
    ensures Blank(Indent(s, pos))
  {
    IndentOf(s, pos);
    var line := s[LineStart(s, pos)..];
    var n := FirstIndex(line, c => c != ' ' && c != '\t');
    FirstIndexMeaning(line, c => c != ' ' && c != '\t');
    assert Indent(s, pos) == line[..n];
  }

  lemma BlankIsPadding(s: string)
    requires Blank(s)
    ensures AllSpace(s) && OneLine(s)
  {
  }

  lemma WithNewline(conf: string, mk: Marks, include_: string, open: nat, indent: string)
    requires Insertable(mk, include_) && Blank(indent)
    requires open < |Strip(conf, mk)| && HasNewline(Strip(conf, mk), open)
    ensures var src := Strip(conf, mk);
            Strip(Spliced(src, LineEnd(src, open), Inserted(indent, mk, include_)), mk) == src
  {
    var src := Strip(conf, mk);
    var at := LineEnd(src, open);
    LineEndMeaning(src, open);
    BlankIsPadding(indent);
    SplicedLines(src, at, indent, mk, include_);
    ForeignIsNoMark(indent, include_, mk);
    BlockWrapped(mk, [include_], indent);
    var r := Spliced(src, at, Inserted(indent, mk, include_));
    JoinSplit(r);
    StripUndoesInsert(conf, mk, |Split(src[..at - 1])|, Block(mk, [include_], indent));
  }

  lemma MarkOnUsedLine(l: string, indent: string, mk: Marks)
    requires |mk.begin| == |mk.end| && '{' in l
    ensures !IsBegin(l + indent + mk.begin, mk) && !IsEnd(l + indent + mk.begin, mk)
  {
    var k :| 0 <= k < |l| && l[k] == '{';
    TrimSpaceLonger(l[..k], '{', l[k + 1..] + indent, mk.begin);
    assert l[..k] + ['{'] + (l[k + 1..] + indent) + mk.begin == l + indent + mk.begin;
  }

  lemma Regrouped(src: string, w: string, y: string, z: string)
    ensures src + (w + "\n" + (y + "\n") + (z + "\n")) == (src + w) + "\n" + (y + "\n" + (z + "\n" + ""))
  {
  }

  lemma AppendedToLine(src: string, indent: string, mk: Marks, include_: string)
    requires Insertable(mk, include_) && AllSpace(indent) && OneLine(indent)
    ensures var ls := Split(src);
            Split(src + Inserted(indent, mk, include_))
            == ls[..|ls| - 1] + [ls[|ls| - 1] + (indent + mk.begin)] + [indent + include_, indent + mk.end, ""]
  {
    var w, y, z := indent + mk.begin, indent + include_, indent + mk.end;
    assert OneLine(w) && OneLine(y) && OneLine(z);
    Regrouped(src, w, y, z);
    SplitConcat(src + w, y + "\n" + (z + "\n" + ""));
    SplitAppend(src, w);
    TwoLines(y, z);
  }

  lemma TwoLines(y: string, z: string)
    requires OneLine(y) && OneLine(z)
    ensures Split(y + "\n" + (z + "\n" + "")) == [y, z, ""]
  {
    SplitAtNewline(y, z + "\n" + "");
    SplitAtNewline(z, "");
  }

  lemma StripKept(kept: seq<string>, l: string, y: string, z: string, mk: Marks)
    requires NoMarks(kept, mk) && !IsBegin(l, mk) && !IsEnd(l, mk) && !IsBegin(y, mk) && !IsEnd(y, mk) && IsEnd(z, mk)
    ensures StripLines(kept + [l] + [y, z, ""], mk, false) == kept + [l, y, ""]
  {
    StripConcat(kept + [l], [y, z, ""], mk, false);
    StripNoMarks(kept + [l], mk);
    assert [y, z, ""][1..] == [z, ""] && [z, ""][1..] == [""];
    assert !IsBegin("", mk) && !IsEnd("", mk);
    assert StripLines([""], mk, false) == [""];
    assert StripLines([z, ""], mk, false) == [""];
    assert StripLines([y, z, ""], mk, false) == [y] + StripLines([z, ""], mk, false);
  }

  /** Without a newline after the brace, the begin mark lands behind it and is no mark line. */
  lemma MarkBehindBrace(src: string, mk: Marks, include_: string, open: nat, indent: string)
      returns (kept: seq<string>, l: string)
    requires Insertable(mk, include_) && Blank(indent) && NoMarks(Split(src), mk)
    requires open < |src| && src[open] == '{' && !HasNewline(src, open)
    ensures |Split(src)| == |kept| + 1 && NoMarks(kept, mk) && AllOneLine(kept)
    ensures OneLine(l) && !IsBegin(l, mk) && !IsEnd(l, mk)
    ensures Split(src + Inserted(indent, mk, include_)) == kept + [l] + [indent + include_, indent + mk.end, ""]
  {
    var ls := Split(src);
    var n := |ls| - 1;
    kept, l := ls[..n], ls[n] + (indent + mk.begin);
    BlankIsPadding(indent);
    LastLine(src, open);
    MarkOnUsedLine(ls[n], indent, mk);
    AppendedToLine(src, indent, mk, include_);
    Assoc(ls[n], indent, mk.begin);
  }

  /** What the strip then leaves: one line more than the insertion found, and one less than it made. */
  lemma WithoutNewline(src: string, mk: Marks, include_: string, open: nat, indent: string)
    requires Insertable(mk, include_) && Blank(indent) && NoMarks(Split(src), mk)
    requires open < |src| && src[open] == '{' && !HasNewline(src, open)
    ensures var r := src + Inserted(indent, mk, include_);
            && |Split(r)| == |Split(src)| + 3 && |Split(Strip(r, mk))| == |Split(src)| + 2
            && HasSuffix(Strip(r, mk), "\n")
  {
    var kept, l := MarkBehindBrace(src, mk, include_, open, indent);
    var y := indent + include_;
    BlankIsPadding(indent);
    ForeignIsNoMark(indent, include_, mk);
    TrimPadded(indent, mk.end);
    StripKept(kept, l, y, indent + mk.end, mk);
    SplitJoin(kept + [l, y, ""]);
    assert kept + [l, y, ""] == kept + [l, y] + [""];
    JoinConcat(kept + [l, y], [""]);
  }

  /** Below a brace with a newline after it, an insertion adds three lines. */
  lemma InsertionGrows(src: string, b: ServerBlock, mk: Marks, include_: string)
    requires Insertable(mk, include_) && Blank(b.indent)
    requires b.open < |src| && HasNewline(src, b.open)
    ensures |Split(InsertInto(src, b, mk, include_))| == |Split(src)| + 3
  {
    LineEndMeaning(src, b.open);
    BlankIsPadding(b.indent + INDENT);
    SplicedLines(src, LineEnd(src, b.open), b.indent + INDENT, mk, include_);
  }

  lemma InjectionGrows(src: string, mk: Marks, include_: string, name: string)
    requires Insertable(mk, include_) && HasSuffix(src, "\n") && InjectInto(src, mk, include_, name).Ok?
    ensures |Split(InjectInto(src, mk, include_, name).value)| == |Split(src)| + 3
  {
    var n := Target(Blocks(src), name);
    BlocksAreSound(src, n);
    BlockIndent(src, n);
    assert src[|src| - 1] == '\n';
    InsertionGrows(src, Blocks(src)[n], mk, include_);
  }

  /** After a strip that left the begin mark's line, a further injection, if it finds a target, adds again. */
  lemma AddsAgain(src: string, mk: Marks, include_: string, open: nat, indent: string, name: string)
    requires Insertable(mk, include_) && Blank(indent) && NoMarks(Split(src), mk)
    requires open < |src| && src[open] == '{' && !HasNewline(src, open)
    ensures var r := src + Inserted(indent, mk, include_); InjectInto(Strip(r, mk), mk, include_, name) != Ok(r)
  {
    var r := src + Inserted(indent, mk, include_);
    WithoutNewline(src, mk, include_, open, indent);
    if InjectInto(Strip(r, mk), mk, include_, name).Ok? {
      InjectionGrows(Strip(r, mk), mk, include_, name);
    }
  }

  /** The insertion below the block's opening line is undone exactly when that line ends. */
  lemma SpliceExactly(conf: string, mk: Marks, include_: string, b: ServerBlock, name: string)
    requires Insertable(mk, include_) && Blank(b.indent)
    requires b.open < |Strip(conf, mk)| && Strip(conf, mk)[b.open] == '{'
    ensures var src := Strip(conf, mk);
            var r := InsertInto(src, b, mk, include_);
            && (Strip(r, mk) == src <==> HasNewline(src, b.open))
            && (!HasNewline(src, b.open) ==> InjectInto(Strip(r, mk), mk, include_, name) != Ok(r))
  {
    var src := Strip(conf, mk);
    var indent := b.indent + INDENT;
    if HasNewline(src, b.open) {
      WithNewline(conf, mk, include_, b.open, indent);
    } else {
      LineEndMeaning(src, b.open);
      AtTheEnd(src, Inserted(indent, mk, include_));
      StripClean(conf, mk);
      WithoutNewline(src, mk, include_, b.open, indent);
      AddsAgain(src, mk, include_, b.open, indent, name);
    }
  }

  lemma AtTheEnd(src: string, x: string)
    ensures Spliced(src, |src|, x) == src + x
  {
  }

  /** Strip undoes the injection, and the injection is idempotent, each exactly when the target's opening
      brace has a newline somewhere after it; without one the begin mark shares its line. */
  lemma StripUndoesInjectExactly(conf: string, mk: Marks, include_: string, name: string)
    requires Insertable(mk, include_)
    requires InjectInto(Strip(conf, mk), mk, include_, name).Ok?
    ensures var src := Strip(conf, mk);
            var r := InjectInto(src, mk, include_, name).value;
            var b := Blocks(src)[Target(Blocks(src), name)];
            && (Strip(r, mk) == src <==> HasNewline(src, b.open))
            && (InjectInto(Strip(r, mk), mk, include_, name) == Ok(r) <==> HasNewline(src, b.open))
            && (HasNewline(src, b.open) && NoMarks(Split(conf), mk) ==> Strip(r, mk) == conf)
  {
    var src := Strip(conf, mk);
    var n := Target(Blocks(src), name);
    BlocksAreSound(src, n);
    BlockIndent(src, n);
    SpliceExactly(conf, mk, include_, Blocks(src)[n], name);
    if NoMarks(Split(conf), mk) {
      StripMarkerFree(conf, mk);
    }
  }

  lemma BlockIndent(s: string, n: nat)
    requires n < |Blocks(s)|
    ensures Blank(Blocks(s)[n].indent)
  {
    SpotsInText(s, 0);
    DescribedAt(s, Spots(s, 0), NamesOn, n);
    IndentIsBlank(s, Spots(s, 0)[n].idx);
  }

  // ---------- which blocks the scanner finds afterwards ----------

  lemma {:induction false} NamesConcat(a: seq<string>, b: seq<string>, f: Reader)
    ensures Names(a + b, f) == Names(a, f) + Names(b, f)
  {
    if a == [] {
      Units(b);
      Units(Names(b, f));
    } else {
      assert (a + b)[1..] == a[1..] + b;
      NamesConcat(a[1..], b, f);
      Assoc(f(a[0]), Names(a[1..], f), Names(b, f));
    }
  }

  lemma {:induction false} HashPastPadding(pad: string, t: string)
    requires '#' !in pad
    ensures HashIndex(pad + t) == |pad| + HashIndex(t)
  {
    if pad == "" {
      Units(t);
    } else {
      assert (pad + t)[1..] == pad[1..] + t;
      HashPastPadding(pad[1..], t);
    }
  }

  lemma MarkNamesNothing(indent: string, mark: string)
    requires Blank(indent) && MarkText(mark)
    ensures NamesOn(indent + mark) == []
  {
    HashPastPadding(indent, mark);
    assert (indent + mark)[..|indent|] == indent;
    TrimLeftPadding(indent, "");
    Units(indent);
    assert TrimSpace(indent) == "";
  }

  lemma {:induction false} NoHash(t: string)
    requires '#' !in t
    ensures HashIndex(t) == |t|
  {
    if t != "" {
      NoHash(t[1..]);
    }
  }

  lemma IncludeNamesNothing(indent: string, include_: string)
    requires Blank(indent) && IncludeText(include_)
    ensures NamesOn(indent + include_) == []
  {
    NoHash(indent + include_);
    assert (indent + include_)[..|indent + include_|] == indent + include_;
    TrimFirst(indent, include_);
  }

  /** No line of the block names a server. */
  predicate Nameless(block: seq<string>, f: Reader) {
    forall i :: 0 <= i < |block| ==> f(block[i]) == []
  }

  lemma {:induction false} NamelessNames(block: seq<string>, f: Reader)
    requires Nameless(block, f)
    ensures Names(block, f) == []
  {
    if block != [] {
      NamelessNames(block[1..], f);
    }
  }

  lemma NamelessThree(x: string, y: string, z: string, f: Reader)
    requires f(x) == [] && f(y) == [] && f(z) == []
    ensures Nameless([x] + [y] + [z], f)
  {
  }

  lemma BlockIsThree(indent: string, mk: Marks, include_: string)
    ensures Block(mk, [include_], indent) == [indent + mk.begin] + [indent + include_] + [indent + mk.end]
  {
    assert Indented([include_], indent) == [indent + include_];
  }

  lemma BlockNamesNothing(indent: string, mk: Marks, include_: string)
    requires Blank(indent) && MarkText(mk.begin) && MarkText(mk.end) && IncludeText(include_)
    ensures Nameless(Block(mk, [include_], indent), NamesOn)
  {
    MarkNamesNothing(indent, mk.begin);
    MarkNamesNothing(indent, mk.end);
    IncludeNamesNothing(indent, include_);
    BlockIsThree(indent, mk, include_);
    NamelessThree(indent + mk.begin, indent + include_, indent + mk.end, NamesOn);
  }

  /** Inserted lines that name nothing add no server name to the body they are inserted into. */
  lemma NamesKept(body: string, body': string, a: string, x: string, b: string, block: seq<string>, f: Reader)
    requires body == a + "\n" + b && body' == a + "\n" + (x + b)
    requires Split(x + b) == block + Split(b) && Nameless(block, f)
    ensures Names(Split(body'), f) == Names(Split(body), f)
  {
    SplitConcat(a, x + b);
    SplitConcat(a, b);
    NamesConcat(Split(a), Split(b), f);
    NamesConcat(Split(a), block + Split(b), f);
    NamesConcat(block, Split(b), f);
    NamelessNames(block, f);
    Units(Names(Split(b), f));
  }

  /** s' is s with d characters inserted at the beginning of a line, m, that leave the automaton alone. */
  ghost predicate Insertion(s: string, s': string, m: nat, d: nat) {
    Agree(s, s', m) && Shifted(s, s', m, d) && Neutral(s', m, d)
  }

  lemma SplicedShape(s: string, m: nat, indent: string, mk: Marks, include_: string)
    requires 0 < m <= |s| && s[m - 1] == '\n'
    requires Blank(indent) && MarkText(mk.begin) && MarkText(mk.end) && IncludeText(include_)
    ensures var x := Inserted(indent, mk, include_); Insertion(s, Spliced(s, m, x), m, |x|)
  {
    var x := Inserted(indent, mk, include_);
    var s' := Spliced(s, m, x);
    EndsWithNewline(indent, mk, include_);
    assert s'[m + |x| - 1] == s'[m..m + |x|][|x| - 1];
    forall k | m <= k < m + |x| ensures s'[k] == x[k - m] {
      assert s'[k] == s'[m..m + |x|][k - m];
    }
    SplicedAgree(s, m, x);
    SplicedMoves(s, m, x);
    forall st: Scan | CodeOrQuote(st.mode) ensures Passes(s', m, |x|, st) {
      InsertedIsNeutral(s', m, indent, mk, include_, st);
    }
  }

  lemma EndsWithNewline(indent: string, mk: Marks, include_: string)
    ensures var x := Inserted(indent, mk, include_); x != "" && x[|x| - 1] == '\n'
  {
  }

  /** Element by element: same names and indents, the target's brace in place, its close and everything
      after it moved by d. */
  ghost predicate Kept(bs: seq<ServerBlock>, bs': seq<ServerBlock>, n: nat, d: nat) {
    |bs'| == |bs| && n < |bs| && forall k :: 0 <= k < |bs| ==> KeptBlock(bs[k], bs'[k], n, d, k)
  }

  predicate KeptBlock(b: ServerBlock, b': ServerBlock, n: nat, d: nat, k: nat) {
    && b'.names == b.names && b'.indent == b.indent
    && b'.open == b.open + (if k <= n then 0 else d)
    && b'.close == b.close + (if k < n then 0 else d)
  }

  lemma {:induction false} MovedAt(spots: seq<Spot>, d: nat, k: nat)
    requires k < |spots|
    ensures |MovedAll(spots, d)| == |spots| && MovedAll(spots, d)[k] == Moved(spots[k], d)
  {
    if k > 0 {
      MovedAt(spots[1..], d, k - 1);
    } else if |spots| > 1 {
      MovedAt(spots[1..], d, 0);
    }
  }

  lemma KeptSpotAt(spots: seq<Spot>, n: nat, d: nat, k: nat)
    requires n < |spots| && k < |spots|
    ensures |KeptSpots(spots, n, d)| == |spots|
    ensures KeptSpots(spots, n, d)[k] ==
            if k < n then spots[k] else if k == n then Spot(spots[n].idx, spots[n].open, spots[n].close + d)
                else Moved(spots[k], d)
  {
    if n + 1 < |spots| {
      MovedAt(spots[n + 1..], d, if k > n then k - n - 1 else 0);
    }
  }

  lemma Pieces(s: string, a: nat, b: nat, c: nat)
    requires a <= b <= c <= |s|
    ensures s[a..c] == s[a..b] + s[b..c]
  {
  }

  lemma BodyPieces(s: string, open: nat, m: nat, close: nat, x: string)
    requires open + 1 < m <= close < |s| && s[m - 1] == '\n'
    ensures s[open + 1..close] == s[open + 1..m - 1] + "\n" + s[m..close]
    ensures Spliced(s, m, x)[open + 1..close + |x|] == s[open + 1..m - 1] + "\n" + (x + s[m..close])
  {
    var s' := Spliced(s, m, x);
    Pieces(s, open + 1, m, close);
    Pieces(s, open + 1, m - 1, m);
    assert s[m - 1..m] == "\n";
    Pieces(s', open + 1, m, close + |x|);
    Pieces(s', m, m + |x|, close + |x|);
    assert s'[open + 1..m] == s'[..m][open + 1..] && s[open + 1..m] == s[..m][open + 1..];
    FromTail(s', m + |x|, close + |x|);
    FromTail(s, m, close);
  }

  lemma FromTail(s: string, a: nat, b: nat)
    requires a <= b <= |s|
    ensures s[a..b] == s[a..][..b - a]
  {
  }

  /** The body of the target names the same servers. */
  predicate SameNames(s: string, s': string, p: Spot, d: nat, f: Reader) {
    && p.open < p.close < |s| && p.close + d < |s'|
    && Names(Split(s'[p.open + 1..p.close + d]), f) == Names(Split(s[p.open + 1..p.close]), f)
  }

  /** Block k of the changed text, described, is block k of the text, moved as KeptBlock says. */
  ghost predicate StaysAt(s: string, s': string, spots: seq<Spot>, spots': seq<Spot>, d: nat, n: nat, k: nat, f: Reader)
    requires InText(s, spots) && InText(s', spots') && k < |spots| && k < |spots'|
  {
    KeptBlock(Described(s, spots, f)[k], Described(s', spots', f)[k], n, d, k)
  }

  lemma StaysByBlocks(s: string, s': string, spots: seq<Spot>, spots': seq<Spot>, d: nat, n: nat, k: nat, f: Reader)
    requires InText(s, spots) && InText(s', spots') && k < |spots| && k < |spots'|
    requires var p, q := spots[k], spots'[k];
             KeptBlock(BlockAt(s, p.idx, p.open, p.close, f), BlockAt(s', q.idx, q.open, q.close, f), n, d, k)
    ensures StaysAt(s, s', spots, spots', d, n, k, f)
  {
    DescribedAt(s, spots, f, k);
    DescribedAt(s', spots', f, k);
  }

  lemma EarlierKept(s: string, s': string, m: nat, spots: seq<Spot>, spots': seq<Spot>, d: nat, n: nat, k: nat,
                    f: Reader)
    requires InText(s, spots) && InText(s', spots') && k < |spots| && k < |spots'| && k < n
    requires Agree(s, s', m) && spots'[k] == spots[k] && spots[k].close < m && KeywordAt(s, spots[k].idx)
    ensures StaysAt(s, s', spots, spots', d, n, k, f)
  {
    BlockPrefix(s, s', m, spots[k].idx, spots[k].open, spots[k].close, f);
    StaysByBlocks(s, s', spots, spots', d, n, k, f);
  }

  lemma TargetKept(s: string, s': string, m: nat, spots: seq<Spot>, spots': seq<Spot>, d: nat, n: nat, f: Reader)
    requires InText(s, spots) && InText(s', spots') && n < |spots| && n < |spots'|
    requires var p := spots[n];
             && spots'[n] == Spot(p.idx, p.open, p.close + d)
             && Agree(s, s', m) && p.open < m && KeywordAt(s, p.idx) && SameNames(s, s', p, d, f)
    ensures StaysAt(s, s', spots, spots', d, n, n, f)
  {
    IndentPrefix(s, s', m, spots[n].idx);
    StaysByBlocks(s, s', spots, spots', d, n, n, f);
  }

  lemma LaterKept(s: string, s': string, m: nat, spots: seq<Spot>, spots': seq<Spot>, d: nat, n: nat, k: nat, f: Reader)
    requires InText(s, spots) && InText(s', spots') && k < |spots| && k < |spots'| && n < k
    requires Shifted(s, s', m, d) && spots'[k] == Moved(spots[k], d) && m < spots[k].idx
    ensures StaysAt(s, s', spots, spots', d, n, k, f)
  {
    BlockShift(s, s', m, d, spots[k].idx, spots[k].open, spots[k].close, f);
    StaysByBlocks(s, s', spots, spots', d, n, k, f);
  }

  /** Sound positions, in order. */
  ghost predicate InOrder(s: string, spots: seq<Spot>, n: nat, k: nat)
    requires n < |spots| && k < |spots|
  {
    && KeywordAt(s, spots[k].idx) && spots[k].idx < spots[k].open < spots[k].close
    && (k < n ==> spots[k].close < spots[n].idx) && (n < k ==> spots[n].close < spots[k].idx)
  }

  lemma BlockKept(s: string, s': string, m: nat, spots: seq<Spot>, spots': seq<Spot>, d: nat, n: nat, k: nat, f: Reader)
    requires InText(s, spots) && InText(s', spots') && n < |spots| && k < |spots| && |spots'| == |spots|
    requires Agree(s, s', m) && Shifted(s, s', m, d) && spots[n].open < m <= spots[n].close && InOrder(s, spots, n, k)
             && InOrder(s, spots, n, n)
    requires SameNames(s, s', spots[n], d, f)
    requires spots' == KeptSpots(spots, n, d)
    ensures StaysAt(s, s', spots, spots', d, n, k, f)
  {
    KeptSpotAt(spots, n, d, k);
    if k < n {
      EarlierKept(s, s', m, spots, spots', d, n, k, f);
    } else if k == n {
      TargetKept(s, s', m, spots, spots', d, n, f);
    } else {
      LaterKept(s, s', m, spots, spots', d, n, k, f);
    }
  }

  lemma SpotsOrder(s: string, n: nat, k: nat)
    requires n < |Spots(s, 0)| && k < |Spots(s, 0)|
    ensures SoundSpot(s, Spots(s, 0)[k])
    ensures k < n ==> Spots(s, 0)[k].close < Spots(s, 0)[n].idx
    ensures n < k ==> Spots(s, 0)[n].close < Spots(s, 0)[k].idx
  {
    SpotsAreSound(s, 0);
  }

  lemma InsideKeeps(s: string, s': string, m: nat, d: nat, n: nat, f: Reader)
    requires n < |Spots(s, 0)| && InText(s, Spots(s, 0)) && InText(s', Spots(s', 0))
    requires Insertion(s, s', m, d) && Spots(s, 0)[n].open < m <= Spots(s, 0)[n].close
    requires SameNames(s, s', Spots(s, 0)[n], d, f)
    ensures Kept(Described(s, Spots(s, 0), f), Described(s', Spots(s', 0), f), n, d)
  {
    SpotsKept(s, s', m, d, n);
    forall k | 0 <= k < |Spots(s, 0)| ensures InOrder(s, Spots(s, 0), n, k) {
      SpotsOrder(s, n, k);
    }
    AllKept(s, s', m, Spots(s, 0), Spots(s', 0), d, n, f);
  }

  lemma AllKept(s: string, s': string, m: nat, spots: seq<Spot>, spots': seq<Spot>, d: nat, n: nat, f: Reader)
    requires InText(s, spots) && InText(s', spots') && n < |spots| && Insertion(s, s', m, d)
    requires spots[n].open < m <= spots[n].close && (forall k :: 0 <= k < |spots| ==> InOrder(s, spots, n, k))
    requires SameNames(s, s', spots[n], d, f) && spots' == KeptSpots(spots, n, d)
    ensures Kept(Described(s, spots, f), Described(s', spots', f), n, d)
  {
    KeptSpotAt(spots, n, d, n);
    var bs, bs' := Described(s, spots, f), Described(s', spots', f);
    forall k | 0 <= k < |bs| ensures KeptBlock(bs[k], bs'[k], n, d, k) {
      BlockKept(s, s', m, spots, spots', d, n, k, f);
    }
  }

  /** An insertion past the target's close leaves the target as it was: its close does not move. */
  lemma OutsideMoves(s: string, s': string, m: nat, n: nat)
    requires n < |Blocks(s)| && Agree(s, s', m) && Blocks(s)[n].close < m
    ensures n < |Blocks(s')| && Blocks(s')[n].close == Blocks(s)[n].close
  {
    SpotsInText(s, 0);
    SpotsAreSound(s, 0);
    DescribedAt(s, Spots(s, 0), NamesOn, n);
    var spot := Spots(s, 0)[n];
    var j := SpotsPrefix(s, s', m, 0, n, Spots(s, 0));
    RoundPrefix(s, s', m, j);
    FoundNext(s', j, spot, spot.close + 1);
    SpotsInText(s', 0);
    assert Spots(s', 0)[n] == spot;
    DescribedAt(s', Spots(s', 0), NamesOn, n);
  }

  lemma InsertedInside(s: string, n: nat, p: Spot, indent: string, mk: Marks, include_: string)
    requires n < |Spots(s, 0)| && p == Spots(s, 0)[n] && SoundSpot(s, p) && LineEnd(s, p.open) <= p.close
    requires Blank(indent) && MarkText(mk.begin) && MarkText(mk.end) && IncludeText(include_)
    ensures var x := Inserted(indent, mk, include_);
            Kept(Blocks(s), Blocks(Spliced(s, LineEnd(s, p.open), x)), n, |x|)
  {
    var x := Inserted(indent, mk, include_);
    var m := LineEnd(s, p.open);
    LineEndMeaning(s, p.open);
    SplicedShape(s, m, indent, mk, include_);
    TargetNames(s, p, m, indent, mk, include_);
    SpotsInText(s, 0);
    SpotsInText(Spliced(s, m, x), 0);
    InsideKeeps(s, Spliced(s, m, x), m, |x|, n, NamesOn);
  }

  lemma BodyNames(s: string, p: Spot, m: nat, x: string, block: seq<string>, f: Reader)
    requires p.open + 1 < m <= p.close < |s| && s[m - 1] == '\n'
    requires Split(x + s[m..p.close]) == block + Split(s[m..p.close]) && Nameless(block, f)
    ensures SameNames(s, Spliced(s, m, x), p, |x|, f)
  {
    BodyPieces(s, p.open, m, p.close, x);
    NamesKept(s[p.open + 1..p.close], Spliced(s, m, x)[p.open + 1..p.close + |x|],
              s[p.open + 1..m - 1], x, s[m..p.close], block, f);
  }

  lemma TargetNames(s: string, p: Spot, m: nat, indent: string, mk: Marks, include_: string)
    requires p.open + 1 < m <= p.close < |s| && s[m - 1] == '\n'
    requires Blank(indent) && MarkText(mk.begin) && MarkText(mk.end) && IncludeText(include_)
    ensures SameNames(s, Spliced(s, m, Inserted(indent, mk, include_)), p, |Inserted(indent, mk, include_)|, NamesOn)
  {
    BlankIsPadding(indent);
    InsertedLines(indent, mk, include_, s[m..p.close]);
    BlockNamesNothing(indent, mk, include_);
    BodyNames(s, p, m, Inserted(indent, mk, include_), Block(mk, [include_], indent), NamesOn);
  }

  lemma SplicedAgree(s: string, m: nat, x: string)
    requires m <= |s|
    ensures Agree(s, Spliced(s, m, x), m)
  {
    var s' := Spliced(s, m, x);
    forall k: nat | k < m ensures SameAt(s, s', k) {
      assert s[..m][k] == s'[..m][k];
    }
  }

  lemma SplicedMoves(s: string, m: nat, x: string)
    requires m <= |s|
    ensures var s' := Spliced(s, m, x);
            forall k: nat {:trigger MovedTo(s, s', |x|, k)} :: m <= k < |s| ==> MovedTo(s, s', |x|, k)
  {
    var s' := Spliced(s, m, x);
    forall k: nat | m <= k < |s| ensures MovedTo(s, s', |x|, k) {
      assert s[m..][k - m] == s'[m + |x|..][k - m];
    }
  }

  /** The injection keeps the server blocks exactly when a line ends between the target's braces, that
      is when the insertion lies strictly inside the target. */
  lemma StructureKeptExactly(src: string, mk: Marks, include_: string, name: string)
    requires MarkText(mk.begin) && MarkText(mk.end) && IncludeText(include_)
    requires InjectInto(src, mk, include_, name).Ok?
    ensures var r := InjectInto(src, mk, include_, name).value;
            var n := Target(Blocks(src), name);
            var b := Blocks(src)[n];
            && b.open < LineEnd(src, b.open)
            && |r| > |src|
            && (Kept(Blocks(src), Blocks(r), n, |r| - |src|) <==> LineEnd(src, b.open) <= b.close)
  {
    var n := Target(Blocks(src), name);
    InjectedIs(src, mk, include_, name);
    BlockIndent(src, n);
    SplicedKeepsExactly(src, n, Blocks(src)[n], mk, include_);
  }

  lemma InjectedIs(src: string, mk: Marks, include_: string, name: string)
    requires InjectInto(src, mk, include_, name).Ok?
    ensures var n := Target(Blocks(src), name);
            && n < |Blocks(src)|
            && Blocks(src)[n].open < LineEnd(src, Blocks(src)[n].open) && Blocks(src)[n].open < |src|
            && InjectInto(src, mk, include_, name) == Ok(InsertInto(src, Blocks(src)[n], mk, include_))
  {
    BlocksAreSound(src, Target(Blocks(src), name));
  }

  lemma SplicedInside(src: string, n: nat, b: ServerBlock, mk: Marks, include_: string)
    requires n < |Blocks(src)| && b == Blocks(src)[n] && b.open < |src| && Blank(b.indent)
    requires MarkText(mk.begin) && MarkText(mk.end) && IncludeText(include_) && LineEnd(src, b.open) <= b.close
    ensures var r := InsertInto(src, b, mk, include_); |r| > |src| && Kept(Blocks(src), Blocks(r), n, |r| - |src|)
  {
    EndsWithNewline(b.indent + INDENT, mk, include_);
    var p := BlockSpot(src, n);
    InsertedInside(src, n, p, b.indent + INDENT, mk, include_);
    IntoIsSpliced(src, b, p.open, mk, include_);
  }

  lemma IntoIsSpliced(src: string, b: ServerBlock, open: nat, mk: Marks, include_: string)
    requires b.open == open <= |src|
    ensures InsertInto(src, b, mk, include_)
            == Spliced(src, LineEnd(src, open), Inserted(b.indent + INDENT, mk, include_))
  {
  }

  /** Where block n was found. */
  lemma BlockSpot(s: string, n: nat) returns (p: Spot)
    requires n < |Blocks(s)|
    ensures n < |Spots(s, 0)| && p == Spots(s, 0)[n] && SoundSpot(s, p)
    ensures p.open == Blocks(s)[n].open && p.close == Blocks(s)[n].close
  {
    SpotsInText(s, 0);
    p := Spots(s, 0)[n];
    SpotsOrder(s, n, n);
    DescribedAt(s, Spots(s, 0), NamesOn, n);
  }

  lemma SplicedOutside(src: string, n: nat, b: ServerBlock, mk: Marks, include_: string)
    requires n < |Blocks(src)| && b == Blocks(src)[n] && b.open < |src| && b.close < LineEnd(src, b.open)
    ensures var r := InsertInto(src, b, mk, include_); |r| > |src| && !Kept(Blocks(src), Blocks(r), n, |r| - |src|)
  {
    var at := LineEnd(src, b.open);
    var x := Inserted(b.indent + INDENT, mk, include_);
    EndsWithNewline(b.indent + INDENT, mk, include_);
    SplicedAgree(src, at, x);
    OutsideMoves(src, Spliced(src, at, x), at, n);
    Moves(Blocks(src), Blocks(Spliced(src, at, x)), n, |x|);
  }

  lemma Moves(bs: seq<ServerBlock>, bs': seq<ServerBlock>, n: nat, d: nat)
    requires n < |bs| && n < |bs'| && bs'[n].close == bs[n].close && d > 0
    ensures !Kept(bs, bs', n, d)
  {
    var b, b' := bs[n], bs'[n];
    assert KeptBlock(b, b', n, d, n) ==> b'.close == b.close + d;
  }

  lemma SplicedKeepsExactly(src: string, n: nat, b: ServerBlock, mk: Marks, include_: string)
    requires n < |Blocks(src)| && b == Blocks(src)[n] && b.open < |src| && Blank(b.indent)
    requires MarkText(mk.begin) && MarkText(mk.end) && IncludeText(include_)
    ensures var r := InsertInto(src, b, mk, include_);
            |r| > |src| && (Kept(Blocks(src), Blocks(r), n, |r| - |src|) <==> LineEnd(src, b.open) <= b.close)
  {
    if LineEnd(src, b.open) <= b.close {
      SplicedInside(src, n, b, mk, include_);
    } else {
      SplicedOutside(src, n, b, mk, include_);
    }
  }
}
