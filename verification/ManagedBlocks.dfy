/** Marker-wrapped blocks inside somebody else's config file: stripping and line-based insertion. */
module ManagedBlocks {
  import opened Text

  // ---------- markers ----------

  /** The two mark lines of one managed block. */
  datatype MarkPair = MarkPair(begin: string, end: string)

  type Marks = mk: MarkPair | Proper(mk) witness MarkPair("+", "-")

  function MarksOf(key: string): (r: Marks) {
    KeyMarksProper(key);
    MarkPair(BeginText(key), EndText(key))
  }

  function BeginText(key: string): (r: string) {
    "# >>> ip-watch:" + key + " >>>"
  }

  function EndText(key: string): (r: string) {
    "# <<< ip-watch:" + key + " <<<"
  }

  lemma KeyMarksProper(key: string)
    ensures Proper(MarkPair(BeginText(key), EndText(key)))
  {
    var b, e := BeginText(key), EndText(key);
    assert b[0] == '#' && b[|b| - 1] == '>';
    assert e[0] == '#' && e[|e| - 1] == '<';
  }

  predicate Proper(mk: MarkPair) {
    Solid(mk.begin) && Solid(mk.end) && mk.begin != mk.end
  }

  /** The four mark texts are pairwise different. */
  predicate Apart(m1: Marks, m2: Marks) {
    m1.begin != m2.begin && m1.end != m2.end && m1.begin != m2.end && m1.end != m2.begin
  }

  /** Distinct keys never share a mark text. */
  lemma MarksDiffer(k1: string, k2: string)
    requires k1 != k2
    ensures Apart(MarksOf(k1), MarksOf(k2))
  {
    var n := |"# >>> ip-watch:"|;
    var m1, m2 := MarksOf(k1), MarksOf(k2);
    assert m1.begin[2] == '>' && m2.end[2] == '<' && m2.begin[2] == '>' && m1.end[2] == '<';
    assert m1.begin[n..|m1.begin| - 4] == k1 && m2.begin[n..|m2.begin| - 4] == k2;
    assert m1.end[n..|m1.end| - 4] == k1 && m2.end[n..|m2.end| - 4] == k2;
  }

  predicate IsBegin(line: string, mk: Marks) {
    TrimSpace(line) == mk.begin
  }

  predicate IsEnd(line: string, mk: Marks) {
    TrimSpace(line) == mk.end
  }

  lemma MarksOneLine(key: string)
    requires OneLine(key)
    ensures OneLine(MarksOf(key).begin) && OneLine(MarksOf(key).end)
  {
  }

  /** A single line whose first character is visible and starts neither mark. */
  predicate Foreign(text: string, mk: Marks) {
    OneLine(text) && text != "" && !IsSpace(text[0]) && text[0] != mk.begin[0] && text[0] != mk.end[0]
  }

  lemma ForeignIsNoMark(indent: string, text: string, mk: Marks)
    requires AllSpace(indent) && Foreign(text, mk)
    ensures !IsBegin(indent + text, mk) && !IsEnd(indent + text, mk)
  {
    TrimFirst(indent, text);
  }

  /** Every line that starts with a visible character other than '#' is foreign to every key. */
  lemma PlainIsForeign(text: string, key: string)
    requires PlainLine(text)
    ensures Foreign(text, MarksOf(key))
  {
    assert MarksOf(key).begin[0] == '#' && MarksOf(key).end[0] == '#';
  }

  predicate NoMarks(ls: seq<string>, mk: Marks) {
    forall i :: 0 <= i < |ls| ==> !IsBegin(ls[i], mk) && !IsEnd(ls[i], mk)
  }

  // ---------- stripping ----------

  /** One pass over the lines; `skipping` says whether a begin mark is open. */
  function StripLines(ls: seq<string>, mk: Marks, skipping: bool): (r: seq<string>) {
    if ls == [] then []
    else if IsBegin(ls[0], mk) then StripLines(ls[1..], mk, true)
    else if IsEnd(ls[0], mk) then StripLines(ls[1..], mk, false)
    else if skipping then StripLines(ls[1..], mk, skipping)
    else [ls[0]] + StripLines(ls[1..], mk, skipping)
  }

  /** Whether a begin mark is open after the lines. */
  function SkipAfter(ls: seq<string>, mk: Marks, skipping: bool): (r: bool) {
    if ls == [] then skipping
    else SkipAfter(ls[1..], mk, IsBegin(ls[0], mk) || (skipping && !IsEnd(ls[0], mk)))
  }

  function Strip(src: string, mk: Marks): (r: string) {
    Join(StripLines(Split(src), mk, false))
  }

  method StripManaged(src: string, mk: Marks) returns (r: string)
    ensures r == Strip(src, mk)
  {
    var lines := Split(src);
    var out: seq<string> := [];
    var skipping := false;
    assert lines[0..] == lines && out + StripLines(lines, mk, false) == StripLines(lines, mk, false);
    for i := 0 to |lines|
      invariant out + StripLines(lines[i..], mk, skipping) == StripLines(lines, mk, false)
    {
      var trimmed := TrimSpace(lines[i]);
      assert lines[i..][1..] == lines[i + 1..];
      if trimmed == mk.begin {
        skipping := true;
      } else if trimmed == mk.end {
        skipping := false;
      } else if !skipping {
        out := out + [lines[i]];
      }
    }
    assert lines[|lines|..] == [] && out + [] == out;
    r := Join(out);
  }

  /** A begin mark among the first n lines has no end mark after it. */
  predicate Open(ls: seq<string>, mk: Marks, n: nat)
    requires n <= |ls|
  {
    exists b :: 0 <= b < n && IsBegin(ls[b], mk) && forall j :: b < j < n ==> !IsEnd(ls[j], mk)
  }

  /** Line i belongs to a managed block of the key: it is a mark, or a begin mark above it is still open. */
  predicate Managed(ls: seq<string>, mk: Marks, i: nat)
    requires i < |ls|
  {
    IsBegin(ls[i], mk) || IsEnd(ls[i], mk) || Open(ls, mk, i)
  }

  /** The first n lines without the managed ones, in order. */
  function Unmanaged(ls: seq<string>, mk: Marks, n: nat): (r: seq<string>)
    requires n <= |ls|
  {
    if n == 0 then []
    else Unmanaged(ls, mk, n - 1) + if Managed(ls, mk, n - 1) then [] else [ls[n - 1]]
  }

  lemma {:induction false} StripConcat(a: seq<string>, b: seq<string>, mk: Marks, skipping: bool)
    ensures StripLines(a + b, mk, skipping)
         == StripLines(a, mk, skipping) + StripLines(b, mk, SkipAfter(a, mk, skipping))
    ensures SkipAfter(a + b, mk, skipping) == SkipAfter(b, mk, SkipAfter(a, mk, skipping))
  {
    if a == [] {
      assert a + b == b;
    } else {
      assert (a + b)[1..] == a[1..] + b;
      StripConcat(a[1..], b, mk, IsBegin(a[0], mk) || (skipping && !IsEnd(a[0], mk)));
    }
  }

  lemma OpenNext(ls: seq<string>, mk: Marks, n: nat)
    requires n < |ls|
    ensures Open(ls, mk, n + 1) <==> IsBegin(ls[n], mk) || (Open(ls, mk, n) && !IsEnd(ls[n], mk))
  {
    if Open(ls, mk, n) && !IsEnd(ls[n], mk) {
      var b :| 0 <= b < n && IsBegin(ls[b], mk) && forall j :: b < j < n ==> !IsEnd(ls[j], mk);
      assert forall j :: b < j < n + 1 ==> !IsEnd(ls[j], mk);
    }
  }

  lemma {:induction false} SkipIsOpen(ls: seq<string>, mk: Marks, n: nat)
    requires n <= |ls|
    ensures SkipAfter(ls[..n], mk, false) <==> Open(ls, mk, n)
  {
    if n > 0 {
      var head, last := ls[..n - 1], ls[n - 1];
      SkipIsOpen(ls, mk, n - 1);
      OpenNext(ls, mk, n - 1);
      assert ls[..n] == head + [last];
      StripConcat(head, [last], mk, false);
      StripOne(last, mk, SkipAfter(head, mk, false));
    }
  }

  /** The strip pass keeps exactly the unmanaged lines, in order. */
  lemma {:induction false} StripKeepsUnmanaged(ls: seq<string>, mk: Marks, n: nat)
    requires n <= |ls|
    ensures StripLines(ls[..n], mk, false) == Unmanaged(ls, mk, n)
  {
    if n > 0 {
      StripKeepsUnmanaged(ls, mk, n - 1);
      StripUpTo(ls, mk, n - 1);
    }
  }

  lemma StripUpTo(ls: seq<string>, mk: Marks, n: nat)
    requires n < |ls|
    ensures StripLines(ls[..n + 1], mk, false)
         == StripLines(ls[..n], mk, false) + if Managed(ls, mk, n) then [] else [ls[n]]
  {
    assert ls[..n + 1] == ls[..n] + [ls[n]];
    StripNext(ls[..n], ls[n], mk);
    Dropped(ls, mk, n);
  }

  lemma Dropped(ls: seq<string>, mk: Marks, n: nat)
    requires n < |ls|
    ensures Managed(ls, mk, n) <==> IsBegin(ls[n], mk) || IsEnd(ls[n], mk) || SkipAfter(ls[..n], mk, false)
  {
    SkipIsOpen(ls, mk, n);
  }

  lemma StripNext(head: seq<string>, last: string, mk: Marks)
    ensures StripLines(head + [last], mk, false)
         == StripLines(head, mk, false)
            + if IsBegin(last, mk) || IsEnd(last, mk) || SkipAfter(head, mk, false) then [] else [last]
  {
    StripConcat(head, [last], mk, false);
    StripOne(last, mk, SkipAfter(head, mk, false));
  }

  lemma StripOne(l: string, mk: Marks, skipping: bool)
    ensures StripLines([l], mk, skipping) == if IsBegin(l, mk) || IsEnd(l, mk) || skipping then [] else [l]
    ensures SkipAfter([l], mk, skipping) == (IsBegin(l, mk) || (skipping && !IsEnd(l, mk)))
  {
  }

  lemma {:induction false} StripNoMarks(ls: seq<string>, mk: Marks)
    requires NoMarks(ls, mk)
    ensures StripLines(ls, mk, false) == ls && !SkipAfter(ls, mk, false)
  {
    if ls != [] {
      StripNoMarks(ls[1..], mk);
    }
  }

  lemma {:induction false} StripLeavesNoMarks(ls: seq<string>, mk: Marks, skipping: bool)
    requires AllOneLine(ls)
    ensures NoMarks(StripLines(ls, mk, skipping), mk) && AllOneLine(StripLines(ls, mk, skipping))
  {
    if ls != [] {
      StripLeavesNoMarks(ls[1..], mk, IsBegin(ls[0], mk) || (skipping && !IsEnd(ls[0], mk)));
    }
  }

  /** A stripped file has no marks of the key left, so a second strip changes nothing. */
  lemma StripClean(src: string, mk: Marks)
    ensures NoMarks(Split(Strip(src, mk)), mk)
    ensures Strip(Strip(src, mk), mk) == Strip(src, mk)
  {
    var kept := StripLines(Split(src), mk, false);
    StripLeavesNoMarks(Split(src), mk, false);
    if kept != [] {
      SplitJoin(kept);
    }
    StripNoMarks(Split(Strip(src, mk)), mk);
    JoinSplit(Strip(src, mk));
  }

  /** A file without marks of the key is its own strip, byte for byte. */
  lemma StripMarkerFree(src: string, mk: Marks)
    requires NoMarks(Split(src), mk)
    ensures Strip(src, mk) == src
  {
    StripNoMarks(Split(src), mk);
    JoinSplit(src);
  }

  // ---------- blocks ----------

  /** A begin mark, lines none of which ends the block, an end mark. */
  predicate Wrapped(block: seq<string>, mk: Marks) {
    && |block| >= 2
    && AllOneLine(block)
    && IsBegin(block[0], mk)
    && IsEnd(block[|block| - 1], mk)
    && forall i :: 0 < i < |block| - 1 ==> !IsEnd(block[i], mk)
  }

  function InsertLines(ls: seq<string>, at: nat, block: seq<string>): (r: seq<string>)
    requires at <= |ls|
  {
    ls[..at] + block + ls[at..]
  }

  lemma {:induction false} StripOpen(ls: seq<string>, mk: Marks)
    requires forall i :: 0 <= i < |ls| ==> !IsEnd(ls[i], mk)
    ensures StripLines(ls, mk, true) == [] && SkipAfter(ls, mk, true)
  {
    if ls != [] {
      StripOpen(ls[1..], mk);
    }
  }

  lemma StripWrapped(block: seq<string>, mk: Marks)
    requires Wrapped(block, mk)
    ensures StripLines(block, mk, false) == [] && !SkipAfter(block, mk, false)
  {
    var n := |block| - 1;
    assert block == block[..1] + (block[1..n] + block[n..]);
    StripConcat(block[..1], block[1..n] + block[n..], mk, false);
    StripConcat(block[1..n], block[n..], mk, true);
    assert SkipAfter(block[..1], mk, false) && StripLines(block[..1], mk, false) == [];
    StripOpen(block[1..n], mk);
  }

  lemma StripAround(a: seq<string>, block: seq<string>, b: seq<string>, mk: Marks)
    requires NoMarks(a, mk) && NoMarks(b, mk) && Wrapped(block, mk)
    ensures StripLines(a + block + b, mk, false) == a + b
  {
    StripConcat(a + block, b, mk, false);
    StripConcat(a, block, mk, false);
    StripNoMarks(a, mk);
    StripNoMarks(b, mk);
    StripWrapped(block, mk);
    Units(a);
  }

  lemma StripInserted(ls: seq<string>, at: nat, block: seq<string>, mk: Marks)
    requires at <= |ls| && NoMarks(ls, mk) && Wrapped(block, mk)
    ensures StripLines(InsertLines(ls, at, block), mk, false) == ls
  {
    StripAround(ls[..at], block, ls[at..], mk);
    assert ls[..at] + ls[at..] == ls;
  }

  /** Inserting a wrapped block between two lines of a stripped file is undone by stripping. */
  lemma StripUndoesInsert(c: string, mk: Marks, at: nat, block: seq<string>)
    requires at <= |Split(Strip(c, mk))| && Wrapped(block, mk)
    ensures Strip(Join(InsertLines(Split(Strip(c, mk)), at, block)), mk) == Strip(c, mk)
  {
    var ls := Split(Strip(c, mk));
    StripClean(c, mk);
    SplitJoin(InsertLines(ls, at, block));
    StripInserted(ls, at, block, mk);
    JoinSplit(Strip(c, mk));
  }

  // ---------- insertion below a header ----------

  /** Whether a raw line is the header of a block that may be edited. */
  type Matcher = string -> bool

  /** Payload that may be wrapped: single lines none of which reads as the end mark. */
  predicate PayloadOk(payload: seq<string>, indent: string, mk: Marks) {
    && AllSpace(indent) && OneLine(indent) && OneLine(mk.begin) && OneLine(mk.end)
    && forall i :: 0 <= i < |payload| ==> OneLine(payload[i]) && !IsEnd(indent + payload[i], mk)
  }

  function Indented(payload: seq<string>, indent: string): (r: seq<string>)
    ensures |r| == |payload| && forall i :: 0 <= i < |r| ==> r[i] == indent + payload[i]
  {
    if payload == [] then [] else [indent + payload[0]] + Indented(payload[1..], indent)
  }

  function Block(mk: Marks, payload: seq<string>, indent: string): (r: seq<string>) {
    [indent + mk.begin] + Indented(payload, indent) + [indent + mk.end]
  }

  lemma MarksIndented(mk: Marks, indent: string)
    requires AllSpace(indent)
    ensures IsBegin(indent + mk.begin, mk) && IsEnd(indent + mk.end, mk)
  {
    TrimPadded(indent, mk.begin);
    TrimPadded(indent, mk.end);
  }

  lemma BlockWrapped(mk: Marks, payload: seq<string>, indent: string)
    requires PayloadOk(payload, indent, mk)
    ensures Wrapped(Block(mk, payload, indent), mk)
  {
    MarksIndented(mk, indent);
    var b := Block(mk, payload, indent);
    assert b[0] == indent + mk.begin && b[|b| - 1] == indent + mk.end;
    forall i | 0 < i < |b| - 1 ensures OneLine(b[i]) && !IsEnd(b[i], mk) {
      assert b[i] == indent + payload[i - 1];
    }
  }

  /** Index of the first line that the matcher accepts, or the number of lines. */
  function FirstHeader(ls: seq<string>, m: Matcher): (n: nat)
    ensures n <= |ls|
  {
    if ls == [] || m(ls[0]) then 0 else 1 + FirstHeader(ls[1..], m)
  }

  lemma {:induction false} FirstHeaderMeaning(ls: seq<string>, m: Matcher)
    ensures FirstHeader(ls, m) < |ls| ==> m(ls[FirstHeader(ls, m)])
    ensures forall i :: 0 <= i < FirstHeader(ls, m) ==> !m(ls[i])
  {
    if ls != [] && !m(ls[0]) {
      FirstHeaderMeaning(ls[1..], m);
    }
  }

  function NoBlock(selector: string): (r: string) {
    if selector != "" then "no matching block for selector " + selector else "no block found to edit"
  }

  function Place(src: string, block: seq<string>, selector: string, m: Matcher): (r: Result<string>) {
    var ls := Split(src);
    var n := FirstHeader(ls, m);
    if n == |ls| then Err(NoBlock(selector)) else Ok(Join(InsertLines(ls, n + 1, block)))
  }

  method InjectAfterHeader(conf: string, mk: Marks, payload: seq<string>, indent: string, selector: string, m: Matcher)
    returns (r: Result<string>)
    ensures r == Place(Strip(conf, mk), Block(mk, payload, indent), selector, m)
  {
    var src := StripManaged(conf, mk);
    var lines := Split(src);
    var target := -1;
    var i := 0;
    assert lines[0..] == lines;
    while i < |lines|
      invariant 0 <= i <= |lines| && target == -1
      invariant FirstHeader(lines, m) == i + FirstHeader(lines[i..], m)
    {
      if m(lines[i]) {
        target := i;
        break;
      }
      assert lines[i..][1..] == lines[i + 1..];
      i := i + 1;
    }
    if target == -1 {
      return Err(NoBlock(selector));
    }
    var block := [indent + mk.begin];
    assert payload[0..] == payload;
    for k := 0 to |payload|
      invariant block + Indented(payload[k..], indent) == [indent + mk.begin] + Indented(payload, indent)
    {
      assert payload[k..][1..] == payload[k + 1..];
      block := block + [indent + payload[k]];
    }
    assert block + [] == block;
    block := block + [indent + mk.end];
    r := Ok(Join(lines[..target + 1] + block + lines[target + 1..]));
  }

  /** Inject, for every input that has a matching header: what it adds is what strip removes, so a
      second inject, even with another payload, starts from the same text. */
  lemma InjectThenStrip(conf: string, mk: Marks, payload: seq<string>, indent: string, selector: string, m: Matcher)
    requires PayloadOk(payload, indent, mk)
    requires Place(Strip(conf, mk), Block(mk, payload, indent), selector, m).Ok?
    ensures var r := Place(Strip(conf, mk), Block(mk, payload, indent), selector, m).value;
            && Strip(r, mk) == Strip(conf, mk)
            && (NoMarks(Split(conf), mk) ==> Strip(r, mk) == conf)
            && Place(Strip(r, mk), Block(mk, payload, indent), selector, m) == Ok(r)
  {
    BlockWrapped(mk, payload, indent);
    var n := FirstHeader(Split(Strip(conf, mk)), m);
    StripUndoesInsert(conf, mk, n + 1, Block(mk, payload, indent));
    if NoMarks(Split(conf), mk) {
      StripMarkerFree(conf, mk);
    }
  }
}
