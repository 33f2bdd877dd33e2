/** The hand-written nginx scanner: keyword, brace and quote loops, refined to a character-at-a-time
    automaton, and the list of server blocks they find. */
module NginxScan {
  import opened Text

  // ---------- the lexical automaton ----------

  datatype Mode = Code | Comment | Quote(q: char) | Escape(q: char)

  datatype Scan = Scan(mode: Mode, depth: int)

  const START := Scan(Code, 0)

  function Step(st: Scan, c: char): (r: Scan) {
    match st.mode
    case Code =>
      if c == '#' then st.(mode := Comment)
      else if c == '"' || c == '\'' then st.(mode := Quote(c))
      else if c == '{' then st.(depth := st.depth + 1)
      else if c == '}' then st.(depth := st.depth - 1)
      else st
    case Comment => if c == '\n' then st.(mode := Code) else st
    case Quote(q) => if c == '\\' then st.(mode := Escape(q)) else if c == q then st.(mode := Code) else st
    case Escape(q) => st.(mode := Quote(q))
  }

  /** The state after the characters from `from` up to `to`. */
  function StateAt(s: string, from: nat, st: Scan, to: nat): (r: Scan)
    requires from <= to <= |s|
    decreases |s| - from
  {
    if from == to then st else StateAt(s, from + 1, Step(st, s[from]), to)
  }

  /** The position of the `}` in code that takes the depth from 1 to 0, or -1: one character at a time. */
  function CloseFrom(s: string, from: nat, st: Scan): (r: int)
    requires from <= |s|
    ensures r == -1 || from <= r < |s|
    decreases |s| - from
  {
    if from == |s| then -1
    else if s[from] == '}' && st == Scan(Code, 1) then from
    else CloseFrom(s, from + 1, Step(st, s[from]))
  }

  /** Position k closes the brace at `open`: in code, depth 1, a `}`. */
  predicate ClosesAt(s: string, open: nat, k: nat) {
    open <= k < |s| && s[k] == '}' && StateAt(s, open, START, k) == Scan(Code, 1)
  }

  lemma {:induction false} StateSplit(s: string, from: nat, st: Scan, mid: nat, to: nat)
    requires from <= mid <= to <= |s|
    ensures StateAt(s, from, st, to) == StateAt(s, mid, StateAt(s, from, st, mid), to)
    decreases |s| - from
  {
    if from < mid {
      StateSplit(s, from + 1, Step(st, s[from]), mid, to);
    }
  }

  lemma {:induction false} CloseIsLeast(s: string, from: nat, st: Scan)
    requires from <= |s|
    ensures var r := CloseFrom(s, from, st);
            && (r >= 0 ==> s[r] == '}' && StateAt(s, from, st, r) == Scan(Code, 1))
            && forall k :: from <= k < |s| && (r == -1 || k < r)
                ==> !(s[k] == '}' && StateAt(s, from, st, k) == Scan(Code, 1))
    decreases |s| - from
  {
    if from < |s| && !(s[from] == '}' && st == Scan(Code, 1)) {
      CloseIsLeast(s, from + 1, Step(st, s[from]));
    }
  }

  // ---------- brace matching ----------

  /** Index of the first newline at or after i, or the last index of s. */
  method EndOfLine(s: string, i: nat) returns (r: int)
    requires i < |s|
    ensures i <= r < |s|
    ensures forall k :: i <= k < r ==> s[k] != '\n'
    ensures s[r] == '\n' || r == |s| - 1
    ensures r + 1 == LineEnd(s, i)
  {
    var j := i;
    while j < |s|
      invariant i <= j <= |s| && LineEnd(s, i) == LineEnd(s, j)
      invariant forall k :: i <= k < j ==> s[k] != '\n'
    {
      if s[j] == '\n' {
        return j;
      }
      j := j + 1;
    }
    return |s| - 1;
  }

  /** Index past the first newline at or after pos, or the length of s. */
  function LineEnd(s: string, pos: nat): (r: nat)
    requires pos <= |s|
    ensures pos <= r <= |s|
    ensures pos < |s| ==> pos < r
    decreases |s| - pos
  {
    if pos == |s| then pos else if s[pos] == '\n' then pos + 1 else LineEnd(s, pos + 1)
  }

  predicate HasNewline(s: string, pos: nat) {
    exists k :: pos <= k < |s| && s[k] == '\n'
  }

  lemma {:induction false} LineEndMeaning(s: string, pos: nat)
    requires pos <= |s|
    ensures forall k :: pos <= k < LineEnd(s, pos) - 1 ==> s[k] != '\n'
    ensures HasNewline(s, pos) <==> LineEnd(s, pos) > pos && s[LineEnd(s, pos) - 1] == '\n'
    ensures !HasNewline(s, pos) ==> LineEnd(s, pos) == |s|
    decreases |s| - pos
  {
    if pos < |s| && s[pos] != '\n' {
      LineEndMeaning(s, pos + 1);
      assert HasNewline(s, pos) <==> HasNewline(s, pos + 1);
    }
  }

  method LineEndAfter(s: string, pos: nat) returns (r: nat)
    requires pos <= |s|
    ensures r == LineEnd(s, pos)
  {
    for i := pos to |s|
      invariant LineEnd(s, pos) == LineEnd(s, i)
    {
      if s[i] == '\n' {
        return i + 1;
      }
    }
    return |s|;
  }

  /** The quoted string that starts at i ends at the returned index; at the end of s if it is not closed. */
  method SkipQuoted(s: string, i: nat, ghost depth: int) returns (r: int)
    requires i < |s|
    ensures i <= r < |s|
    ensures CloseFrom(s, i + 1, Scan(Quote(s[i]), depth)) == CloseFrom(s, r + 1, Scan(Code, depth))
  {
    var q := s[i];
    var j := i + 1;
    while j < |s|
      invariant i < j
      invariant j <= |s| ==> CloseFrom(s, i + 1, Scan(Quote(q), depth)) == CloseFrom(s, j, Scan(Quote(q), depth))
      invariant j > |s| ==> CloseFrom(s, i + 1, Scan(Quote(q), depth)) == -1
    {
      if s[j] == '\\' {
        j := j + 2;
        continue;
      }
      if s[j] == q {
        return j;
      }
      j := j + 1;
    }
    return |s| - 1;
  }

  lemma {:induction false} CommentRun(s: string, from: nat, to: nat, depth: int)
    requires from <= to <= |s| && forall k :: from <= k < to ==> s[k] != '\n'
    ensures CloseFrom(s, from, Scan(Comment, depth)) == CloseFrom(s, to, Scan(Comment, depth))
    decreases |s| - from
  {
    if from < to {
      CommentRun(s, from + 1, to, depth);
    }
  }

  /** From a comment sign, the automaton is back in code past the line, or at the end of s. */
  lemma CommentSkips(s: string, i: nat, r: nat, depth: int)
    requires i <= r < |s| && s[i] == '#'
    requires forall k :: i <= k < r ==> s[k] != '\n'
    requires s[r] == '\n' || r == |s| - 1
    ensures CloseFrom(s, i, Scan(Code, depth)) == CloseFrom(s, r + 1, Scan(Code, depth))
  {
    if s[r] == '\n' {
      CommentRun(s, i + 1, r, depth);
    } else {
      CommentRun(s, i + 1, |s|, depth);
    }
  }

  /** matchBrace, with its jumps over comments and quoted strings, computes what the automaton defines. */
  method MatchBrace(s: string, open: nat) returns (r: int)
    requires open <= |s|
    ensures r == CloseFrom(s, open, START)
  {
    var depth := 0;
    var i := open;
    while i < |s|
      invariant open <= i <= |s|
      invariant CloseFrom(s, open, START) == CloseFrom(s, i, Scan(Code, depth))
    {
      var c := s[i];
      if c == '#' {
        var e := EndOfLine(s, i);
        CommentSkips(s, i, e, depth);
        i := e;
      } else if c == '"' || c == '\'' {
        i := SkipQuoted(s, i, depth);
      } else if c == '{' {
        depth := depth + 1;
      } else if c == '}' {
        depth := depth - 1;
        if depth == 0 {
          return i;
        }
      }
      i := i + 1;
    }
    return -1;
  }

  /** The brace matcher's result is the least closing position, and -1 exactly when there is none. */
  lemma MatchBraceMeaning(s: string, open: nat)
    requires open <= |s|
    ensures var r := CloseFrom(s, open, START);
            && (r == -1 <==> forall k :: !ClosesAt(s, open, k))
            && (r >= 0 ==> ClosesAt(s, open, r) && forall k :: ClosesAt(s, open, k) ==> r <= k)
  {
    CloseIsLeast(s, open, START);
    var r := CloseFrom(s, open, START);
    assert r >= 0 ==> ClosesAt(s, open, r);
  }

  /** Between an opening brace and its close the nesting depth stays positive. */
  lemma {:induction false} InsideIsNested(s: string, from: nat, st: Scan, k: nat)
    requires from <= k <= |s| && st.depth >= 1
    requires CloseFrom(s, from, st) == -1 || k <= CloseFrom(s, from, st)
    ensures StateAt(s, from, st, k).depth >= 1
    decreases |s| - from
  {
    if from < k {
      InsideIsNested(s, from + 1, Step(st, s[from]), k);
    }
  }

  // ---------- finding the blocks ----------

  predicate IsWord(b: char) {
    b == '_' || b == '-' || 'a' <= b <= 'z' || 'A' <= b <= 'Z' || '0' <= b <= '9'
  }

  /** The six characters at i are `server`. */
  predicate SaysServer(s: string, i: nat) {
    && i + 6 <= |s|
    && s[i] == 's' && s[i + 1] == 'e' && s[i + 2] == 'r' && s[i + 3] == 'v' && s[i + 4] == 'e' && s[i + 5] == 'r'
  }

  /** `server` stands at i as a word of its own. */
  predicate KeywordAt(s: string, i: nat) {
    && SaysServer(s, i)
    && !(i > 0 && IsWord(s[i - 1]))
    && !(i + 6 < |s| && IsWord(s[i + 6]))
  }

  /** The next keyword outside comments at or after i, or -1. */
  function Keyword(s: string, i: nat): (r: int)
    requires i <= |s|
    ensures r == -1 || (i <= r && r + 6 <= |s|)
    decreases |s| - i
  {
    if i + 6 > |s| then -1
    else if s[i] == '#' then Keyword(s, LineEnd(s, i))
    else if KeywordAt(s, i) then i
    else Keyword(s, i + 1)
  }

  /** The next `;` or `{` outside comments at or after i, or the length of s. */
  function Stop(s: string, i: nat): (r: nat)
    requires i <= |s|
    ensures i <= r <= |s|
    ensures r < |s| ==> s[r] == ';' || s[r] == '{'
    decreases |s| - i
  {
    if i == |s| then i
    else if s[i] == '#' then Stop(s, LineEnd(s, i))
    else if s[i] == ';' || s[i] == '{' then i
    else Stop(s, i + 1)
  }

  /** The brace that opens the block, or -1 if a `;` comes first. */
  function Brace(s: string, i: nat): (r: int)
    requires i <= |s|
    ensures r == -1 || i <= r < |s|
  {
    var p := Stop(s, i);
    if p < |s| && s[p] == '{' then p else -1
  }

  method IndexServerKeyword(s: string, from: nat) returns (r: int)
    requires from <= |s|
    ensures r == Keyword(s, from)
  {
    var i := from;
    while i + 6 <= |s|
      invariant from <= i <= |s|
      invariant Keyword(s, from) == Keyword(s, i)
    {
      if s[i] == '#' {
        var e := EndOfLine(s, i);
        i := e + 1;
        continue;
      }
      if !SaysServer(s, i) {
        i := i + 1;
        continue;
      }
      if i > 0 && IsWord(s[i - 1]) {
        i := i + 1;
        continue;
      }
      if i + 6 < |s| && IsWord(s[i + 6]) {
        i := i + 1;
        continue;
      }
      return i;
    }
    return -1;
  }

  method IndexBraceAfter(s: string, pos: nat) returns (r: int)
    requires pos <= |s|
    ensures r == Brace(s, pos)
  {
    var i := pos;
    while i < |s|
      invariant pos <= i <= |s|
      invariant Stop(s, pos) == Stop(s, i)
    {
      if s[i] == '#' {
        i := EndOfLine(s, i);
      } else if s[i] == ';' {
        return -1;
      } else if s[i] == '{' {
        return i;
      }
      i := i + 1;
    }
    return -1;
  }

  predicate SaysServerName(s: string) {
    SaysServer(s, 0) && |s| >= 11 && s[6] == '_' && s[7] == 'n' && s[8] == 'a' && s[9] == 'm' && s[10] == 'e'
  }

  /** Index of the first `#`, or the length of the line. */
  function HashIndex(line: string): (n: nat)
    ensures n <= |line|
  {
    if line == "" || line[0] == '#' then 0 else 1 + HashIndex(line[1..])
  }

  function CutSemicolon(s: string): (r: string) {
    if s != "" && s[|s| - 1] == ';' then s[..|s| - 1] else s
  }

  /** The names on one line: what follows `server_name`, comment and `;` cut off. */
  function NamesOn(line: string): (r: seq<string>) {
    var code := TrimSpace(line[..HashIndex(line)]);
    if SaysServerName(code) then Fields(CutSemicolon(TrimSpace(code[11..]))) else []
  }

  /** How the names on a line are read. */
  type Reader = string -> seq<string>

  function Names(lines: seq<string>, f: Reader): (r: seq<string>) {
    if lines == [] then [] else f(lines[0]) + Names(lines[1..], f)
  }

  method ParseServerNames(body: string) returns (r: seq<string>)
    ensures r == Names(Split(body), NamesOn)
  {
    var lines := Split(body);
    r := [];
    assert lines[0..] == lines;
    for i := 0 to |lines|
      invariant r + Names(lines[i..], NamesOn) == Names(lines, NamesOn)
    {
      assert lines[i..][1..] == lines[i + 1..];
      Assoc(r, NamesOn(lines[i]), Names(lines[i + 1..], NamesOn));
      r := r + NamesOn(lines[i]);
    }
    assert r + [] == r;
  }

  function LineStart(s: string, pos: nat): (r: nat)
    requires pos <= |s|
    ensures r <= pos
  {
    if pos > 0 && s[pos - 1] != '\n' then LineStart(s, pos - 1) else pos
  }

  /** The blanks that begin the line around pos. */
  function Indent(s: string, pos: nat): (r: string)
    requires pos <= |s|
  {
    var start := LineStart(s, pos);
    s[start..][..FirstIndex(s[start..], c => c != ' ' && c != '\t')]
  }

  method LineIndent(s: string, pos: nat) returns (r: string)
    requires pos <= |s|
    ensures r == Indent(s, pos)
  {
    var start := pos;
    while start > 0 && s[start - 1] != '\n'
      invariant 0 <= start <= pos && LineStart(s, pos) == LineStart(s, start)
    {
      start := start - 1;
    }
    var end := start;
    ghost var p := c => c != ' ' && c != '\t';
    while end < |s| && (s[end] == ' ' || s[end] == '\t')
      invariant start <= end <= |s|
      invariant FirstIndex(s[start..], p) == end - start + FirstIndex(s[end..], p)
    {
      assert s[end..][1..] == s[end + 1..];
      end := end + 1;
    }
    r := s[start..end];
    assert s[start..][..end - start] == r;
  }

  datatype ServerBlock = ServerBlock(open: nat, close: nat, names: seq<string>, indent: string)

  /** The block whose keyword is at idx and whose brace is at open. */
  function BlockAt(s: string, idx: nat, open: nat, close: nat, f: Reader): (r: ServerBlock)
    requires idx <= open < close < |s|
  {
    ServerBlock(open, close, Names(Split(s[open + 1..close]), f), Indent(s, idx))
  }

  /** What one round of the search at i finds: a keyword, its brace and the matching close. */
  datatype Spot = Spot(idx: nat, open: nat, close: nat)

  datatype Round = Done | Directive(next: nat) | Found(spot: Spot)

  function NextRound(s: string, i: nat): (r: Round)
    requires i <= |s|
    ensures r.Directive? ==> i < r.next <= |s|
    ensures r.Found? ==> i <= r.spot.idx < r.spot.open < r.spot.close < |s|
  {
    var idx := Keyword(s, i);
    if idx < 0 then Done
    else
      var open := Brace(s, idx + 6);
      if open < 0 then Directive(idx + 6)
      else
        var close := CloseFrom(s, open, START);
        if close < 0 then Done
        else
          assert close != open;
          Found(Spot(idx, open, close))
  }

  /** The block positions at or after i. */
  function Spots(s: string, i: nat): (r: seq<Spot>)
    requires i <= |s|
    decreases |s| - i
  {
    match NextRound(s, i)
    case Done => []
    case Directive(next) => Spots(s, next)
    case Found(spot) => [spot] + Spots(s, spot.close + 1)
  }

  predicate InText(s: string, spots: seq<Spot>) {
    forall k :: 0 <= k < |spots| ==> spots[k].idx < spots[k].open < spots[k].close < |s|
  }

  lemma {:induction false} SpotsInText(s: string, i: nat)
    requires i <= |s|
    ensures InText(s, Spots(s, i))
    decreases |s| - i
  {
    match NextRound(s, i) {
      case Done =>
      case Directive(next) => SpotsInText(s, next);
      case Found(spot) => SpotsInText(s, spot.close + 1);
    }
  }

  function Described(s: string, spots: seq<Spot>, f: Reader): (r: seq<ServerBlock>)
    requires InText(s, spots)
    ensures |r| == |spots|
  {
    if spots == [] then []
    else [BlockAt(s, spots[0].idx, spots[0].open, spots[0].close, f)] + Described(s, spots[1..], f)
  }

  /** A way to describe a found position. */
  type Describer = Spot -> ServerBlock

  function Each(spots: seq<Spot>, d: Describer): (r: seq<ServerBlock>) {
    if spots == [] then [] else [d(spots[0])] + Each(spots[1..], d)
  }

  /** d describes the positions of s. */
  ghost predicate Describes(s: string, d: Describer) {
    forall spot: Spot {:trigger BlockAt(s, spot.idx, spot.open, spot.close, NamesOn)} ::
      spot.idx <= spot.open < spot.close < |s| ==> d(spot) == BlockAt(s, spot.idx, spot.open, spot.close, NamesOn)
  }

  lemma {:induction false} EachDescribed(s: string, spots: seq<Spot>, d: Describer)
    requires InText(s, spots) && Describes(s, d)
    ensures Each(spots, d) == Described(s, spots, NamesOn)
  {
    if spots != [] {
      EachDescribed(s, spots[1..], d);
      assert d(spots[0]) == BlockAt(s, spots[0].idx, spots[0].open, spots[0].close, NamesOn);
    }
  }

  method DescribeBlock(s: string, spot: Spot, ghost d: Describer) returns (r: ServerBlock)
    requires spot.idx <= spot.open < spot.close < |s| && Describes(s, d)
    ensures r == d(spot)
  {
    var names := ParseServerNames(s[spot.open + 1..spot.close]);
    var indent := LineIndent(s, spot.idx);
    DescribedBy(s, spot, d);
    r := ServerBlock(spot.open, spot.close, names, indent);
  }

  lemma DescribedBy(s: string, spot: Spot, d: Describer)
    requires spot.idx <= spot.open < spot.close < |s| && Describes(s, d)
    ensures d(spot) == ServerBlock(spot.open, spot.close, Names(Split(s[spot.open + 1..spot.close]), NamesOn),
                                   Indent(s, spot.idx))
  {
    assert d(spot) == BlockAt(s, spot.idx, spot.open, spot.close, NamesOn);
  }

  /** One round of the search loop. */
  method SearchRound(s: string, i: nat) returns (r: Round)
    requires i <= |s|
    ensures r == NextRound(s, i)
  {
    var idx := IndexServerKeyword(s, i);
    if idx < 0 {
      return Done;
    }
    var open := IndexBraceAfter(s, idx + 6);
    if open < 0 {
      return Directive(idx + 6);
    }
    var close := MatchBrace(s, open);
    if close < 0 {
      return Done;
    }
    assert close != open;
    return Found(Spot(idx, open, close));
  }

  /** The server blocks of the text. */
  function Blocks(s: string): (r: seq<ServerBlock>) {
    SpotsInText(s, 0);
    Described(s, Spots(s, 0), NamesOn)
  }

  /** What the rounds from i on find, described. */
  function EachFrom(s: string, i: nat, d: Describer): (r: seq<ServerBlock>)
    requires i <= |s|
  {
    Each(Spots(s, i), d)
  }

  lemma NothingFound(s: string, i: nat, d: Describer)
    requires i <= |s| && (i == |s| || NextRound(s, i).Done?)
    ensures EachFrom(s, i, d) == []
  {
  }

  lemma Skipped(s: string, i: nat, d: Describer)
    requires i <= |s| && NextRound(s, i).Directive?
    ensures EachFrom(s, i, d) == EachFrom(s, NextRound(s, i).next, d)
  {
  }

  lemma BlockFound(s: string, i: nat, d: Describer)
    requires i <= |s| && NextRound(s, i).Found?
    ensures EachFrom(s, i, d) == [d(NextRound(s, i).spot)] + EachFrom(s, NextRound(s, i).spot.close + 1, d)
  {
    var spot := NextRound(s, i).spot;
    assert ([spot] + Spots(s, spot.close + 1))[1..] == Spots(s, spot.close + 1);
  }

  /** The search loop. */
  method Search(s: string, ghost d: Describer) returns (r: seq<ServerBlock>)
    requires Describes(s, d)
    ensures r == EachFrom(s, 0, d)
  {
    r := [];
    var i := 0;
    Units(EachFrom(s, 0, d));
    while i < |s|
      invariant 0 <= i <= |s|
      invariant r + EachFrom(s, i, d) == EachFrom(s, 0, d)
    {
      var round := SearchRound(s, i);
      if round.Done? {
        break;
      }
      if round.Directive? {
        Skipped(s, i, d);
        i := round.next;
        continue;
      }
      var found := DescribeBlock(s, round.spot, d);
      BlockFound(s, i, d);
      i := round.spot.close + 1;
      Assoc(r, [found], EachFrom(s, i, d));
      r := r + [found];
    }
    NothingFound(s, i, d);
    Units(r);
  }

  method FindServerBlocks(s: string) returns (r: seq<ServerBlock>)
    ensures r == Blocks(s)
  {
    ghost var d: Describer := (spot: Spot) =>
      if spot.idx <= spot.open < spot.close < |s| then BlockAt(s, spot.idx, spot.open, spot.close, NamesOn)
          else ServerBlock(0, 0, [], "");
    r := Search(s, d);
    SpotsInText(s, 0);
    EachDescribed(s, Spots(s, 0), d);
  }

  /** What every found block is: a brace after a keyword, then its matching close, within the text. */
  predicate SoundSpot(s: string, b: Spot) {
    && b.idx < b.open < b.close < |s|
    && KeywordAt(s, b.idx)
    && s[b.open] == '{'
    && b.close == CloseFrom(s, b.open, START)
  }

  /** Every block is sound and starts at or after i, and each ends before the next begins. */
  ghost predicate SoundSpots(s: string, i: nat, bs: seq<Spot>) {
    && (forall n :: 0 <= n < |bs| ==> SoundSpot(s, bs[n]) && i <= bs[n].idx)
    && (forall n, m :: 0 <= n < m < |bs| ==> bs[n].close < bs[m].idx)
  }

  lemma SoundCons(s: string, i: nat, b: Spot, bs: seq<Spot>)
    requires SoundSpot(s, b) && i <= b.idx && SoundSpots(s, b.close + 1, bs)
    ensures SoundSpots(s, i, [b] + bs)
  {
    var r := [b] + bs;
    forall n | 0 <= n < |r| ensures SoundSpot(s, r[n]) && i <= r[n].idx {
      if n > 0 {
        assert r[n] == bs[n - 1];
      }
    }
  }

  lemma {:induction false} KeywordIsAt(s: string, i: nat)
    requires i <= |s| && Keyword(s, i) >= 0
    ensures KeywordAt(s, Keyword(s, i))
    decreases |s| - i
  {
    if s[i] == '#' {
      KeywordIsAt(s, LineEnd(s, i));
    } else if !KeywordAt(s, i) {
      KeywordIsAt(s, i + 1);
    }
  }

  lemma RoundIsSound(s: string, i: nat)
    requires i <= |s| && NextRound(s, i).Found?
    ensures SoundSpot(s, NextRound(s, i).spot)
  {
    KeywordIsAt(s, i);
  }

  lemma {:induction false} SpotsAreSound(s: string, i: nat)
    requires i <= |s|
    ensures SoundSpots(s, i, Spots(s, i))
    decreases |s| - i
  {
    match NextRound(s, i) {
      case Done =>
      case Directive(next) => SpotsAreSound(s, next);
      case Found(spot) =>
        SpotsAreSound(s, spot.close + 1);
        RoundIsSound(s, i);
        SoundCons(s, i, spot, Spots(s, spot.close + 1));
    }
  }

  lemma {:induction false} DescribedAt(s: string, spots: seq<Spot>, f: Reader, k: nat)
    requires InText(s, spots) && k < |spots|
    ensures Described(s, spots, f)[k] == BlockAt(s, spots[k].idx, spots[k].open, spots[k].close, f)
  {
    if k > 0 {
      DescribedAt(s, spots[1..], f, k - 1);
    }
  }

  /** A sound block's close is the least position that closes its brace, and the depth stays positive in between. */
  lemma SpotIsBalanced(s: string, b: Spot)
    requires SoundSpot(s, b)
    ensures ClosesAt(s, b.open, b.close) && (forall k :: ClosesAt(s, b.open, k) ==> b.close <= k)
    ensures forall k :: b.open < k <= b.close ==> StateAt(s, b.open, START, k).depth >= 1
  {
    MatchBraceMeaning(s, b.open);
    forall k | b.open < k <= b.close ensures StateAt(s, b.open, START, k).depth >= 1 {
      InsideIsNested(s, b.open + 1, Scan(Code, 1), k);
    }
  }

  /** The found blocks are in order, disjoint, within bounds and balanced. */
  lemma BlocksAreSound(s: string, n: nat)
    requires n < |Blocks(s)|
    ensures var b := Blocks(s)[n];
            && b.open < b.close < |s| && s[b.open] == '{'
            && ClosesAt(s, b.open, b.close) && (forall k :: ClosesAt(s, b.open, k) ==> b.close <= k)
            && (n + 1 < |Blocks(s)| ==> b.close < Blocks(s)[n + 1].open)
  {
    SpotsAreSound(s, 0);
    SpotsInText(s, 0);
    var spots := Spots(s, 0);
    DescribedAt(s, spots, NamesOn, n);
    SpotIsBalanced(s, spots[n]);
    if n + 1 < |spots| {
      DescribedAt(s, spots, NamesOn, n + 1);
    }
  }
}
