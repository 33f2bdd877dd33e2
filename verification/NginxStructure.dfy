/** The insertion keeps the server blocks of the file: the scanner finds the same blocks again, the
    target's brace in place, its close and everything later moved by the inserted length. */
module NginxStructure {
  import opened Text
  import opened ManagedBlocks
  import opened NginxScan
  import opened NginxInject

  // ---------- two texts with a common beginning ----------

  // What is known of two texts is kept in small predicates, so that it is used where it is asked for only.

  predicate SameAt(s: string, s': string, k: nat) {
    k < |s| && k < |s'| && s[k] == s'[k]
  }

  /** The first m characters are the same. */
  ghost predicate Agree(s: string, s': string, m: nat) {
    m <= |s| && m <= |s'| && forall k: nat {:trigger SameAt(s, s', k)} :: k < m ==> SameAt(s, s', k)
  }

  lemma AgreeAt(s: string, s': string, m: nat, k: nat)
    requires Agree(s, s', m) && k < m
    ensures s[k] == s'[k]
  {
    assert SameAt(s, s', k);
  }

  lemma AgreePrefix(s: string, s': string, m: nat)
    requires Agree(s, s', m)
    ensures s[..m] == s'[..m]
  {
    forall k | 0 <= k < m ensures s[k] == s'[k] {
      AgreeAt(s, s', m, k);
    }
  }

  lemma {:induction false} LineEndPrefix(s: string, s': string, m: nat, i: nat)
    requires Agree(s, s', m) && i <= |s| && LineEnd(s, i) < |s| && LineEnd(s, i) <= m
    ensures LineEnd(s', i) == LineEnd(s, i)
    decreases |s| - i
  {
    AgreeAt(s, s', m, i);
    if s[i] != '\n' {
      LineEndPrefix(s, s', m, i + 1);
    }
  }

  lemma {:induction false} KeywordPrefix(s: string, s': string, m: nat, i: nat)
    requires Agree(s, s', m) && i <= |s| && Keyword(s, i) >= 0 && Keyword(s, i) + 6 < m
    ensures Keyword(s', i) == Keyword(s, i)
    decreases |s| - i
  {
    AgreeAt(s, s', m, i);
    if s[i] == '#' {
      LineEndPrefix(s, s', m, i);
      KeywordPrefix(s, s', m, LineEnd(s, i));
    } else {
      KeywordAtPrefix(s, s', m, i);
      if !KeywordAt(s, i) {
        KeywordPrefix(s, s', m, i + 1);
      }
    }
  }

  lemma KeywordAtPrefix(s: string, s': string, m: nat, i: nat)
    requires Agree(s, s', m) && i + 6 < m
    ensures KeywordAt(s', i) == KeywordAt(s, i)
  {
    forall k | i <= k <= i + 6 ensures s[k] == s'[k] {
      AgreeAt(s, s', m, k);
    }
    if i > 0 {
      AgreeAt(s, s', m, i - 1);
    }
  }

  lemma {:induction false} StopPrefix(s: string, s': string, m: nat, i: nat)
    requires Agree(s, s', m) && i <= |s| && Stop(s, i) < m
    ensures Stop(s', i) == Stop(s, i)
    decreases |s| - i
  {
    AgreeAt(s, s', m, i);
    if s[i] == '#' {
      LineEndPrefix(s, s', m, i);
      StopPrefix(s, s', m, LineEnd(s, i));
    } else if s[i] != ';' && s[i] != '{' {
      StopPrefix(s, s', m, i + 1);
    }
  }

  lemma {:induction false} ClosePrefix(s: string, s': string, m: nat, from: nat, st: Scan)
    requires Agree(s, s', m) && from <= |s| && 0 <= CloseFrom(s, from, st) < m
    ensures from <= |s'| && CloseFrom(s', from, st) == CloseFrom(s, from, st)
    decreases |s| - from
  {
    AgreeAt(s, s', m, from);
    if !(s[from] == '}' && st == Scan(Code, 1)) {
      ClosePrefix(s, s', m, from + 1, Step(st, s[from]));
    }
  }

  lemma {:induction false} FirstIndexPrefix(a: string, b: string, p: char -> bool)
    requires FirstIndex(a, p) < |a| && FirstIndex(a, p) < |b| && a[..FirstIndex(a, p) + 1] == b[..FirstIndex(a, p) + 1]
    ensures FirstIndex(b, p) == FirstIndex(a, p)
  {
    var n := FirstIndex(a, p);
    assert a[0] == a[..n + 1][0] && b[0] == b[..n + 1][0];
    if !p(a[0]) {
      assert a[1..][..n] == a[..n + 1][1..] && b[1..][..n] == b[..n + 1][1..];
      FirstIndexPrefix(a[1..], b[1..], p);
    }
  }

  lemma {:induction false} LineStartPrefix(s: string, s': string, m: nat, pos: nat)
    requires Agree(s, s', m) && pos <= m
    ensures LineStart(s', pos) == LineStart(s, pos)
  {
    if pos > 0 {
      AgreeAt(s, s', m, pos - 1);
      LineStartPrefix(s, s', m, pos - 1);
    }
  }

  lemma IndentPrefix(s: string, s': string, m: nat, pos: nat)
    requires Agree(s, s', m) && pos < m && s[pos] != ' ' && s[pos] != '\t'
    ensures Indent(s', pos) == Indent(s, pos)
  {
    AgreePrefix(s, s', m);
    LineStartPrefix(s, s', m, pos);
    var start := LineStart(s, pos);
    var p := c => c != ' ' && c != '\t';
    IndentOf(s, pos);
    IndentOf(s', pos);
    var n := FirstIndex(s[start..], p);
    FirstIndexMeaning(s[start..], p);
    assert start + n <= pos by {
      assert s[start..][pos - start] == s[pos];
    }
    assert s[start..][..n + 1] == s[..m][start..start + n + 1];
    assert s'[start..][..n + 1] == s'[..m][start..start + n + 1];
    FirstIndexPrefix(s[start..], s'[start..], p);
    assert s[start..][..n] == s[..m][start..start + n] && s'[start..][..n] == s'[..m][start..start + n];
  }

  lemma IndentOf(s: string, pos: nat)
    requires pos <= |s|
    ensures Indent(s, pos) == s[LineStart(s, pos)..][..FirstIndex(s[LineStart(s, pos)..], c => c != ' ' && c != '\t')]
  {
  }

  // ---------- two texts with a common end ----------

  /** From p on, s reads like s' from p + d on; p is the beginning of a line in both. */
  ghost predicate Shifted(s: string, s': string, p: nat, d: nat) {
    && p <= |s| && |s'| == |s| + d
    && p > 0 && s[p - 1] == '\n' && p + d > 0 && s'[p + d - 1] == '\n'
    && forall k: nat {:trigger MovedTo(s, s', d, k)} :: p <= k < |s| ==> MovedTo(s, s', d, k)
  }

  predicate MovedTo(s: string, s': string, d: nat, k: nat) {
    k < |s| && k + d < |s'| && s'[k + d] == s[k]
  }

  lemma ShiftedAt(s: string, s': string, p: nat, d: nat, k: nat)
    requires Shifted(s, s', p, d) && p <= k < |s|
    ensures s'[k + d] == s[k]
  {
    assert MovedTo(s, s', d, k);
  }

  lemma ShiftedSuffix(s: string, s': string, p: nat, d: nat, a: nat)
    requires Shifted(s, s', p, d) && p <= a <= |s|
    ensures s'[a + d..] == s[a..]
  {
    forall k | a <= k < |s| ensures s'[k + d] == s[k] {
      ShiftedAt(s, s', p, d, k);
    }
  }

  lemma {:induction false} LineEndShift(s: string, s': string, p: nat, d: nat, i: nat)
    requires Shifted(s, s', p, d) && p <= i <= |s|
    ensures LineEnd(s', i + d) == LineEnd(s, i) + d
    decreases |s| - i
  {
    if i < |s| {
      ShiftedAt(s, s', p, d, i);
      if s[i] != '\n' {
        LineEndShift(s, s', p, d, i + 1);
      }
    }
  }

  lemma KeywordAtShift(s: string, s': string, p: nat, d: nat, i: nat)
    requires Shifted(s, s', p, d) && p < i <= |s|
    ensures KeywordAt(s', i + d) == KeywordAt(s, i)
  {
    forall k | p <= k < |s| ensures s'[k + d] == s[k] {
      ShiftedAt(s, s', p, d, k);
    }
    if i + 6 <= |s| {
      assert s'[i + 1 + d] == s[i + 1] && s'[i + 2 + d] == s[i + 2] && s'[i + 3 + d] == s[i + 3];
      assert s'[i + 4 + d] == s[i + 4] && s'[i + 5 + d] == s[i + 5] && s'[i - 1 + d] == s[i - 1];
      assert i + 6 < |s| ==> s'[i + 6 + d] == s[i + 6];
    }
  }

  lemma {:induction false} KeywordShift(s: string, s': string, p: nat, d: nat, i: nat)
    requires Shifted(s, s', p, d) && p < i <= |s|
    ensures Keyword(s', i + d) == if Keyword(s, i) < 0 then -1 else Keyword(s, i) + d
    decreases |s| - i
  {
    if i + 6 <= |s| {
      ShiftedAt(s, s', p, d, i);
      if s[i] == '#' {
        LineEndShift(s, s', p, d, i);
        KeywordShift(s, s', p, d, LineEnd(s, i));
      } else {
        KeywordAtShift(s, s', p, d, i);
        if !KeywordAt(s, i) {
          KeywordShift(s, s', p, d, i + 1);
        }
      }
    }
  }

  lemma {:induction false} StopShift(s: string, s': string, p: nat, d: nat, i: nat)
    requires Shifted(s, s', p, d) && p <= i <= |s|
    ensures Stop(s', i + d) == Stop(s, i) + d
    decreases |s| - i
  {
    if i < |s| {
      ShiftedAt(s, s', p, d, i);
      if s[i] == '#' {
        LineEndShift(s, s', p, d, i);
        StopShift(s, s', p, d, LineEnd(s, i));
      } else if s[i] != ';' && s[i] != '{' {
        StopShift(s, s', p, d, i + 1);
      }
    }
  }

  lemma BraceShift(s: string, s': string, p: nat, d: nat, i: nat)
    requires Shifted(s, s', p, d) && p <= i <= |s|
    ensures Brace(s', i + d) == if Brace(s, i) < 0 then -1 else Brace(s, i) + d
  {
    StopShift(s, s', p, d, i);
    if Stop(s, i) < |s| {
      ShiftedAt(s, s', p, d, Stop(s, i));
    }
  }

  lemma {:induction false} CloseShift(s: string, s': string, p: nat, d: nat, i: nat, st: Scan)
    requires Shifted(s, s', p, d) && p <= i <= |s|
    ensures CloseFrom(s', i + d, st) == if CloseFrom(s, i, st) < 0 then -1 else CloseFrom(s, i, st) + d
    decreases |s| - i
  {
    if i < |s| {
      ShiftedAt(s, s', p, d, i);
      if !(s[i] == '}' && st == Scan(Code, 1)) {
        CloseShift(s, s', p, d, i + 1, Step(st, s[i]));
      }
    }
  }

  lemma {:induction false} LineStartShift(s: string, s': string, p: nat, d: nat, pos: nat)
    requires Shifted(s, s', p, d) && p <= pos <= |s|
    ensures LineStart(s', pos + d) == LineStart(s, pos) + d
  {
    if pos > p {
      ShiftedAt(s, s', p, d, pos - 1);
      LineStartShift(s, s', p, d, pos - 1);
    }
  }

  lemma {:induction false} LineStartAtLeast(s: string, p: nat, pos: nat)
    requires 0 < p <= pos <= |s| && s[p - 1] == '\n'
    ensures LineStart(s, pos) >= p
  {
    if pos > p {
      LineStartAtLeast(s, p, pos - 1);
    }
  }

  lemma IndentShift(s: string, s': string, p: nat, d: nat, pos: nat)
    requires Shifted(s, s', p, d) && p <= pos <= |s|
    ensures Indent(s', pos + d) == Indent(s, pos)
  {
    LineStartShift(s, s', p, d, pos);
    LineStartAtLeast(s, p, pos);
    IndentOf(s, pos);
    IndentOf(s', pos + d);
    ShiftedSuffix(s, s', p, d, LineStart(s, pos));
  }

  function Moved(b: Spot, d: nat): (r: Spot) {
    Spot(b.idx + d, b.open + d, b.close + d)
  }

  function MovedRound(r: Round, d: nat): Round {
    match r
    case Done => Done
    case Directive(next) => Directive(next + d)
    case Found(spot) => Found(Moved(spot, d))
  }

  function MovedAll(spots: seq<Spot>, d: nat): (r: seq<Spot>) {
    if spots == [] then [] else [Moved(spots[0], d)] + MovedAll(spots[1..], d)
  }

  lemma RoundShift(s: string, s': string, p: nat, d: nat, i: nat)
    requires Shifted(s, s', p, d) && p < i <= |s|
    ensures NextRound(s', i + d) == MovedRound(NextRound(s, i), d)
  {
    KeywordShift(s, s', p, d, i);
    var idx := Keyword(s, i);
    if idx >= 0 {
      assert Keyword(s', i + d) == idx + d;
      BraceShift(s, s', p, d, idx + 6);
      var open := Brace(s, idx + 6);
      if open < 0 {
        assert NextRound(s', i + d) == Directive(idx + 6 + d);
      } else {
        CloseShift(s, s', p, d, open, START);
        assert Brace(s', idx + d + 6) == open + d;
      }
    }
  }

  lemma SliceShift(s: string, s': string, p: nat, d: nat, a: nat, b: nat)
    requires Shifted(s, s', p, d) && p <= a <= b <= |s|
    ensures s'[a + d..b + d] == s[a..b]
  {
    forall k | a <= k < b ensures s'[k + d] == s[k] {
      ShiftedAt(s, s', p, d, k);
    }
  }

  lemma BlockShift(s: string, s': string, p: nat, d: nat, idx: nat, open: nat, close: nat, f: Reader)
    requires Shifted(s, s', p, d) && p < idx <= open < close < |s|
    ensures BlockAt(s', idx + d, open + d, close + d, f)
            == BlockAt(s, idx, open, close, f).(open := open + d, close := close + d)
  {
    IndentShift(s, s', p, d, idx);
    SliceShift(s, s', p, d, open + 1, close);
  }

  /** Past the insertion, the scanner finds the same blocks, moved. */
  lemma {:induction false} SpotsShift(s: string, s': string, p: nat, d: nat, i: nat)
    requires Shifted(s, s', p, d) && p < i <= |s|
    ensures Spots(s', i + d) == MovedAll(Spots(s, i), d)
    decreases |s| - i
  {
    RoundShift(s, s', p, d, i);
    match NextRound(s, i) {
      case Done => DoneShift(s, s', d, i);
      case Directive(next) =>
        SpotsShift(s, s', p, d, next);
        DirectiveShift(s, s', d, i, next);
      case Found(spot) =>
        SpotsShift(s, s', p, d, spot.close + 1);
        FoundShift(s, s', d, i, spot, spot.close + 1);
    }
  }

  lemma DoneShift(s: string, s': string, d: nat, i: nat)
    requires i <= |s| && i + d <= |s'| && NextRound(s, i).Done? && NextRound(s', i + d).Done?
    ensures Spots(s', i + d) == MovedAll(Spots(s, i), d)
  {
  }

  lemma DirectiveShift(s: string, s': string, d: nat, i: nat, next: nat)
    requires i <= |s| && i + d <= |s'| && next <= |s| && next + d <= |s'|
    requires NextRound(s, i) == Directive(next) && NextRound(s', i + d) == Directive(next + d)
    requires Spots(s', next + d) == MovedAll(Spots(s, next), d)
    ensures Spots(s', i + d) == MovedAll(Spots(s, i), d)
  {
    DirectiveNext(s, i, next);
    DirectiveNext(s', i + d, next + d);
  }

  lemma FoundShift(s: string, s': string, d: nat, i: nat, spot: Spot, next: nat)
    requires i <= |s| && i + d <= |s'| && next == spot.close + 1 <= |s| && next + d <= |s'|
    requires NextRound(s, i) == Found(spot) && NextRound(s', i + d) == Found(Moved(spot, d))
    requires Spots(s', next + d) == MovedAll(Spots(s, next), d)
    ensures Spots(s', i + d) == MovedAll(Spots(s, i), d)
  {
    FoundNext(s, i, spot, next);
    FoundNext(s', i + d, Moved(spot, d), next + d);
    MovedCons(spot, Spots(s, next), d);
  }

  lemma DirectiveNext(s: string, i: nat, next: nat)
    requires i <= |s| && NextRound(s, i) == Directive(next)
    ensures next <= |s| && Spots(s, i) == Spots(s, next)
  {
  }

  lemma FoundNext(s: string, i: nat, spot: Spot, next: nat)
    requires i <= |s| && NextRound(s, i) == Found(spot) && next == spot.close + 1
    ensures next <= |s| && Spots(s, i) == [spot] + Spots(s, next)
  {
  }

  lemma MovedCons(b: Spot, bs: seq<Spot>, d: nat)
    ensures MovedAll([b] + bs, d) == [Moved(b, d)] + MovedAll(bs, d)
  {
    assert ([b] + bs)[1..] == bs;
  }

  // ---------- up to the target ----------

  lemma StopAfterKeyword(s: string, i: nat)
    requires SaysServer(s, i)
    ensures Stop(s, i) == Stop(s, i + 6)
  {
    assert Stop(s, i) == Stop(s, i + 1);
    assert Stop(s, i + 1) == Stop(s, i + 2);
    assert Stop(s, i + 2) == Stop(s, i + 3);
    assert Stop(s, i + 3) == Stop(s, i + 4);
    assert Stop(s, i + 4) == Stop(s, i + 5);
    assert Stop(s, i + 5) == Stop(s, i + 6);
  }

  /** The brace search stops no later when it begins earlier. */
  lemma {:induction false} StopBeforeKeyword(s: string, i: nat)
    requires i <= |s| && Keyword(s, i) >= 0
    ensures Stop(s, i) <= Stop(s, Keyword(s, i) + 6)
    decreases |s| - i
  {
    if s[i] == '#' {
      StopBeforeKeyword(s, LineEnd(s, i));
    } else if KeywordAt(s, i) {
      StopAfterKeyword(s, i);
    } else if s[i] != ';' && s[i] != '{' {
      StopBeforeKeyword(s, i + 1);
    }
  }

  lemma {:induction false} StopBeforeBlock(s: string, i: nat)
    requires i <= |s| && Spots(s, i) != []
    ensures Stop(s, i) <= Spots(s, i)[0].open
    decreases |s| - i
  {
    StopBeforeKeyword(s, i);
    match NextRound(s, i) {
      case Directive(next) => StopBeforeBlock(s, next);
      case Found(spot) => assert Spots(s, i)[0] == spot;
    }
  }

  lemma RoundPrefix(s: string, s': string, m: nat, i: nat)
    requires Agree(s, s', m) && i <= |s|
    requires !NextRound(s, i).Done?
    requires NextRound(s, i).Directive? ==> Stop(s, NextRound(s, i).next) < m
    requires NextRound(s, i).Found? ==> NextRound(s, i).spot.close < m
    ensures i <= |s'| && NextRound(s', i) == NextRound(s, i)
  {
    var idx := Keyword(s, i);
    var stop := Stop(s, idx + 6);
    assert stop < m;
    KeywordPrefix(s, s', m, i);
    StopPrefix(s, s', m, idx + 6);
    AgreeAt(s, s', m, stop);
    if s[stop] == '{' {
      ClosePrefix(s, s', m, stop, START);
    }
  }

  lemma BlockPrefix(s: string, s': string, m: nat, idx: nat, open: nat, close: nat, f: Reader)
    requires Agree(s, s', m) && idx <= open < close < m && KeywordAt(s, idx)
    ensures BlockAt(s', idx, open, close, f) == BlockAt(s, idx, open, close, f)
  {
    IndentPrefix(s, s', m, idx);
    forall k | open + 1 <= k < close ensures s[k] == s'[k] {
      AgreeAt(s, s', m, k);
    }
    assert s[open + 1..close] == s'[open + 1..close];
  }

  /** Scanning from i reaches, at j, the round that finds block n, and it does so in any text with the
      same beginning up to that block's brace. */
  lemma {:induction false} SpotsPrefix(s: string, s': string, m: nat, i: nat, n: nat, spots: seq<Spot>) returns (j: nat)
    requires Agree(s, s', m) && i <= |s| && spots == Spots(s, i) && n < |spots| && spots[n].open < m
    ensures i <= j <= |s| && j <= |s'| && NextRound(s, j) == Found(spots[n])
    ensures i <= |s'|
    ensures spots == spots[..n] + Spots(s, j)
    ensures Spots(s', i) == spots[..n] + Spots(s', j)
    decreases |s| - i
  {
    var round := NextRound(s, i);
    if round.Directive? {
      BeforeDirective(s, s', m, i, n, round.next, spots);
      DirectiveNext(s', i, round.next);
      j := SpotsPrefix(s, s', m, round.next, n, spots);
    } else {
      FoundNext(s, i, round.spot, round.spot.close + 1);
      j := FoundPrefix(s, s', m, i, n, round.spot, spots, Spots(s, round.spot.close + 1));
    }
  }

  lemma {:induction false} FoundPrefix(s: string, s': string, m: nat, i: nat, n: nat, spot: Spot, spots: seq<Spot>,
                                       rest: seq<Spot>) returns (j: nat)
    requires Agree(s, s', m) && i <= |s| && spots == Spots(s, i) && n < |spots| && spots[n].open < m
    requires NextRound(s, i) == Found(spot) && spots == [spot] + rest && rest == Spots(s, spot.close + 1)
    ensures i <= j <= |s| && j <= |s'| && NextRound(s, j) == Found(spots[n])
    ensures i <= |s'|
    ensures spots == spots[..n] + Spots(s, j)
    ensures Spots(s', i) == spots[..n] + Spots(s', j)
    decreases |s| - i, 0
  {
    if n == 0 {
      j := i;
      AgreeAt(s, s', m, spot.open);
      FrontEmpty(spots, spots);
      FrontEmpty(spots, Spots(s', i));
    } else {
      SpotsAreSound(s, i);
      BeforeFound(s, s', m, i, n, spot, spots);
      j := SpotsPrefix(s, s', m, spot.close + 1, n - 1, rest);
      PrefixFound(s', i, n, spot, rest, Spots(s', spot.close + 1), Spots(s, j), Spots(s', j));
    }
  }

  lemma FrontEmpty<T>(a: seq<T>, b: seq<T>)
    ensures b == a[..0] + b
  {
  }

  lemma PrefixFound(s: string, i: nat, n: nat, spot: Spot, rest: seq<Spot>, tail: seq<Spot>, here: seq<Spot>,
                    there: seq<Spot>)
    requires i <= |s| && NextRound(s, i) == Found(spot) && tail == Spots(s, spot.close + 1)
    requires 0 < n <= |rest| && rest == rest[..n - 1] + here && tail == rest[..n - 1] + there
    ensures [spot] + rest == ([spot] + rest)[..n] + here
    ensures Spots(s, i) == ([spot] + rest)[..n] + there
  {
    FoundNext(s, i, spot, spot.close + 1);
    PrefixLater(spot, rest, here, there, n);
  }

  lemma BeforeDirective(s: string, s': string, m: nat, i: nat, n: nat, next: nat, spots: seq<Spot>)
    requires Agree(s, s', m) && i <= |s| && NextRound(s, i) == Directive(next)
    requires spots == Spots(s, i) && n < |spots| && spots[n].open < m
    ensures i <= |s'| && NextRound(s', i) == Directive(next) && next <= |s| && spots == Spots(s, next)
  {
    SpotsAreSound(s, i);
    DirectiveNext(s, i, next);
    StopBeforeBlock(s, next);
    assert n > 0 ==> spots[0].close < spots[n].idx;
    RoundPrefix(s, s', m, i);
  }

  lemma BeforeFound(s: string, s': string, m: nat, i: nat, n: nat, spot: Spot, spots: seq<Spot>)
    requires Agree(s, s', m) && i <= |s| && NextRound(s, i) == Found(spot)
    requires SoundSpots(s, i, spots) && 0 < n < |spots| && spots[0] == spot && spots[n].open < m
    ensures i <= |s'| && NextRound(s', i) == Found(spot)
  {
    assert spots[0].close < spots[n].idx;
    RoundPrefix(s, s', m, i);
  }

  lemma PrefixLater<T>(first: T, rest: seq<T>, tail: seq<T>, other: seq<T>, n: nat)
    requires 0 < n <= |rest| && rest == rest[..n - 1] + tail
    ensures [first] + rest == ([first] + rest)[..n] + tail
    ensures [first] + (rest[..n - 1] + other) == ([first] + rest)[..n] + other
  {
    assert ([first] + rest)[..n] == [first] + rest[..n - 1];
  }

  // ---------- the inserted lines leave the automaton where it was ----------

  predicate IsQuote(c: char) {
    c == '"' || c == '\''
  }

  /** A mark line's text: a comment, on one line, without quotes or backslashes. */
  predicate MarkText(t: string) {
    t != "" && t[0] == '#' && OneLine(t) && forall k :: 0 <= k < |t| ==> !IsQuote(t[k]) && t[k] != '\\'
  }

  predicate Inert(c: char) {
    !IsQuote(c) && c != '\\' && c != '#' && c != '{' && c != '}'
  }

  /** An include directive's text: one line, no character special to the scanner, and no server_name. */
  predicate IncludeText(t: string) {
    PlainLine(t) && t[0] != 's' && forall k :: 0 <= k < |t| ==> Inert(t[k])
  }

  /** Code, or inside a quoted string. */
  predicate CodeOrQuote(m: Mode) {
    m.Code? || (m.Quote? && IsQuote(m.q))
  }

  lemma {:induction false} CodeRun(s: string, a: nat, b: nat, d: int)
    requires a <= b <= |s| && forall k :: a <= k < b ==> Inert(s[k])
    ensures CloseFrom(s, a, Scan(Code, d)) == CloseFrom(s, b, Scan(Code, d))
    decreases |s| - a
  {
    if a < b {
      CodeRun(s, a + 1, b, d);
    }
  }

  lemma {:induction false} QuoteRun(s: string, a: nat, b: nat, q: char, d: int)
    requires a <= b <= |s| && forall k :: a <= k < b ==> s[k] != q && s[k] != '\\'
    ensures CloseFrom(s, a, Scan(Quote(q), d)) == CloseFrom(s, b, Scan(Quote(q), d))
    decreases |s| - a
  {
    if a < b {
      QuoteRun(s, a + 1, b, q, d);
    }
  }

  /** A line that is a comment changes nothing, in code or inside a quoted string. */
  lemma MarkLine(s: string, a: nat, n: nat, e: nat, st: Scan)
    requires a <= n < e < |s| && s[n] == '#' && s[e] == '\n' && CodeOrQuote(st.mode)
    requires forall k :: a <= k < n ==> Inert(s[k])
    requires forall k :: n <= k < e ==> !IsQuote(s[k]) && s[k] != '\\' && s[k] != '\n'
    ensures CloseFrom(s, a, st) == CloseFrom(s, e + 1, st)
  {
    if st.mode.Code? {
      CodeRun(s, a, n, st.depth);
      CommentRun(s, n + 1, e, st.depth);
    } else {
      QuoteRun(s, a, e + 1, st.mode.q, st.depth);
    }
  }

  lemma IncludeLine(s: string, a: nat, e: nat, st: Scan)
    requires a <= e < |s| && s[e] == '\n' && CodeOrQuote(st.mode)
    requires forall k :: a <= k < e ==> Inert(s[k])
    ensures CloseFrom(s, a, st) == CloseFrom(s, e + 1, st)
  {
    if st.mode.Code? {
      CodeRun(s, a, e + 1, st.depth);
    } else {
      QuoteRun(s, a, e + 1, st.mode.q, st.depth);
    }
  }

  /** x stands in s at a. */
  predicate StandsAt(s: string, a: nat, x: string) {
    a + |x| <= |s| && forall k :: a <= k < a + |x| ==> s[k] == x[k - a]
  }

  lemma StandsSplit(s: string, a: nat, x: string, y: string)
    requires StandsAt(s, a, x + y)
    ensures StandsAt(s, a, x) && StandsAt(s, a + |x|, y)
  {
    forall k | a <= k < a + |x| ensures s[k] == x[k - a] {
      assert s[k] == (x + y)[k - a];
    }
    forall k | a + |x| <= k < a + |x| + |y| ensures s[k] == y[k - a - |x|] {
      assert s[k] == (x + y)[k - a];
    }
  }

  lemma MarkPiece(s: string, a: nat, indent: string, mark: string, st: Scan)
    requires StandsAt(s, a, indent + mark + "\n") && Blank(indent) && MarkText(mark) && CodeOrQuote(st.mode)
    ensures CloseFrom(s, a, st) == CloseFrom(s, a + |indent| + |mark| + 1, st)
  {
    StandsSplit(s, a, indent + mark, "\n");
    StandsSplit(s, a, indent, mark);
    assert s[a + |indent|] == mark[0];
    assert s[a + |indent| + |mark|] == '\n';
    MarkLine(s, a, a + |indent|, a + |indent| + |mark|, st);
  }

  lemma IncludePiece(s: string, a: nat, indent: string, include_: string, st: Scan)
    requires StandsAt(s, a, indent + include_ + "\n") && Blank(indent) && IncludeText(include_) && CodeOrQuote(st.mode)
    ensures CloseFrom(s, a, st) == CloseFrom(s, a + |indent| + |include_| + 1, st)
  {
    StandsSplit(s, a, indent + include_, "\n");
    StandsSplit(s, a, indent, include_);
    assert s[a + |indent| + |include_|] == '\n';
    IncludeLine(s, a, a + |indent| + |include_|, st);
  }

  predicate Blank(s: string) {
    forall k :: 0 <= k < |s| ==> s[k] == ' ' || s[k] == '\t'
  }

  /** The three inserted lines take the automaton from any state in code or quotes back to that state,
      and close no brace. */
  lemma InsertedIsNeutral(s: string, a: nat, indent: string, mk: Marks, include_: string, st: Scan)
    requires StandsAt(s, a, Inserted(indent, mk, include_)) && Blank(indent) && CodeOrQuote(st.mode)
    requires MarkText(mk.begin) && MarkText(mk.end) && IncludeText(include_)
    ensures CloseFrom(s, a, st) == CloseFrom(s, a + |Inserted(indent, mk, include_)|, st)
  {
    var b, i, e := indent + mk.begin + "\n", indent + include_ + "\n", indent + mk.end + "\n";
    assert Inserted(indent, mk, include_) == b + i + e;
    StandsThree(s, a, b, i, e);
    PiecesAreNeutral(s, a, a + |b|, a + |b| + |i|, indent, mk.begin, include_, mk.end, st);
  }

  lemma PiecesAreNeutral(s: string, a: nat, b: nat, c: nat, indent: string, begin: string, include_: string,
                         end: string, st: Scan)
    requires StandsAt(s, a, indent + begin + "\n") && b == a + |indent| + |begin| + 1
    requires StandsAt(s, b, indent + include_ + "\n") && c == b + |indent| + |include_| + 1
    requires StandsAt(s, c, indent + end + "\n") && Blank(indent) && CodeOrQuote(st.mode)
    requires MarkText(begin) && MarkText(end) && IncludeText(include_)
    ensures CloseFrom(s, a, st) == CloseFrom(s, c + |indent| + |end| + 1, st)
  {
    MarkPiece(s, a, indent, begin, st);
    IncludePiece(s, b, indent, include_, st);
    MarkPiece(s, c, indent, end, st);
  }

  lemma StandsThree(s: string, a: nat, x: string, y: string, z: string)
    requires StandsAt(s, a, x + y + z)
    ensures StandsAt(s, a, x) && StandsAt(s, a + |x|, y) && StandsAt(s, a + |x| + |y|, z)
  {
    StandsSplit(s, a, x + y, z);
    StandsSplit(s, a, x, y);
  }

  // ---------- the close of the target ----------

  lemma {:induction false} ModesHaveQuotes(s: string, from: nat, st: Scan, to: nat)
    requires from <= to <= |s|
    requires st.mode.Quote? || st.mode.Escape? ==> IsQuote(st.mode.q)
    ensures var m := StateAt(s, from, st, to).mode; m.Quote? || m.Escape? ==> IsQuote(m.q)
    decreases |s| - from
  {
    if from < to {
      ModesHaveQuotes(s, from + 1, Step(st, s[from]), to);
    }
  }

  lemma ModeAfterNewline(s: string, from: nat, to: nat)
    requires from < to <= |s| && s[to - 1] == '\n'
    ensures CodeOrQuote(StateAt(s, from, START, to).mode)
  {
    ModesHaveQuotes(s, from, START, to - 1);
    StateSplit(s, from, START, to - 1, to);
    var before := StateAt(s, from, START, to - 1);
    assert StateAt(s, to - 1, before, to) == Step(before, s[to - 1]);
  }

  /** With no close before m, matching goes on from m in the state reached there, in any text with the
      same beginning. */
  lemma {:induction false} ClosePast(s: string, s': string, m: nat, from: nat, st: Scan)
    requires Agree(s, s', m) && from <= m
    requires CloseFrom(s, from, st) == -1 || CloseFrom(s, from, st) >= m
    ensures CloseFrom(s', from, st) == CloseFrom(s', m, StateAt(s, from, st, m))
    decreases |s| - from
  {
    if from < m {
      AgreeAt(s, s', m, from);
      ClosePast(s, s', m, from + 1, Step(st, s[from]));
    }
  }

  /** The d characters at m take the automaton from any state in code or quotes back to that state. */
  ghost predicate Neutral(s: string, m: nat, d: nat) {
    m + d <= |s| && forall st: Scan {:trigger Passes(s, m, d, st)} :: CodeOrQuote(st.mode) ==> Passes(s, m, d, st)
  }

  predicate Passes(s: string, m: nat, d: nat, st: Scan) {
    m + d <= |s| && CloseFrom(s, m, st) == CloseFrom(s, m + d, st)
  }

  lemma CloseOfTarget(s: string, s': string, open: nat, m: nat, d: nat)
    requires open < m && Agree(s, s', m) && CloseFrom(s, open, START) >= m
    requires Shifted(s, s', m, d) && Neutral(s', m, d)
    ensures CloseFrom(s', open, START) == CloseFrom(s, open, START) + d
  {
    var st := StateAt(s, open, START, m);
    ModeAfterNewline(s, open, m);
    ClosePast(s, s, m, open, START);
    ClosePast(s, s', m, open, START);
    assert Passes(s', m, d, st);
    CloseShift(s, s', m, d, m, st);
  }

  /** In the changed text, the round that found the target finds it again, its close moved. */
  lemma TargetRound(s: string, s': string, m: nat, d: nat, j: nat, spot: Spot)
    requires j <= |s| && j <= |s'| && NextRound(s, j) == Found(spot)
    requires Agree(s, s', m) && spot.open < m <= spot.close
    requires Shifted(s, s', m, d) && Neutral(s', m, d)
    ensures NextRound(s', j) == Found(Spot(spot.idx, spot.open, spot.close + d))
  {
    KeywordPrefix(s, s', m, j);
    StopPrefix(s, s', m, spot.idx + 6);
    AgreeAt(s, s', m, spot.open);
    CloseOfTarget(s, s', spot.open, m, d);
  }

  /** The scanner's blocks after an insertion inside block n: those before it unchanged, block n closed d
      later, those after it moved by d. */
  function KeptSpots(spots: seq<Spot>, n: nat, d: nat): (r: seq<Spot>)
    requires n < |spots|
  {
    spots[..n] + ([Spot(spots[n].idx, spots[n].open, spots[n].close + d)] + MovedAll(spots[n + 1..], d))
  }

  lemma SpotsKept(s: string, s': string, m: nat, d: nat, n: nat)
    requires n < |Spots(s, 0)| && Spots(s, 0)[n].open < m <= Spots(s, 0)[n].close
    requires Agree(s, s', m) && Shifted(s, s', m, d) && Neutral(s', m, d)
    ensures Spots(s', 0) == KeptSpots(Spots(s, 0), n, d)
  {
    var spots := Spots(s, 0);
    var spot := spots[n];
    var j := SpotsPrefix(s, s', m, 0, n, spots);
    var rest := TargetOn(s, s', m, d, j, spot);
    KeptFrom(spots, Spots(s', 0), n, d, spot, rest);
  }

  /** The blocks from the target on. */
  lemma TargetOn(s: string, s': string, m: nat, d: nat, j: nat, spot: Spot) returns (rest: seq<Spot>)
    requires j <= |s| && j <= |s'| && NextRound(s, j) == Found(spot)
    requires Agree(s, s', m) && spot.open < m <= spot.close
    requires Shifted(s, s', m, d) && Neutral(s', m, d)
    ensures Spots(s, j) == [spot] + rest
    ensures Spots(s', j) == [Spot(spot.idx, spot.open, spot.close + d)] + MovedAll(rest, d)
  {
    TargetRound(s, s', m, d, j, spot);
    FoundNext(s, j, spot, spot.close + 1);
    rest := Spots(s, spot.close + 1);
    AfterTarget(s, s', m, d, j, spot, Spot(spot.idx, spot.open, spot.close + d));
  }

  lemma AfterTarget(s: string, s': string, m: nat, d: nat, j: nat, spot: Spot, spot': Spot)
    requires Shifted(s, s', m, d) && m < spot.close + 1 <= |s|
    requires j <= |s'| && NextRound(s', j) == Found(spot') && spot'.close == spot.close + d
    ensures Spots(s', j) == [spot'] + MovedAll(Spots(s, spot.close + 1), d)
  {
    FoundNext(s', j, spot', spot.close + 1 + d);
    SpotsShift(s, s', m, d, spot.close + 1);
  }

  lemma KeptFrom(spots: seq<Spot>, spots': seq<Spot>, n: nat, d: nat, spot: Spot, rest: seq<Spot>)
    requires n < |spots| && spot == spots[n] && spots == spots[..n] + ([spot] + rest)
    requires spots' == spots[..n] + ([Spot(spot.idx, spot.open, spot.close + d)] + MovedAll(rest, d))
    ensures spots' == KeptSpots(spots, n, d)
  {
    assert spots[n + 1..] == rest;
  }
}
