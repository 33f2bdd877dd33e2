/** The scanner's searches without their order of steps: which keyword, brace or semicolon is found, and
    that no server block is missed. */
module NginxCoverage {
  import opened NginxScan
  import NginxStructure

  // ---------- comments ----------

  /** A comment begins at h and goes on at least up to k. */
  predicate CommentTo(s: string, h: nat, k: nat) {
    h < k <= |s| && s[h] == '#' && forall j :: h <= j < k ==> s[j] != '\n'
  }

  /** k is in a comment, as seen by a search that begins at i. */
  predicate InComment(s: string, i: nat, k: nat) {
    exists h :: i <= h < k && CommentTo(s, h, k)
  }

  lemma CommentEnds(s: string, i: nat, k: nat)
    requires i < |s| && s[i] == '#' && LineEnd(s, i) <= k < |s|
    ensures InComment(s, i, k) <==> InComment(s, LineEnd(s, i), k)
  {
    var e := LineEnd(s, i);
    LineEndMeaning(s, i);
    assert s[e - 1] == '\n';
    if InComment(s, i, k) {
      var h :| i <= h < k && CommentTo(s, h, k);
      assert e <= h;
    }
    if InComment(s, e, k) {
      var h :| e <= h < k && CommentTo(s, h, k);
    }
  }

  lemma InsideComment(s: string, i: nat, k: nat)
    requires i < |s| && s[i] == '#' && i < k < LineEnd(s, i)
    ensures InComment(s, i, k)
  {
    LineEndMeaning(s, i);
    assert CommentTo(s, i, k);
  }

  lemma NoCommentHere(s: string, i: nat, k: nat)
    requires i < |s| && s[i] != '#' && i < k
    ensures InComment(s, i, k) <==> InComment(s, i + 1, k)
  {
    if InComment(s, i, k) {
      var h :| i <= h < k && CommentTo(s, h, k);
    }
    if InComment(s, i + 1, k) {
      var h :| i + 1 <= h < k && CommentTo(s, h, k);
    }
  }

  // ---------- the searches ----------

  /** A keyword that a search from i does not overlook. */
  predicate Plain(s: string, i: nat, k: nat) {
    KeywordAt(s, k) && !InComment(s, i, k)
  }

  /** The keyword found is the first one outside comments. */
  lemma KeywordMeaning(s: string, i: nat)
    requires i <= |s|
    ensures Keyword(s, i) >= 0 ==> Plain(s, i, Keyword(s, i))
    ensures forall k: nat :: i <= k && Plain(s, i, k) ==> 0 <= Keyword(s, i) <= k
  {
    if Keyword(s, i) >= 0 {
      KeywordIsPlain(s, i);
    }
    forall k: nat | i <= k && Plain(s, i, k) ensures 0 <= Keyword(s, i) <= k {
      KeywordIsFirst(s, i, k);
    }
  }

  lemma {:induction false} KeywordIsPlain(s: string, i: nat)
    requires i <= |s| && Keyword(s, i) >= 0
    ensures Plain(s, i, Keyword(s, i))
    decreases |s| - i
  {
    if s[i] == '#' {
      KeywordIsPlain(s, LineEnd(s, i));
      CommentEnds(s, i, Keyword(s, i));
    } else if !KeywordAt(s, i) {
      KeywordIsPlain(s, i + 1);
      NoCommentHere(s, i, Keyword(s, i));
    }
  }

  lemma {:induction false} KeywordIsFirst(s: string, i: nat, k: nat)
    requires i <= k && i <= |s| && Plain(s, i, k)
    ensures 0 <= Keyword(s, i) <= k
    decreases |s| - i
  {
    if s[i] == '#' {
      if k < LineEnd(s, i) {
        InsideComment(s, i, k);
      } else {
        CommentEnds(s, i, k);
        KeywordIsFirst(s, LineEnd(s, i), k);
      }
    } else if !KeywordAt(s, i) {
      NoCommentHere(s, i, k);
      KeywordIsFirst(s, i + 1, k);
    }
  }

  /** A `;` or `{` that a search from i does not overlook. */
  predicate Stops(s: string, i: nat, k: nat) {
    k < |s| && (s[k] == ';' || s[k] == '{') && !InComment(s, i, k)
  }

  /** The stop found is the first one outside comments. */
  lemma StopMeaning(s: string, i: nat)
    requires i <= |s|
    ensures Stop(s, i) < |s| ==> Stops(s, i, Stop(s, i))
    ensures forall k: nat :: i <= k && Stops(s, i, k) ==> Stop(s, i) <= k
  {
    if Stop(s, i) < |s| {
      StopIsPlain(s, i);
    }
    forall k: nat | i <= k && Stops(s, i, k) ensures Stop(s, i) <= k {
      StopIsFirst(s, i, k);
    }
  }

  lemma {:induction false} StopIsPlain(s: string, i: nat)
    requires i <= |s| && Stop(s, i) < |s|
    ensures Stops(s, i, Stop(s, i))
    decreases |s| - i
  {
    if s[i] == '#' {
      StopIsPlain(s, LineEnd(s, i));
      CommentEnds(s, i, Stop(s, i));
    } else if s[i] != ';' && s[i] != '{' {
      StopIsPlain(s, i + 1);
      NoCommentHere(s, i, Stop(s, i));
    }
  }

  lemma {:induction false} StopIsFirst(s: string, i: nat, k: nat)
    requires i <= k && i <= |s| && Stops(s, i, k)
    ensures Stop(s, i) <= k
    decreases |s| - i
  {
    if s[i] == '#' {
      if i < k < LineEnd(s, i) {
        InsideComment(s, i, k);
      } else {
        CommentEnds(s, i, k);
        StopIsFirst(s, LineEnd(s, i), k);
      }
    } else if s[i] != ';' && s[i] != '{' {
      NoCommentHere(s, i, k);
      StopIsFirst(s, i + 1, k);
    }
  }

  /** A brace is found exactly when it comes before every `;`, comments left out. */
  lemma BraceMeaning(s: string, i: nat, b: nat)
    requires i <= |s|
    ensures Brace(s, i) == b
            <==> i <= b && Stops(s, i, b) && s[b] == '{' && forall k: nat :: i <= k < b ==> !Stops(s, i, k)
  {
    StopMeaning(s, i);
  }

  // ---------- no block is missed ----------

  /** Where the search that came to k last resumed: behind the last found block that ends before k. */
  function ResumedAt(i: nat, spots: seq<Spot>, k: nat): (r: nat)
    decreases |spots|
  {
    if spots == [] || k <= spots[0].close then i else ResumedAt(spots[0].close + 1, spots[1..], k)
  }

  predicate FoundAt(spots: seq<Spot>, k: nat) {
    exists n :: 0 <= n < |spots| && spots[n].idx == k
  }

  /** k is between a found block's keyword and its close. */
  predicate Within(spots: seq<Spot>, k: nat) {
    exists n :: 0 <= n < |spots| && spots[n].idx < k <= spots[n].close
  }

  /** A keyword, not in a comment, with a brace. */
  predicate Opens(s: string, from: nat, k: nat) {
    Plain(s, from, k) && Brace(s, k + 6) >= 0
  }

  predicate Unclosed(s: string, from: nat, u: nat) {
    Opens(s, from, u) && CloseFrom(s, Brace(s, u + 6), START) == -1
  }

  /** The search met a block without an end and gave up. */
  predicate GivenUp(s: string, from: nat, k: nat) {
    exists u: nat :: from <= u <= k && Unclosed(s, from, u)
  }

  /** What the scanner is to find at k, given what it found before. */
  predicate Due(s: string, from: nat, spots: seq<Spot>, k: nat) {
    !Within(spots, k) && Opens(s, from, k) && !GivenUp(s, from, k)
  }

  lemma FoundCons(b: Spot, rest: seq<Spot>, k: nat)
    ensures FoundAt([b] + rest, k) <==> b.idx == k || FoundAt(rest, k)
    ensures Within([b] + rest, k) <==> b.idx < k <= b.close || Within(rest, k)
  {
    var r := [b] + rest;
    if b.idx == k || b.idx < k <= b.close {
      assert r[0] == b;
    }
    if n: nat :| n < |rest| && rest[n].idx == k {
      assert r[n + 1] == rest[n];
    }
    if n: nat :| n < |rest| && rest[n].idx < k <= rest[n].close {
      assert r[n + 1] == rest[n];
    }
  }

  lemma NotBefore(s: string, i: nat, spots: seq<Spot>, k: nat)
    requires SoundSpots(s, i, spots) && k < i
    ensures !FoundAt(spots, k) && !Within(spots, k)
  {
  }

  lemma NoKeywordWithin(s: string, i: nat, k: nat)
    requires KeywordAt(s, i) && i < k < i + 6
    ensures !KeywordAt(s, k)
  {
    assert s[k] != 's' || k == i;
  }

  /** A search that goes on behind a directive overlooks nothing more. */
  lemma PlainBehind(s: string, i: nat, idx: nat, k: nat)
    requires i <= idx && Plain(s, i, idx) && idx + 6 <= k
    ensures Plain(s, i, k) <==> Plain(s, idx + 6, k)
  {
    if InComment(s, i, k) {
      var h :| i <= h < k && CommentTo(s, h, k);
      if h < idx {
        assert CommentTo(s, h, idx);
      }
    }
    if InComment(s, idx + 6, k) {
      var h :| idx + 6 <= h < k && CommentTo(s, h, k);
    }
  }

  /** No round finds anything before its keyword. */
  lemma NothingBefore(s: string, i: nat, k: nat)
    requires i <= k && i <= |s| && (Keyword(s, i) < 0 || k < Keyword(s, i))
    ensures !Opens(s, i, k) && !GivenUp(s, i, k)
  {
    KeywordMeaning(s, i);
  }

  lemma DoneExactly(s: string, i: nat, k: nat)
    requires i <= k && i <= |s| && NextRound(s, i).Done?
    ensures !Due(s, i, [], k)
  {
    KeywordMeaning(s, i);
    if Opens(s, i, k) {
      assert Unclosed(s, i, Keyword(s, i));
    }
  }

  lemma GivenUpBehind(s: string, i: nat, k: nat)
    requires i <= |s| && NextRound(s, i).Directive? && NextRound(s, i).next <= k
    ensures GivenUp(s, i, k) <==> GivenUp(s, NextRound(s, i).next, k)
  {
    var idx := Keyword(s, i);
    var next := idx + 6;
    KeywordMeaning(s, i);
    if u: nat :| i <= u <= k && Unclosed(s, i, u) {
      if idx < u < idx + 6 {
        NoKeywordWithin(s, idx, u);
      } else if u >= idx + 6 {
        PlainBehind(s, i, idx, u);
        assert Unclosed(s, next, u);
      }
    }
    if u: nat :| next <= u <= k && Unclosed(s, next, u) {
      PlainBehind(s, i, idx, u);
      assert Unclosed(s, i, u);
    }
  }

  /** Behind a directive, the same is due. */
  lemma DueBehind(s: string, i: nat, spots: seq<Spot>, k: nat)
    requires i <= |s| && NextRound(s, i).Directive? && NextRound(s, i).next <= k
    ensures Due(s, i, spots, k) <==> Due(s, NextRound(s, i).next, spots, k)
  {
    KeywordMeaning(s, i);
    PlainBehind(s, i, Keyword(s, i), k);
    GivenUpBehind(s, i, k);
  }

  /** Up to a directive, nothing is due. */
  lemma NotDueBefore(s: string, i: nat, spots: seq<Spot>, k: nat)
    requires i <= k && i <= |s| && NextRound(s, i).Directive? && k < NextRound(s, i).next
    ensures !Due(s, i, spots, k)
  {
    var idx := Keyword(s, i);
    KeywordMeaning(s, i);
    if k < idx {
      NothingBefore(s, i, k);
    } else if idx < k {
      NoKeywordWithin(s, idx, k);
    }
  }

  lemma FoundRound(s: string, i: nat, k: nat, spot: Spot, rest: seq<Spot>)
    requires i <= k <= spot.close && i <= |s| && NextRound(s, i) == Found(spot)
    requires SoundSpots(s, spot.close + 1, rest)
    ensures FoundAt([spot] + rest, k) <==> Due(s, i, [spot] + rest, k)
  {
    KeywordMeaning(s, i);
    NotBefore(s, spot.close + 1, rest, k);
    FoundCons(spot, rest, k);
    if k < spot.idx {
      NothingBefore(s, i, k);
    } else if k == spot.idx {
      forall u: nat | i <= u <= k ensures !Unclosed(s, i, u) {
        assert Plain(s, i, u) ==> u == k;
      }
    }
  }

  /** No block is missed and none is made up: one is found at k exactly when k holds the keyword `server`,
      not within a block found before, not in a comment (as seen from the end of the last block found
      before), with a brace before any semicolon, and no block since then is left open. */
  lemma FoundExactly(s: string, i: nat, k: nat)
    requires i <= k && i <= |s|
    ensures FoundAt(Spots(s, i), k) <==> Due(s, ResumedAt(i, Spots(s, i), k), Spots(s, i), k)
  {
    FoundAmong(s, i, k, Spots(s, i));
  }

  lemma {:induction false} FoundAmong(s: string, i: nat, k: nat, spots: seq<Spot>)
    requires i <= k && i <= |s| && spots == Spots(s, i)
    ensures FoundAt(spots, k) <==> Due(s, ResumedAt(i, spots, k), spots, k)
    decreases |s| - i
  {
    var round := NextRound(s, i);
    if round.Done? {
      DoneExactly(s, i, k);
    } else if round.Directive? {
      NginxStructure.DirectiveNext(s, i, round.next);
      SpotsAreSound(s, round.next);
      if k >= round.next {
        FoundAmong(s, round.next, k, spots);
      }
      BehindDirective(s, i, round.next, spots, k);
    } else {
      var next := round.spot.close + 1;
      var rest := Spots(s, next);
      NginxStructure.FoundNext(s, i, round.spot, next);
      SpotsAreSound(s, next);
      if k >= next {
        FoundAmong(s, next, k, rest);
      }
      BehindFound(s, i, round.spot, rest, k);
    }
  }

  lemma BehindDirective(s: string, i: nat, next: nat, spots: seq<Spot>, k: nat)
    requires i <= k && i <= |s| && NextRound(s, i) == Directive(next) && SoundSpots(s, next, spots)
    requires k >= next ==> (FoundAt(spots, k) <==> Due(s, ResumedAt(next, spots, k), spots, k))
    ensures FoundAt(spots, k) <==> Due(s, ResumedAt(i, spots, k), spots, k)
  {
    if k < next {
      NotBefore(s, next, spots, k);
      NotDueBefore(s, i, spots, k);
    } else {
      DueBehind(s, i, spots, k);
    }
  }

  lemma BehindFound(s: string, i: nat, spot: Spot, rest: seq<Spot>, k: nat)
    requires i <= k && i <= |s| && NextRound(s, i) == Found(spot) && SoundSpots(s, spot.close + 1, rest)
    requires k > spot.close ==> (FoundAt(rest, k) <==> Due(s, ResumedAt(spot.close + 1, rest, k), rest, k))
    ensures FoundAt([spot] + rest, k) <==> Due(s, ResumedAt(i, [spot] + rest, k), [spot] + rest, k)
  {
    if k <= spot.close {
      FoundRound(s, i, k, spot, rest);
    } else {
      ResumedBehind(s, i, spot, rest, k);
    }
  }

  lemma ResumedBehind(s: string, i: nat, spot: Spot, rest: seq<Spot>, k: nat)
    requires spot.idx < spot.close < k
    ensures ResumedAt(i, [spot] + rest, k) == ResumedAt(spot.close + 1, rest, k)
    ensures FoundAt([spot] + rest, k) <==> FoundAt(rest, k)
    ensures Within([spot] + rest, k) <==> Within(rest, k)
  {
    FoundCons(spot, rest, k);
    assert ([spot] + rest)[1..] == rest;
  }

  /** The brace found first behind the keyword. */
  predicate OpensWith(s: string, b: Spot) {
    b.idx + 6 <= |s| && Brace(s, b.idx + 6) == b.open
  }

  /** Each found block opens with the first brace behind its keyword. */
  lemma {:induction false} FoundOpens(s: string, i: nat, spots: seq<Spot>, n: nat)
    requires i <= |s| && spots == Spots(s, i) && n < |spots|
    ensures OpensWith(s, spots[n])
    decreases |s| - i
  {
    match NextRound(s, i) {
      case Directive(next) =>
        NginxStructure.DirectiveNext(s, i, next);
        FoundOpens(s, next, spots, n);
      case Found(spot) =>
        NginxStructure.FoundNext(s, i, spot, spot.close + 1);
        if n > 0 {
          FoundOpens(s, spot.close + 1, spots[1..], n - 1);
        }
    }
  }
}
