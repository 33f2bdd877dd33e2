/** A config file as original lines with owned blocks among them, and what strip and place do to it. */
module FileItems {
  import opened Text
  import opened ManagedBlocks

  /** The first test of both header matchers. */
  predicate StartsWithSpace(s: string) {
    s != "" && (s[0] == ' ' || s[0] == '\t')
  }

  /** A matcher for which an indented line is never a header. */
  ghost predicate TopLevelOnly(m: Matcher) {
    forall line :: StartsWithSpace(line) ==> !m(line)
  }

  /** A line that is no mark of the family. */
  predicate Unmarked(line: string, mks: set<Marks>) {
    forall k :: k in mks ==> !IsBegin(line, k) && !IsEnd(line, k)
  }

  predicate Family(mks: set<Marks>) {
    forall a, b :: a in mks && b in mks && a != b ==> Apart(a, b)
  }

  // ---------- what the file is made of ----------

  datatype Item = Base(line: string) | Owned(mk: Marks, block: seq<string>)

  function Lines(it: Item): (r: seq<string>) {
    match it
    case Base(l) => [l]
    case Owned(_, b) => b
  }

  function Render(items: seq<Item>): (r: seq<string>) {
    if items == [] then [] else Lines(items[0]) + Render(items[1..])
  }

  function BaseLines(items: seq<Item>): (r: seq<string>) {
    if items == [] then []
    else (if items[0].Base? then [items[0].line] else []) + BaseLines(items[1..])
  }

  function Drop(items: seq<Item>, mk: Marks): (r: seq<Item>) {
    if items == [] then []
    else if items[0].Owned? && items[0].mk == mk then Drop(items[1..], mk)
    else [items[0]] + Drop(items[1..], mk)
  }

  /** The owned items are exactly these blocks, one for each key. */
  predicate OwnedAre(items: seq<Item>, blocks: map<Marks, seq<string>>) {
    if items == [] then blocks == map[]
    else
      match items[0]
      case Base(_) => OwnedAre(items[1..], blocks)
      case Owned(k, b) => k in blocks && blocks[k] == b && OwnedAre(items[1..], blocks - {k})
  }

  /** A block whose lines carry no marks but its own. */
  predicate OwnBlock(mk: Marks, block: seq<string>, mks: set<Marks>) {
    && Wrapped(block, mk)
    && forall i :: 0 <= i < |block| ==> Unmarked(block[i], mks - {mk})
  }

  predicate SoundItem(it: Item, mks: set<Marks>) {
    match it
    case Base(l) => OneLine(l) && Unmarked(l, mks)
    case Owned(k, b) => OwnBlock(k, b, mks)
  }

  predicate Sound(items: seq<Item>, mks: set<Marks>) {
    items == [] || (SoundItem(items[0], mks) && Sound(items[1..], mks))
  }

  /** Every line of every owned block is indented. */
  predicate AllIndented(items: seq<Item>) {
    items == [] || ((items[0].Owned? ==> IndentedLines(items[0].block)) && AllIndented(items[1..]))
  }

  predicate IndentedLines(block: seq<string>) {
    forall i :: 0 <= i < |block| ==> StartsWithSpace(block[i])
  }

  predicate HasHeader(base: seq<string>, m: Matcher) {
    FirstHeader(base, m) < |base|
  }

  /** Insert an item below the first original line that is a header. */
  function Below(items: seq<Item>, it: Item, m: Matcher): (r: seq<Item>) {
    if items == [] then []
    else if items[0].Base? && m(items[0].line) then [items[0], it] + items[1..]
    else [items[0]] + Below(items[1..], it, m)
  }

  function AsItems(ls: seq<string>): (r: seq<Item>)
    ensures Render(r) == ls && BaseLines(r) == ls && OwnedAre(r, map[])
    ensures |r| == |ls| && forall i :: 0 <= i < |r| ==> r[i] == Base(ls[i])
  {
    if ls == [] then [] else [Base(ls[0])] + AsItems(ls[1..])
  }

  lemma {:induction false} AsItemsIndented(ls: seq<string>)
    ensures AllIndented(AsItems(ls))
  {
    if ls != [] {
      AsItemsIndented(ls[1..]);
    }
  }

  /** No line of the file is a mark of the family. */
  predicate MarkFree(file: string, mks: set<Marks>) {
    forall k :: k in mks ==> NoMarks(Split(file), k)
  }

  lemma StartSound(ls: seq<string>, mks: set<Marks>)
    requires AllOneLine(ls) && forall k :: k in mks ==> NoMarks(ls, k)
    ensures Sound(AsItems(ls), mks)
  {
  }

  // ---------- proofs about items ----------

  lemma {:induction false} SoundRender(items: seq<Item>, mks: set<Marks>)
    requires Sound(items, mks)
    ensures AllOneLine(Render(items))
    ensures BaseLines(items) != [] ==> Render(items) != []
  {
    if items != [] {
      SoundRender(items[1..], mks);
    }
  }

  lemma StripItem(it: Item, mk: Marks, mks: set<Marks>)
    requires SoundItem(it, mks) && mk in mks
    ensures StripLines(Lines(it), mk, false) == if it.Owned? && it.mk == mk then [] else Lines(it)
    ensures !SkipAfter(Lines(it), mk, false)
  {
    if it.Owned? && it.mk == mk {
      StripWrapped(it.block, mk);
    } else {
      StripNoMarks(Lines(it), mk);
    }
  }

  /** Stripping a key from the file is dropping its items. */
  lemma {:induction false} StripDrops(items: seq<Item>, mk: Marks, mks: set<Marks>)
    requires Sound(items, mks) && mk in mks
    ensures StripLines(Render(items), mk, false) == Render(Drop(items, mk))
    ensures !SkipAfter(Render(items), mk, false)
    ensures BaseLines(Drop(items, mk)) == BaseLines(items)
  {
    if items != [] {
      StripDrops(items[1..], mk, mks);
      StripItem(items[0], mk, mks);
      StripConcat(Lines(items[0]), Render(items[1..]), mk, false);
      var rest := Drop(items[1..], mk);
      if !(items[0].Owned? && items[0].mk == mk) {
        assert ([items[0]] + rest)[1..] == rest;
      }
    }
  }

  lemma {:induction false} DropOwned(items: seq<Item>, mk: Marks, mks: set<Marks>, blocks: map<Marks, seq<string>>)
    requires Sound(items, mks) && OwnedAre(items, blocks)
    ensures Sound(Drop(items, mk), mks) && OwnedAre(Drop(items, mk), blocks - {mk})
  {
    if items != [] {
      var it, rest := items[0], items[1..];
      if it.Base? {
        DropOwned(rest, mk, mks, blocks);
        assert ([it] + Drop(rest, mk))[1..] == Drop(rest, mk);
      } else {
        DropOwned(rest, mk, mks, blocks - {it.mk});
        if it.mk == mk {
          assert blocks - {mk} - {mk} == blocks - {mk};
        } else {
          assert ([it] + Drop(rest, mk))[1..] == Drop(rest, mk);
          assert blocks - {it.mk} - {mk} == blocks - {mk} - {it.mk};
        }
      }
    }
  }

  lemma {:induction false} NoHeader(ls: seq<string>, m: Matcher)
    requires forall i :: 0 <= i < |ls| ==> !m(ls[i])
    ensures FirstHeader(ls, m) == |ls|
  {
    if ls != [] {
      NoHeader(ls[1..], m);
    }
  }

  lemma {:induction false} HeaderConcat(a: seq<string>, b: seq<string>, m: Matcher)
    ensures FirstHeader(a + b, m) == if FirstHeader(a, m) < |a| then FirstHeader(a, m) else |a| + FirstHeader(b, m)
  {
    if a == [] {
      assert a + b == b;
    } else {
      assert (a + b)[1..] == a[1..] + b;
      HeaderConcat(a[1..], b, m);
    }
  }

  /** No owned block contains a header line. */
  predicate Recessed(items: seq<Item>, m: Matcher) {
    items == [] || ((items[0].Owned? ==> FirstHeader(items[0].block, m) == |items[0].block|) && Recessed(items[1..], m))
  }

  lemma {:induction false} IndentedRecessed(items: seq<Item>, m: Matcher)
    requires AllIndented(items) && TopLevelOnly(m)
    ensures Recessed(items, m)
  {
    if items != [] {
      IndentedRecessed(items[1..], m);
      if items[0].Owned? {
        NoHeader(items[0].block, m);
      }
    }
  }

  lemma {:induction false} DropIndented(items: seq<Item>, mk: Marks)
    requires AllIndented(items)
    ensures AllIndented(Drop(items, mk))
  {
    if items != [] {
      DropIndented(items[1..], mk);
      assert ([items[0]] + Drop(items[1..], mk))[1..] == Drop(items[1..], mk);
    }
  }

  lemma {:induction false} DropRecessed(items: seq<Item>, mk: Marks, m: Matcher)
    requires Recessed(items, m)
    ensures Recessed(Drop(items, mk), m)
  {
    if items != [] {
      DropRecessed(items[1..], mk, m);
      assert ([items[0]] + Drop(items[1..], mk))[1..] == Drop(items[1..], mk);
    }
  }

  lemma {:induction false} BelowRecessed(items: seq<Item>, it: Item, m: Matcher, m': Matcher)
    requires Recessed(items, m') && it.Owned? && FirstHeader(it.block, m') == |it.block|
    ensures Recessed(Below(items, it, m), m')
  {
    if items != [] {
      var x, rest := items[0], items[1..];
      if x.Base? && m(x.line) {
        assert Below(items, it, m)[1..] == [it] + rest && ([it] + rest)[1..] == rest;
      } else {
        BelowRecessed(rest, it, m, m');
        assert Below(items, it, m)[1..] == Below(rest, it, m);
      }
    }
  }

  lemma {:induction false} BelowSound(items: seq<Item>, it: Item, m: Matcher, mks: set<Marks>)
    requires Sound(items, mks) && SoundItem(it, mks)
    ensures Sound(Below(items, it, m), mks)
  {
    if items != [] {
      var x, rest := items[0], items[1..];
      if x.Base? && m(x.line) {
        assert Below(items, it, m)[1..] == [it] + rest && ([it] + rest)[1..] == rest;
      } else {
        BelowSound(rest, it, m, mks);
        assert Below(items, it, m)[1..] == Below(rest, it, m);
      }
    }
  }

  /** Dropping a key after inserting an item: the item goes if it has the key, and stays in place if not. */
  lemma {:induction false} DropBelow(items: seq<Item>, it: Item, m: Matcher, mk: Marks)
    requires it.Owned?
    ensures Drop(Below(items, it, m), mk) == if it.mk == mk then Drop(items, mk) else Below(Drop(items, mk), it, m)
  {
    if items != [] {
      var x, rest := items[0], items[1..];
      var d := Drop(rest, mk);
      if x.Base? && m(x.line) {
        assert Below(items, it, m)[1..] == [it] + rest && ([it] + rest)[1..] == rest;
        assert ([x] + d)[1..] == d;
        assert [x] + ([it] + d) == [x, it] + d;
      } else {
        DropBelow(rest, it, m, mk);
        assert Below(items, it, m)[1..] == Below(rest, it, m);
        assert ([x] + d)[1..] == d;
      }
    }
  }

  lemma {:induction false} DropSound(items: seq<Item>, mk: Marks, mks: set<Marks>)
    requires Sound(items, mks)
    ensures Sound(Drop(items, mk), mks)
  {
    if items != [] {
      DropSound(items[1..], mk, mks);
      assert ([items[0]] + Drop(items[1..], mk))[1..] == Drop(items[1..], mk);
    }
  }

  lemma {:induction false} DropNothing(ls: seq<string>, mk: Marks)
    ensures Drop(AsItems(ls), mk) == AsItems(ls)
  {
    if ls != [] {
      DropNothing(ls[1..], mk);
      assert AsItems(ls)[1..] == AsItems(ls[1..]);
    }
  }

  lemma {:induction false} AsItemsRecessed(ls: seq<string>, m: Matcher)
    ensures Recessed(AsItems(ls), m)
  {
    if ls != [] {
      AsItemsRecessed(ls[1..], m);
    }
  }

  lemma {:induction false} BelowIndented(items: seq<Item>, it: Item, m: Matcher)
    requires AllIndented(items) && it.Owned? && IndentedLines(it.block)
    ensures AllIndented(Below(items, it, m))
  {
    if items != [] {
      var x, rest := items[0], items[1..];
      if x.Base? && m(x.line) {
        assert Below(items, it, m)[1..] == [it] + rest && ([it] + rest)[1..] == rest;
      } else {
        BelowIndented(rest, it, m);
        assert Below(items, it, m)[1..] == Below(rest, it, m);
      }
    }
  }

  lemma InsertLater(head: seq<string>, rest: seq<string>, at: nat, block: seq<string>)
    requires at <= |rest|
    ensures InsertLines(head + rest, |head| + at, block) == head + InsertLines(rest, at, block)
  {
    assert (head + rest)[..|head| + at] == head + rest[..at];
    assert (head + rest)[|head| + at..] == rest[at..];
  }

  lemma RenderCons(x: Item, rest: seq<Item>)
    ensures Render([x] + rest) == Lines(x) + Render(rest)
  {
    assert ([x] + rest)[1..] == rest;
  }

  /** The insertion in the file: below its first header line, if there is one. */
  predicate Placed(items: seq<Item>, it: Item, m: Matcher) {
    PlacedIn(Render(items), FirstHeader(Render(items), m), HasHeader(BaseLines(items), m),
             Render(Below(items, it, m)), Lines(it))
  }

  /** The same on lines: of the file, with its header at n if it has one, and of the file after the insertion. */
  predicate PlacedIn(ls: seq<string>, n: nat, has: bool, below: seq<string>, block: seq<string>) {
    (n < |ls| <==> has) && (n < |ls| ==> below == InsertLines(ls, n + 1, block))
  }

  /** Inserting below the first header line of the file is inserting below the first header item. */
  lemma {:induction false} PlaceIsBelow(items: seq<Item>, it: Item, m: Matcher)
    requires Recessed(items, m)
    ensures Placed(items, it, m)
  {
    if items != [] {
      var x, rest := items[0], items[1..];
      assert items == [x] + rest;
      if x.Base? && m(x.line) {
        PlaceHere(x, rest, it, m);
      } else {
        PlaceIsBelow(rest, it, m);
        PlaceLater(x, rest, it, m);
      }
    }
  }

  lemma PlaceLater(x: Item, rest: seq<Item>, it: Item, m: Matcher)
    requires !(x.Base? && m(x.line)) && FirstHeader(Lines(x), m) == |Lines(x)| && Placed(rest, it, m)
    ensures Placed([x] + rest, it, m)
  {
    var below := Below(rest, it, m);
    BelowLater(x, rest, it, m);
    RenderCons(x, rest);
    RenderCons(x, below);
    HeaderSame(x, BaseLines(rest), m);
    HeaderConcat(Lines(x), Render(rest), m);
    PlacedBehind(Lines(x), Render(rest), FirstHeader(Render(rest), m), HasHeader(BaseLines(rest), m), Render(below),
                 Lines(it));
  }

  lemma PlacedBehind(head: seq<string>, ls: seq<string>, n: nat, has: bool, below: seq<string>, block: seq<string>)
    requires PlacedIn(ls, n, has, below, block)
    ensures PlacedIn(head + ls, |head| + n, has, head + below, block)
  {
    if n < |ls| {
      InsertBehind(head, ls, below, n + 1, block);
    }
  }

  lemma BelowLater(x: Item, rest: seq<Item>, it: Item, m: Matcher)
    requires !(x.Base? && m(x.line))
    ensures Below([x] + rest, it, m) == [x] + Below(rest, it, m)
    ensures BaseLines([x] + rest) == (if x.Base? then [x.line] else []) + BaseLines(rest)
  {
    assert ([x] + rest)[1..] == rest;
  }

  lemma InsertBehind(head: seq<string>, rest: seq<string>, after: seq<string>, at: nat, block: seq<string>)
    requires at <= |rest| && after == InsertLines(rest, at, block)
    ensures head + after == InsertLines(head + rest, |head| + at, block)
  {
    InsertLater(head, rest, at, block);
  }

  lemma PlaceHere(x: Item, rest: seq<Item>, it: Item, m: Matcher)
    requires x.Base? && m(x.line)
    ensures Placed([x] + rest, it, m)
  {
    var items := [x] + rest;
    assert items[1..] == rest;
    RenderCons(x, rest);
    RenderCons(x, [it] + rest);
    RenderCons(it, rest);
    assert [x, it] + rest == [x] + ([it] + rest);
    assert Below(items, it, m) == [x, it] + rest;
    var ls := [x.line] + Render(rest);
    assert ls[..1] == [x.line] && ls[1..] == Render(rest);
    Assoc([x.line], Lines(it), Render(rest));
    assert BaseLines(items) == [x.line] + BaseLines(rest);
  }

  lemma HeaderSame(x: Item, rest: seq<string>, m: Matcher)
    requires !(x.Base? && m(x.line))
    ensures HasHeader((if x.Base? then [x.line] else []) + rest, m) == HasHeader(rest, m)
  {
    if x.Base? {
      assert ([x.line] + rest)[1..] == rest;
    } else {
      assert [] + rest == rest;
    }
  }

  lemma {:induction false} BelowBase(items: seq<Item>, it: Item, m: Matcher)
    requires it.Owned?
    ensures BaseLines(Below(items, it, m)) == BaseLines(items)
  {
    if items != [] {
      var x, rest := items[0], items[1..];
      if x.Base? && m(x.line) {
        assert Below(items, it, m)[1..] == [it] + rest && ([it] + rest)[1..] == rest;
      } else {
        BelowBase(rest, it, m);
        assert Below(items, it, m)[1..] == Below(rest, it, m);
      }
    }
  }

  lemma {:induction false} BelowOwned(items: seq<Item>, it: Item, m: Matcher, blocks: map<Marks, seq<string>>)
    requires it.Owned? && it.mk !in blocks
    requires OwnedAre(items, blocks) && HasHeader(BaseLines(items), m)
    ensures OwnedAre(Below(items, it, m), blocks[it.mk := it.block])
  {
    if items != [] {
      var x, rest := items[0], items[1..];
      var after := blocks[it.mk := it.block];
      if x.Base? && m(x.line) {
        assert Below(items, it, m)[1..] == [it] + rest && ([it] + rest)[1..] == rest;
        assert after - {it.mk} == blocks;
      } else {
        HeaderSame(x, BaseLines(rest), m);
        assert Below(items, it, m)[1..] == Below(rest, it, m);
        if x.Base? {
          BelowOwned(rest, it, m, blocks);
        } else {
          BelowOwned(rest, it, m, blocks - {x.mk});
          assert (blocks - {x.mk})[it.mk := it.block] == after - {x.mk};
        }
      }
    }
  }

  lemma BelowAdds(items: seq<Item>, it: Item, m: Matcher, mks: set<Marks>, blocks: map<Marks, seq<string>>)
    requires it.Owned? && SoundItem(it, mks) && it.mk !in blocks
    requires Sound(items, mks) && OwnedAre(items, blocks) && HasHeader(BaseLines(items), m)
    ensures BaseLines(Below(items, it, m)) == BaseLines(items)
    ensures Sound(Below(items, it, m), mks)
    ensures OwnedAre(Below(items, it, m), blocks[it.mk := it.block])
  {
    BelowBase(items, it, m);
    BelowSound(items, it, m, mks);
    BelowOwned(items, it, m, blocks);
  }

  lemma {:induction false} AllBase(items: seq<Item>)
    requires OwnedAre(items, map[])
    ensures Render(items) == BaseLines(items)
  {
    if items != [] {
      AllBase(items[1..]);
    }
  }

  lemma MarkLineUnmarked(indent: string, mk: Marks, mks: set<Marks>)
    requires AllSpace(indent) && Family(mks) && mk in mks
    ensures Unmarked(indent + mk.begin, mks - {mk}) && Unmarked(indent + mk.end, mks - {mk})
  {
    TrimPadded(indent, mk.begin);
    TrimPadded(indent, mk.end);
    forall k | k in mks - {mk} ensures Apart(k, mk) {}
  }

  lemma InstalledBlockOwn(mk: Marks, payload: seq<string>, indent: string, mks: set<Marks>)
    requires PayloadOk(payload, indent, mk) && Family(mks) && mk in mks
    requires forall i :: 0 <= i < |payload| ==> Unmarked(indent + payload[i], mks)
    ensures OwnBlock(mk, Block(mk, payload, indent), mks)
  {
    BlockWrapped(mk, payload, indent);
    MarkLineUnmarked(indent, mk, mks);
    var block := Block(mk, payload, indent);
    forall i | 0 <= i < |block| ensures Unmarked(block[i], mks - {mk}) {
      if 0 < i < |block| - 1 {
        assert block[i] == indent + payload[i - 1];
      }
    }
  }

  lemma IndentedBlock(mk: Marks, payload: seq<string>, indent: string)
    requires StartsWithSpace(indent)
    ensures IndentedLines(Block(mk, payload, indent))
  {
    var block := Block(mk, payload, indent);
    forall i | 0 <= i < |block| ensures StartsWithSpace(block[i]) {
      if 0 < i < |block| - 1 {
        assert block[i] == indent + payload[i - 1];
      }
    }
  }

  // ---------- strip and place, on the text and on the items ----------

  lemma StripText(items: seq<Item>, mk: Marks, mks: set<Marks>)
    requires Sound(items, mks) && mk in mks && BaseLines(items) != []
    ensures Strip(Join(Render(items)), mk) == Join(Render(Drop(items, mk)))
    ensures BaseLines(Drop(items, mk)) == BaseLines(items)
  {
    SoundRender(items, mks);
    SplitJoin(Render(items));
    StripDrops(items, mk, mks);
  }

  lemma PlaceText(items: seq<Item>, mks: set<Marks>, mk: Marks, block: seq<string>, selector: string, m: Matcher)
    requires Sound(items, mks) && Recessed(items, m) && BaseLines(items) != []
    ensures Place(Join(Render(items)), block, selector, m) ==
      if HasHeader(BaseLines(items), m) then Ok(Join(Render(Below(items, Owned(mk, block), m))))
          else Err(NoBlock(selector))
  {
    SoundRender(items, mks);
    PlaceIsBelow(items, Owned(mk, block), m);
    PlaceLines(Render(items), block, selector, m);
  }

  lemma PlaceLines(ls: seq<string>, block: seq<string>, selector: string, m: Matcher)
    requires ls != [] && AllOneLine(ls)
    ensures Place(Join(ls), block, selector, m) ==
            var n := FirstHeader(ls, m); if n < |ls| then Ok(Join(InsertLines(ls, n + 1, block)))
                else Err(NoBlock(selector))
  {
    SplitJoin(ls);
  }
}
