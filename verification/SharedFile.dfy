/** Several targets editing one config file through header insertion: any run of installs and
    removals keeps the original lines and one intact block per installed key. */
module SharedFile {
  import opened Text
  import opened ManagedBlocks
  import opened FileItems

  // ---------- the operations ----------

  datatype Op =
    | Install(mk: Marks, payload: seq<string>, indent: string, selector: string, m: Matcher)
    | Uninstall(mk: Marks)

  ghost predicate OpOk(op: Op, mks: set<Marks>) {
    && op.mk in mks
    && (op.Install? ==>
      && PayloadOk(op.payload, op.indent, op.mk)
      && StartsWithSpace(op.indent)
      && TopLevelOnly(op.m)
      && forall i :: 0 <= i < |op.payload| ==> Unmarked(op.indent + op.payload[i], mks))
  }

  /** The edit on the file; an install without a matching header leaves it alone. */
  function Edit(conf: string, op: Op): (r: string) {
    match op
    case Uninstall(mk) => Strip(conf, mk)
    case Install(mk, payload, indent, selector, m) =>
      var placed := Place(Strip(conf, mk), Block(mk, payload, indent), selector, m);
      if placed.Ok? then placed.value else conf
  }

  /** Which block each installed key has, read off the operations alone. */
  function Installed(base: seq<string>, blocks: map<Marks, seq<string>>, op: Op): (r: map<Marks, seq<string>>) {
    match op
    case Uninstall(mk) => blocks - {mk}
    case Install(mk, payload, indent, _, m) =>
      if HasHeader(base, m) then blocks[mk := Block(mk, payload, indent)] else blocks
  }

  function EditItems(items: seq<Item>, op: Op): (r: seq<Item>) {
    match op
    case Uninstall(mk) => Drop(items, mk)
    case Install(mk, payload, indent, _, m) =>
      if HasHeader(BaseLines(items), m)
      then Below(Drop(items, mk), Owned(mk, Block(mk, payload, indent)), m)
      else items
  }

  /** The original lines in order, and the blocks, exactly one for each key. */
  predicate Made(base: seq<string>, items: seq<Item>, blocks: map<Marks, seq<string>>, mks: set<Marks>) {
    base != [] && BaseLines(items) == base && Sound(items, mks) && OwnedAre(items, blocks) && AllIndented(items)
  }

  // ---------- one edit ----------

  lemma UninstallMade(base: seq<string>, items: seq<Item>, blocks: map<Marks, seq<string>>, mks: set<Marks>, mk: Marks)
    requires Made(base, items, blocks, mks) && mk in mks
    ensures Made(base, Drop(items, mk), blocks - {mk}, mks)
    ensures Strip(Join(Render(items)), mk) == Join(Render(Drop(items, mk)))
  {
    StripText(items, mk, mks);
    DropOwned(items, mk, mks, blocks);
    DropIndented(items, mk);
  }

  lemma InstallEdit(items: seq<Item>, mks: set<Marks>, op: Op)
    requires Sound(Drop(items, op.mk), mks) && AllIndented(Drop(items, op.mk)) && op.Install? && TopLevelOnly(op.m)
    requires BaseLines(Drop(items, op.mk)) == BaseLines(items) != []
    requires Strip(Join(Render(items)), op.mk) == Join(Render(Drop(items, op.mk)))
    ensures Edit(Join(Render(items)), op) == Join(Render(EditItems(items, op)))
  {
    IndentedRecessed(Drop(items, op.mk), op.m);
    PlaceText(Drop(items, op.mk), mks, op.mk, Block(op.mk, op.payload, op.indent), op.selector, op.m);
  }

  lemma EditMade(base: seq<string>, items: seq<Item>, blocks: map<Marks, seq<string>>, mks: set<Marks>, op: Op)
    requires Made(base, items, blocks, mks) && Family(mks) && OpOk(op, mks)
    ensures Made(base, EditItems(items, op), Installed(base, blocks, op), mks)
    ensures Edit(Join(Render(items)), op) == Join(Render(EditItems(items, op)))
  {
    UninstallMade(base, items, blocks, mks, op.mk);
    if op.Install? {
      InstallEdit(items, mks, op);
      if HasHeader(base, op.m) {
        InstallAfterDrop(base, items, blocks, mks, op);
      }
    }
  }

  lemma InstallAfterDrop(base: seq<string>, items: seq<Item>, blocks: map<Marks, seq<string>>, mks: set<Marks>, op: Op)
    requires Made(base, Drop(items, op.mk), blocks - {op.mk}, mks) && Family(mks) && OpOk(op, mks)
    requires op.Install? && HasHeader(base, op.m)
    ensures var block := Block(op.mk, op.payload, op.indent);
            Made(base, Below(Drop(items, op.mk), Owned(op.mk, block), op.m), blocks[op.mk := block], mks)
  {
    var block := Block(op.mk, op.payload, op.indent);
    InstalledBlockOwn(op.mk, op.payload, op.indent, mks);
    assert (blocks - {op.mk})[op.mk := block] == blocks[op.mk := block];
    BelowAdds(Drop(items, op.mk), Owned(op.mk, block), op.m, mks, blocks - {op.mk});
    IndentedBlock(op.mk, op.payload, op.indent);
    BelowIndented(Drop(items, op.mk), Owned(op.mk, block), op.m);
  }

  // ---------- where the blocks stand ----------

  /** Below which header each installed key has its block. */
  type Homes = map<Marks, Matcher>

  /** The last of these lines is the first header among them. */
  predicate HeaderLast(before: seq<string>, m: Matcher) {
    before != [] && FirstHeader(before, m) == |before| - 1
  }

  /** Read from the top, with the original lines read so far: where a block comes, the last original line
      is its first header. */
  predicate Standing(items: seq<Item>, before: seq<string>, homes: Homes)
    decreases |items|
  {
    items == [] ||
    match items[0]
    case Base(l) => Standing(items[1..], before + [l], homes)
    case Owned(mk, _) => mk in homes && HeaderLast(before, homes[mk]) && Standing(items[1..], before, homes)
  }

  lemma {:induction false} BaseConcat(a: seq<Item>, b: seq<Item>)
    ensures BaseLines(a + b) == BaseLines(a) + BaseLines(b)
  {
    if a == [] {
      assert a + b == b;
    } else {
      assert (a + b)[1..] == a[1..] + b;
      BaseConcat(a[1..], b);
    }
  }

  /** The original lines above block k end with its header. */
  lemma {:induction false} HeaderAbove(items: seq<Item>, before: seq<string>, homes: Homes, k: nat)
    requires Standing(items, before, homes) && k < |items| && items[k].Owned?
    ensures items[k].mk in homes && HeaderLast(before + BaseLines(items[..k]), homes[items[k].mk])
    decreases |items|
  {
    if k == 0 {
      assert before + BaseLines(items[..0]) == before;
    } else {
      assert items[..k][1..] == items[1..][..k - 1];
      match items[0] {
        case Base(l) =>
          HeaderAbove(items[1..], before + [l], homes, k - 1);
          Assoc(before, [l], BaseLines(items[1..][..k - 1]));
        case Owned(_, _) =>
          HeaderAbove(items[1..], before, homes, k - 1);
          Units(BaseLines(items[1..][..k - 1]));
      }
    }
  }

  /** The item that the last of these original lines comes from. */
  lemma {:induction false} LastBase(items: seq<Item>, k: nat) returns (j: nat)
    requires k <= |items| && BaseLines(items[..k]) != []
    ensures j < k && items[j].Base? && BaseLines(items[..k]) == BaseLines(items[..j]) + [items[j].line]
    ensures forall i :: j < i < k ==> items[i].Owned?
  {
    assert items[..k] == items[..k - 1] + [items[k - 1]];
    BaseConcat(items[..k - 1], [items[k - 1]]);
    if items[k - 1].Base? {
      j := k - 1;
    } else {
      j := LastBase(items, k - 1);
    }
  }

  /** So each block lies below the first original line that is its header, with only blocks in between. */
  lemma StandingMeaning(items: seq<Item>, homes: Homes, k: nat) returns (j: nat)
    requires Standing(items, [], homes) && k < |items| && items[k].Owned?
    ensures j < k && items[j].Base? && forall i :: j < i < k ==> items[i].Owned?
    ensures items[k].mk in homes && |BaseLines(items[..j])| == FirstHeader(BaseLines(items), homes[items[k].mk])
    ensures homes[items[k].mk](items[j].line)
  {
    HeaderAbove(items, [], homes, k);
    var m := homes[items[k].mk];
    var above := BaseLines(items[..k]);
    assert [] + above == above && items == items[..k] + items[k..];
    BaseConcat(items[..k], items[k..]);
    HeaderConcat(above, BaseLines(items[k..]), m);
    FirstHeaderMeaning(above, m);
    j := LastBase(items, k);
  }

  lemma {:induction false} DropStanding(items: seq<Item>, before: seq<string>, homes: Homes, mk: Marks)
    requires Standing(items, before, homes)
    ensures Standing(Drop(items, mk), before, homes - {mk})
    decreases |items|
  {
    if items != [] {
      var rest := Drop(items[1..], mk);
      assert ([items[0]] + rest)[1..] == rest;
      match items[0] {
        case Base(l) => DropStanding(items[1..], before + [l], homes, mk);
        case Owned(k, _) => DropStanding(items[1..], before, homes, mk);
      }
    }
  }

  /** One more home changes nothing for the blocks of other keys. */
  lemma {:induction false} MoreHomes(items: seq<Item>, before: seq<string>, homes: Homes, mk: Marks, m: Matcher)
    requires Standing(items, before, homes) && mk !in homes
    ensures Standing(items, before, homes[mk := m])
    decreases |items|
  {
    if items != [] {
      match items[0] {
        case Base(l) => MoreHomes(items[1..], before + [l], homes, mk, m);
        case Owned(_, _) => MoreHomes(items[1..], before, homes, mk, m);
      }
    }
  }

  lemma HeaderSoFar(before: seq<string>, l: string, m: Matcher)
    requires FirstHeader(before, m) == |before|
    ensures if m(l) then HeaderLast(before + [l], m) else FirstHeader(before + [l], m) == |before + [l]|
  {
    HeaderConcat(before, [l], m);
  }

  lemma {:induction false} BelowStanding(items: seq<Item>, before: seq<string>, homes: Homes, it: Item, m: Matcher)
    requires Standing(items, before, homes) && it.Owned? && it.mk !in homes && FirstHeader(before, m) == |before|
    ensures Standing(Below(items, it, m), before, homes[it.mk := m])
    decreases |items|
  {
    if items != [] {
      match items[0] {
        case Base(l) =>
          HeaderSoFar(before, l, m);
          if m(l) {
            MoreHomes(items[1..], before + [l], homes, it.mk, m);
            StandsHere(items[0], items[1..], before, homes[it.mk := m], it);
          } else {
            BelowStanding(items[1..], before + [l], homes, it, m);
            assert Below(items, it, m)[1..] == Below(items[1..], it, m);
          }
        case Owned(_, _) =>
          BelowStanding(items[1..], before, homes, it, m);
          assert Below(items, it, m)[1..] == Below(items[1..], it, m);
      }
    }
  }

  lemma StandsHere(header: Item, rest: seq<Item>, before: seq<string>, homes: Homes, it: Item)
    requires header.Base? && it.Owned? && it.mk in homes && HeaderLast(before + [header.line], homes[it.mk])
    requires Standing(rest, before + [header.line], homes)
    ensures Standing([header, it] + rest, before, homes)
  {
    assert ([header, it] + rest)[1..] == [it] + rest && ([it] + rest)[1..] == rest;
  }

  function HomesWith(base: seq<string>, homes: Homes, op: Op): (r: Homes) {
    match op
    case Uninstall(mk) => homes - {mk}
    case Install(mk, _, _, _, m) => if HasHeader(base, m) then homes[mk := m] else homes
  }

  lemma EditStanding(items: seq<Item>, homes: Homes, op: Op)
    requires Standing(items, [], homes)
    ensures Standing(EditItems(items, op), [], HomesWith(BaseLines(items), homes, op))
  {
    DropStanding(items, [], homes, op.mk);
    if op.Install? && HasHeader(BaseLines(items), op.m) {
      BelowStanding(Drop(items, op.mk), [], homes - {op.mk}, Owned(op.mk, Block(op.mk, op.payload, op.indent)), op.m);
      assert (homes - {op.mk})[op.mk := op.m] == homes[op.mk := op.m];
    }
  }

  lemma {:induction false} StartStanding(ls: seq<string>, before: seq<string>)
    ensures Standing(AsItems(ls), before, map[])
  {
    if ls != [] {
      StartStanding(ls[1..], before + [ls[0]]);
      assert AsItems(ls)[1..] == AsItems(ls[1..]);
    }
  }

  // ---------- whole runs ----------

  function Run(conf: string, ops: seq<Op>): (r: string)
    decreases |ops|
  {
    if ops == [] then conf else Run(Edit(conf, ops[0]), ops[1..])
  }

  function RunItems(items: seq<Item>, ops: seq<Op>): (r: seq<Item>)
    decreases |ops|
  {
    if ops == [] then items else RunItems(EditItems(items, ops[0]), ops[1..])
  }

  function InstalledAfter(base: seq<string>, blocks: map<Marks, seq<string>>, ops: seq<Op>)
    : (r: map<Marks, seq<string>>)
    decreases |ops|
  {
    if ops == [] then blocks else InstalledAfter(base, Installed(base, blocks, ops[0]), ops[1..])
  }

  function HomesAfter(base: seq<string>, homes: Homes, ops: seq<Op>): (r: Homes)
    decreases |ops|
  {
    if ops == [] then homes else HomesAfter(base, HomesWith(base, homes, ops[0]), ops[1..])
  }

  ghost predicate OpsOk(ops: seq<Op>, mks: set<Marks>) {
    forall op :: op in ops ==> OpOk(op, mks)
  }

  lemma {:induction false} RunMade(base: seq<string>, items: seq<Item>, blocks: map<Marks, seq<string>>,
                                   mks: set<Marks>, ops: seq<Op>)
    requires Made(base, items, blocks, mks) && Family(mks) && OpsOk(ops, mks)
    ensures Made(base, RunItems(items, ops), InstalledAfter(base, blocks, ops), mks)
    ensures Run(Join(Render(items)), ops) == Join(Render(RunItems(items, ops)))
    decreases |ops|
  {
    if ops != [] {
      assert ops[0] in ops;
      EditMade(base, items, blocks, mks, ops[0]);
      assert OpsOk(ops[1..], mks) by {
        forall op | op in ops[1..] ensures op in ops {}
      }
      RunMade(base, EditItems(items, ops[0]), Installed(base, blocks, ops[0]), mks, ops[1..]);
    }
  }

  lemma {:induction false} RunStanding(base: seq<string>, items: seq<Item>, blocks: map<Marks, seq<string>>,
                                       homes: Homes, mks: set<Marks>, ops: seq<Op>)
    requires Made(base, items, blocks, mks) && Family(mks) && OpsOk(ops, mks) && Standing(items, [], homes)
    ensures Standing(RunItems(items, ops), [], HomesAfter(base, homes, ops))
    decreases |ops|
  {
    if ops != [] {
      assert ops[0] in ops;
      EditMade(base, items, blocks, mks, ops[0]);
      EditStanding(items, homes, ops[0]);
      assert OpsOk(ops[1..], mks) by {
        forall op | op in ops[1..] ensures op in ops {}
      }
      RunStanding(base, EditItems(items, ops[0]), Installed(base, blocks, ops[0]), HomesWith(base, homes, ops[0]), mks,
                  ops[1..]);
    }
  }

  lemma StartMade(file: string, mks: set<Marks>)
    requires MarkFree(file, mks)
    ensures Made(Split(file), AsItems(Split(file)), map[], mks)
    ensures Join(Render(AsItems(Split(file)))) == file
  {
    JoinSplit(file);
    StartSound(Split(file), mks);
    AsItemsIndented(Split(file));
  }

  /** From a file without marks, any run of installs and removals leaves the original lines in order plus
      exactly one intact block for each installed key, none inside another, each below the first original
      line that its latest install takes for the header, with only blocks in between. */
  lemma SharedFileTheorem(file: string, ops: seq<Op>, mks: set<Marks>)
    requires Family(mks) && MarkFree(file, mks) && OpsOk(ops, mks)
    ensures exists items ::
      && Run(file, ops) == Join(Render(items))
      && Made(Split(file), items, InstalledAfter(Split(file), map[], ops), mks)
      && Standing(items, [], HomesAfter(Split(file), map[], ops))
  {
    var base := Split(file);
    StartMade(file, mks);
    RunMade(base, AsItems(base), map[], mks, ops);
    StartStanding(base, []);
    RunStanding(base, AsItems(base), map[], map[], mks, ops);
  }

  function StripAll(conf: string, order: seq<Marks>): (r: string)
    decreases |order|
  {
    if order == [] then conf else StripAll(Strip(conf, order[0]), order[1..])
  }

  lemma {:induction false} StripAllMade(base: seq<string>, items: seq<Item>, blocks: map<Marks, seq<string>>,
                                        mks: set<Marks>, order: seq<Marks>)
    requires Made(base, items, blocks, mks)
    requires forall k :: k in order ==> k in mks
    requires forall k :: k in blocks ==> k in order
    ensures StripAll(Join(Render(items)), order) == Join(base)
    decreases |order|
  {
    if order == [] {
      AllBase(items);
    } else {
      UninstallMade(base, items, blocks, mks, order[0]);
      assert forall k :: k in order <==> k == order[0] || k in order[1..];
      StripAllMade(base, Drop(items, order[0]), blocks - {order[0]}, mks, order[1..]);
    }
  }

  /** After any run, stripping the installed keys in any order gives the original file byte for byte. */
  lemma StripInstalledRestores(file: string, ops: seq<Op>, mks: set<Marks>, order: seq<Marks>)
    requires Family(mks) && MarkFree(file, mks) && OpsOk(ops, mks)
    requires forall k :: k in order ==> k in mks
    requires forall k :: k in InstalledAfter(Split(file), map[], ops) ==> k in order
    ensures StripAll(Run(file, ops), order) == file
  {
    StartMade(file, mks);
    RunMade(Split(file), AsItems(Split(file)), map[], mks, ops);
    StripAllMade(Split(file), RunItems(AsItems(Split(file)), ops), InstalledAfter(Split(file), map[], ops), mks, order);
    JoinSplit(file);
  }

  /** The marks of any set of target keys form a family. */
  lemma KeysMakeFamily(keys: set<string>)
    ensures Family(set k | k in keys :: MarksOf(k))
  {
    forall a, b | a in keys && b in keys && MarksOf(a) != MarksOf(b) ensures Apart(MarksOf(a), MarksOf(b)) {
      MarksDiffer(a, b);
    }
  }
}
