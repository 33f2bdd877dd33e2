/** What an iptables script that is cut anywhere drops, and when every cut keeps the old or the new verdict. */
module IptablesCuts {
  import opened Text
  import opened Policy
  import opened Fetcher
  import opened Targets
  import opened Iptables
  import opened IptablesHalf
  import opened IptablesRuns
  import opened IptablesHistory

  /** How far one family has got: nothing in force has changed; the new set is in place under the old rules;
      the chain is empty; it has its new rule; it is jumped to as well. */
  datatype Stage = Untouched | NewSet | Emptied | Ruled | Installed

  /** The stage after the first i commands that install a rule. */
  function InstallStage(i: nat): (r: Stage) {
    if i <= 1 then Untouched else if i == 2 then Emptied else if i == 3 then Ruled else Installed
  }

  /** The stage of a family after the first m commands of its script. */
  function StageAt(allow: bool, cidrs: seq<string>, m: nat): (r: Stage) {
    if cidrs == [] then (if allow then InstallStage(m) else Untouched)
    else if m <= |cidrs| + 3 then Untouched
    else if m <= |cidrs| + 6 then NewSet
    else InstallStage(m - |cidrs| - 5)
  }

  /** The verdict of the family's half with other contents of the set. */
  predicate Mixed(h: Half, n: Names, nets: set<Cidr>, p: Packet) {
    HDrops(h.(base := Some(nets)), n, p)
  }

  /** The verdict in a stage: the old one; the old rules over the new contents; none; the new one as soon as
      the chain is jumped to; the new one. */
  predicate StageDrops(stage: Stage, h: Half, n: Names, nets: set<Cidr>, new_: bool, p: Packet) {
    match stage
    case Untouched => HDrops(h, n, p)
    case NewSet => Mixed(h, n, nets, p)
    case Emptied => false
    case Ruled => JumpTo(n.chain) in h.input && new_
    case Installed => new_
  }

  // ---------- one family ----------

  /** The half after the first i commands that install a rule. */
  function InstallAt(h: Half, n: Names, rule: Rule, i: nat): (r: Half) {
    if i == 0 then h
    else if i == 1 then h.(chain := Some(if h.chain.Some? then h.chain.value else []))
    else if i == 2 then h.(chain := Some([]))
    else if i == 3 then h.(chain := Some([rule]))
    else h.(chain := Some([rule]), input := Jumped(h.input, n.chain))
  }

  lemma One(h: Half, n: Names, parse: Parser, cmd: Cmd, rest: seq<Cmd>)
    ensures HExec(h, n, parse, [cmd] + rest, cmd.f) ==
            var next := HStep(h, n, parse, cmd); if next.None? then None else HExec(next.value, n, parse, rest, cmd.f)
  {
    assert ([cmd] + rest)[1..] == rest;
  }

  lemma InstallCut(h: Half, n: Names, parse: Parser, f: Family, rule: Rule, i: nat)
    requires i <= 4 && (rule.src.Any? || h.base.Some?)
    ensures HExec(h, n, parse, Install(f, rule)[..i], f) == Some(InstallAt(h, n, rule, i))
  {
    var cmds := Install(f, rule);
    var h1, h2, h3 := InstallAt(h, n, rule, 1), InstallAt(h, n, rule, 2), InstallAt(h, n, rule, 3);
    if i > 0 {
      NextOf(cmds, 0, i);
      One(h, n, parse, NewChain(f), cmds[1..i]);
    }
    if i > 1 {
      NextOf(cmds, 1, i);
      One(h1, n, parse, FlushChain(f), cmds[2..i]);
    }
    if i > 2 {
      NextOf(cmds, 2, i);
      Units([rule]);
      One(h2, n, parse, Append(f, rule), cmds[3..i]);
    }
    if i > 3 {
      NextOf(cmds, 3, i);
      One(h3, n, parse, EnsureJump(f), cmds[4..i]);
    }
  }

  lemma NextOf(cmds: seq<Cmd>, k: nat, i: nat)
    requires k < i <= |cmds|
    ensures cmds[k..i] == [cmds[k]] + cmds[k + 1..i]
  {
  }

  lemma JumpedHas(input: seq<InputRule>, chain: string)
    ensures JumpTo(chain) in Jumped(input, chain)
  {
    JumpsIn(input, chain);
    JumpAdded(input, chain);
    JumpsIn(Jumped(input, chain), chain);
  }

  /** The rule of a script over the new contents drops what the policy drops. */
  lemma RuleDrops(h: Half, n: Names, parse: Parser, f: Family, ports: seq<int>, allow: bool, cidrs: seq<string>,
                  p: Packet)
    requires allow || cidrs != []
    requires cidrs != [] ==> h.base == Some(NetSet(parse, cidrs))
    ensures HMatches(h, FamilyRule(f, n, ports, allow, cidrs), p)
            <==> p.tcp && p.isNew && p.dport in ports && (allow <==> !Covered(NetsOf(parse, cidrs), p.src))
  {
    NetSetCovers(parse, cidrs, p.src);
  }

  predicate Asked(parse: Parser, ports: seq<int>, allow: bool, cidrs: seq<string>, p: Packet) {
    p.tcp && p.isNew && p.dport in ports && (allow <==> !Covered(NetsOf(parse, cidrs), p.src))
  }

  lemma SingleRule(h: Half, n: Names, rule: Rule, p: Packet)
    requires h.chain == Some([rule])
    ensures HDrops(h, n, p) <==> JumpTo(n.chain) in h.input && HMatches(h, rule, p)
  {
    assert h.chain.value[0] == rule;
  }

  /** A chain that is created where there was none drops nothing, nor did its lack. */
  lemma ChainMade(h: Half, n: Names, f: Family, p: Packet)
    requires HInv(h, n, f)
    ensures HDrops(h.(chain := Some(if h.chain.Some? then h.chain.value else [])), n, p) <==> HDrops(h, n, p)
  {
  }

  lemma InstallVerdict(h: Half, n: Names, parse: Parser, f: Family, ports: seq<int>, allow: bool, cidrs: seq<string>,
                       i: nat, p: Packet)
    requires HInv(h, n, f) && i <= 4 && (allow || cidrs != [])
    requires cidrs != [] ==> h.base == Some(NetSet(parse, cidrs))
    ensures var d := HDrops(InstallAt(h, n, FamilyRule(f, n, ports, allow, cidrs), i), n, p);
            var new_ := Asked(parse, ports, allow, cidrs, p);
            match InstallStage(i)
            case Emptied => !d
            case Ruled => d <==> JumpTo(n.chain) in h.input && new_
            case Installed => d <==> new_
            case _ => d <==> HDrops(h, n, p)
  {
    var rule := FamilyRule(f, n, ports, allow, cidrs);
    var h' := InstallAt(h, n, rule, i);
    if i == 1 {
      ChainMade(h, n, f, p);
    } else if i >= 3 {
      SingleRule(h', n, rule, p);
      RuleDrops(h', n, parse, f, ports, allow, cidrs, p);
      JumpedHas(h.input, n.chain);
    }
  }

  /** A base set that is created where there was none changes no verdict. */
  lemma BaseMade(h: Half, h': Half, n: Names, f: Family, p: Packet)
    requires HInv(h, n, f) && h'.chain == h.chain && h'.input == h.input
    requires h'.base == h.base || h.base.None?
    ensures HDrops(h', n, p) <==> HDrops(h, n, p)
  {
    if h.chain.Some? {
      forall i | 0 <= i < |h.chain.value|
        ensures HMatches(h', h.chain.value[i], p) <==> HMatches(h, h.chain.value[i], p)
      {
        assert RuleFits(h.chain.value[i], n, f);
      }
    }
  }

  /** Filling the set, cut before the swap. */
  lemma FrontVerdict(h: Half, n: Names, parse: Parser, f: Family, cidrs: seq<string>, m: nat, p: Packet)
    requires HInv(h, n, f) && m <= |Front(f, cidrs)| && HExec(h, n, parse, Front(f, cidrs)[..m], f).Some?
    ensures HDrops(HExec(h, n, parse, Front(f, cidrs)[..m], f).value, n, p) <==> HDrops(h, n, p)
  {
    var cmds := Front(f, cidrs)[..m];
    AddsOf(f, cidrs);
    assert forall i :: 0 <= i < m ==> KeepsChain(cmds[i]) && cmds[i].f == f;
    ChainKept(h, n, parse, cmds, f);
    if m > 0 {
      assert cmds[0] == CreateBase(f) && forall i :: 0 < i < m ==> KeepsBase(cmds[i]);
      BaseKept(HStep(h, n, parse, cmds[0]).value, n, parse, cmds[1..], f);
    }
    BaseMade(h, HExec(h, n, parse, cmds, f).value, n, f, p);
  }

  lemma {:induction false} AddsLength(f: Family, cidrs: seq<string>)
    ensures |Adds(f, cidrs)| == |cidrs|
  {
    if cidrs != [] {
      AddsLength(f, cidrs[1..]);
    }
  }

  /** The half right after the swap. */
  function SwappedHalf(h: Half, nets: set<Cidr>): (r: Half) {
    h.(base := Some(nets), swap := Some(if h.base.Some? then h.base.value else {}))
  }

  lemma SwapDone(h: Half, n: Names, parse: Parser, f: Family, cidrs: seq<string>)
    requires Addable(parse, f, cidrs)
    ensures HExec(h, n, parse, Front(f, cidrs) + [SwapSets(f)], f) == Some(SwappedHalf(h, NetSet(parse, cidrs)))
  {
    FrontFills(h, n, parse, f, cidrs);
    HExecConcat(h, n, parse, Front(f, cidrs), [SwapSets(f)], f);
    assert [SwapSets(f)] == [SwapSets(f)] + [];
    One(HExec(h, n, parse, Front(f, cidrs), f).value, n, parse, SwapSets(f), []);
  }

  /** A cut that got past the swap shows that the entries could be added. */
  lemma PastSwapAddable(h: Half, n: Names, parse: Parser, f: Family, cidrs: seq<string>, tail: seq<Cmd>)
    requires HExec(h, n, parse, Front(f, cidrs) + tail, f).Some?
    ensures Addable(parse, f, cidrs)
  {
    HExecConcat(h, n, parse, Front(f, cidrs), tail, f);
    FrontFills(h, n, parse, f, cidrs);
  }

  lemma MixedInv(h: Half, n: Names, f: Family, nets: set<Cidr>, swap: Option<set<Cidr>>)
    requires HInv(h, n, f)
    ensures HInv(h.(base := Some(nets), swap := swap), n, f)
  {
  }

  /** Filling the set, cut after the swap, and whatever is installed then. */
  lemma TailVerdict(h: Half, n: Names, parse: Parser, f: Family, ports: seq<int>, allow: bool, cidrs: seq<string>,
                    i: nat, p: Packet)
    requires HInv(h, n, f) && cidrs != [] && i <= 4 && Addable(parse, f, cidrs)
    ensures var r := HExec(h, n, parse, Fill(f, cidrs) + Install(f, FamilyRule(f, n, ports, allow, cidrs))[..i], f);
            && r.Some?
            && (HDrops(r.value, n, p) <==>
                StageDrops(StageAt(allow, cidrs, |cidrs| + 5 + i), h, n, NetSet(parse, cidrs),
                           Asked(parse, ports, allow, cidrs, p), p))
  {
    var rule, nets := FamilyRule(f, n, ports, allow, cidrs), NetSet(parse, cidrs);
    var filled := Filled(h, nets);
    FillFills(h, n, parse, f, cidrs);
    HExecConcat(h, n, parse, Fill(f, cidrs), Install(f, rule)[..i], f);
    InstallCut(filled, n, parse, f, rule, i);
    MixedInv(h, n, f, nets, None);
    InstallVerdict(filled, n, parse, f, ports, allow, cidrs, i, p);
    SwapIgnored(h.(base := Some(nets)), filled, n, p);
  }

  lemma SwapIgnored(h: Half, h': Half, n: Names, p: Packet)
    requires h' == h.(swap := h'.swap)
    ensures HDrops(h', n, p) <==> HDrops(h, n, p)
  {
    if h.chain.Some? {
      forall i | 0 <= i < |h.chain.value|
        ensures HMatches(h', h.chain.value[i], p) <==> HMatches(h, h.chain.value[i], p)
      {
      }
    }
  }

  lemma AtSwap(h: Half, n: Names, parse: Parser, f: Family, cidrs: seq<string>, p: Packet)
    requires Addable(parse, f, cidrs)
    ensures var r := HExec(h, n, parse, Front(f, cidrs) + [SwapSets(f)], f);
            r.Some? && (HDrops(r.value, n, p) <==> Mixed(h, n, NetSet(parse, cidrs), p))
  {
    SwapDone(h, n, parse, f, cidrs);
    SwapIgnored(h.(base := Some(NetSet(parse, cidrs))), SwappedHalf(h, NetSet(parse, cidrs)), n, p);
  }

  /** The first m commands of a family's script, by the parts they come from. */
  lemma ScriptParts(f: Family, n: Names, ports: seq<int>, allow: bool, cidrs: seq<string>, m: nat)
    requires cidrs != [] && m <= |FamilyScript(f, n, ports, allow, cidrs)|
    ensures var install := Install(f, FamilyRule(f, n, ports, allow, cidrs));
            && |Front(f, cidrs)| == |cidrs| + 3 && |Fill(f, cidrs)| == |cidrs| + 5 && m <= |cidrs| + 9
            && FamilyScript(f, n, ports, allow, cidrs)[..m] ==
               if m <= |cidrs| + 3 then Front(f, cidrs)[..m]
               else if m == |cidrs| + 4 then Front(f, cidrs) + [SwapSets(f)]
               else Fill(f, cidrs) + install[..m - |cidrs| - 5]
  {
    AddsLength(f, cidrs);
    assert Fill(f, cidrs) == Front(f, cidrs) + [SwapSets(f), DestroySwap(f)];
  }

  /** The verdict of one family at every cut of its script. */
  lemma FamilyVerdict(h: Half, n: Names, parse: Parser, f: Family, ports: seq<int>, allow: bool, cidrs: seq<string>,
                      m: nat, p: Packet)
    requires HInv(h, n, f) && m <= |FamilyScript(f, n, ports, allow, cidrs)|
    requires HExec(h, n, parse, FamilyScript(f, n, ports, allow, cidrs)[..m], f).Some?
    ensures HDrops(HExec(h, n, parse, FamilyScript(f, n, ports, allow, cidrs)[..m], f).value, n, p)
            <==> StageDrops(StageAt(allow, cidrs, m), h, n, NetSet(parse, cidrs), Asked(parse, ports, allow, cidrs, p),
                            p)
  {
    var rule := FamilyRule(f, n, ports, allow, cidrs);
    if cidrs == [] {
      if allow {
        assert [] + Install(f, rule) == Install(f, rule);
        InstallCut(h, n, parse, f, rule, m);
        InstallVerdict(h, n, parse, f, ports, allow, cidrs, m, p);
      }
    } else {
      ScriptParts(f, n, ports, allow, cidrs, m);
      FilledVerdict(h, n, parse, f, ports, allow, cidrs, m, p);
    }
  }

  lemma FilledVerdict(h: Half, n: Names, parse: Parser, f: Family, ports: seq<int>, allow: bool, cidrs: seq<string>,
                      m: nat, p: Packet)
    requires HInv(h, n, f) && cidrs != [] && m <= |FamilyScript(f, n, ports, allow, cidrs)|
    requires HExec(h, n, parse, FamilyScript(f, n, ports, allow, cidrs)[..m], f).Some?
    ensures HDrops(HExec(h, n, parse, FamilyScript(f, n, ports, allow, cidrs)[..m], f).value, n, p)
            <==> StageDrops(StageAt(allow, cidrs, m), h, n, NetSet(parse, cidrs), Asked(parse, ports, allow, cidrs, p),
                            p)
  {
    var install := Install(f, FamilyRule(f, n, ports, allow, cidrs));
    ScriptParts(f, n, ports, allow, cidrs, m);
    if m <= |cidrs| + 3 {
      FrontVerdict(h, n, parse, f, cidrs, m, p);
    } else if m == |cidrs| + 4 {
      PastSwapAddable(h, n, parse, f, cidrs, [SwapSets(f)]);
      AtSwap(h, n, parse, f, cidrs, p);
    } else {
      var i := m - |cidrs| - 5;
      assert Fill(f, cidrs) + install[..i] == Front(f, cidrs) + ([SwapSets(f), DestroySwap(f)] + install[..i]);
      PastSwapAddable(h, n, parse, f, cidrs, [SwapSets(f), DestroySwap(f)] + install[..i]);
      TailVerdict(h, n, parse, f, ports, allow, cidrs, i, p);
    }
  }

  // ---------- the whole script ----------

  /** How many of a family's commands are among the first `cut` of the script. */
  function CutOf(t: Target, c: CIDRs, f: Family, cut: nat): (m: nat) {
    PartOf(f, |FamilyScript(V4, NamesOf(t.id), FirewallPorts(t), t.mode != "deny", c.v4)|, cut)
  }

  lemma ByFamily(h: Half, n: Names, parse: Parser, ports: seq<int>, allow: bool, c: CIDRs, cut: nat, f: Family)
    requires cut <= |FamilyScript(V4, n, ports, allow, c.v4) + FamilyScript(V6, n, ports, allow, c.v6)|
    ensures var a, b := FamilyScript(V4, n, ports, allow, c.v4), FamilyScript(V6, n, ports, allow, c.v6);
            var m := PartOf(f, |a|, cut);
            && m <= |FamilyScript(f, n, ports, allow, Cidrs(c, f))|
            && (HExec(h, n, parse, (a + b)[..cut], f).Some? ==>
                  HExec(h, n, parse, FamilyScript(f, n, ports, allow, Cidrs(c, f))[..m], f)
                      == HExec(h, n, parse, (a + b)[..cut], f))
  {
    var a, b := FamilyScript(V4, n, ports, allow, c.v4), FamilyScript(V6, n, ports, allow, c.v6);
    FamilyOf(V4, n, ports, allow, c.v4);
    FamilyOf(V6, n, ports, allow, c.v6);
    CutParts(a, b, cut);
    OneFamily(h, n, parse, a[..PartOf(V4, |a|, cut)], b[..PartOf(V6, |a|, cut)], f);
  }

  lemma AskedByFilter(parse: Parser, ports: seq<int>, allow: bool, c: CIDRs, p: Packet)
    ensures FilterOf(parse, allow, ports, c).Drops(p) <==> Asked(parse, ports, allow, Cidrs(c, p.src.family), p)
  {
  }

  /** After any commands, the half of the packet's family decides. */
  lemma ByOneHalf(k: Kernel, n: Names, parse: Parser, cmds: seq<Cmd>, p: Packet)
    requires InOrder(k, n) && AllFit(cmds, n) && Exec(k, n, parse, cmds).Some?
    ensures var r := HExec(View(k, n, p.src.family), n, parse, cmds, p.src.family);
            r.Some? && (DroppedBy(Exec(k, n, parse, cmds).value, n, p) <==> HDrops(r.value, n, p))
  {
    ExecFollows(k, n, parse, cmds);
    DropsByHalf(Exec(k, n, parse, cmds).value, n, p);
  }

  /** The verdict at every cut: from any kernel in order, after the first `cut` commands, a packet is dropped
      exactly as the stage of its family says. */
  lemma VerdictAtCut(k: Kernel, t: Target, c: CIDRs, parse: Parser, cut: nat, p: Packet)
    requires InOrder(k, NamesOf(t.id)) && cut <= |Script(t, c)|
    requires Exec(k, NamesOf(t.id), parse, Script(t, c)[..cut]).Some?
    ensures var n, f := NamesOf(t.id), p.src.family;
            DroppedBy(Exec(k, n, parse, Script(t, c)[..cut]).value, n, p)
            <==> StageDrops(StageAt(t.mode != "deny", Cidrs(c, f), CutOf(t, c, f, cut)), View(k, n, f), n,
                            NetSet(parse, Cidrs(c, f)),
                            FilterOf(parse, t.mode != "deny", FirewallPorts(t), c).Drops(p), p)
  {
    var n, ports, allow := NamesOf(t.id), FirewallPorts(t), t.mode != "deny";
    ScriptFits(t, c);
    VerdictIn(k, n, parse, ports, allow, c, cut, Script(t, c)[..cut], p);
    AskedByFilter(parse, ports, allow, c, p);
  }

  lemma VerdictIn(k: Kernel, n: Names, parse: Parser, ports: seq<int>, allow: bool, c: CIDRs, cut: nat, cmds: seq<Cmd>,
                  p: Packet)
    requires InOrder(k, n) && AllFit(cmds, n) && Exec(k, n, parse, cmds).Some?
    requires cut <= |FamilyScript(V4, n, ports, allow, c.v4) + FamilyScript(V6, n, ports, allow, c.v6)|
    requires cmds == (FamilyScript(V4, n, ports, allow, c.v4) + FamilyScript(V6, n, ports, allow, c.v6))[..cut]
    ensures var f := p.src.family;
            DroppedBy(Exec(k, n, parse, cmds).value, n, p)
            <==> StageDrops(StageAt(allow, Cidrs(c, f), PartOf(f, |FamilyScript(V4, n, ports, allow, c.v4)|, cut)),
                            View(k, n, f), n,
                            NetSet(parse, Cidrs(c, f)), Asked(parse, ports, allow, Cidrs(c, f), p), p)
  {
    var f := p.src.family;
    var h := View(k, n, f);
    ByOneHalf(k, n, parse, cmds, p);
    ByFamily(h, n, parse, ports, allow, c, cut, f);
    FamilyVerdict(h, n, parse, f, ports, allow, Cidrs(c, f), PartOf(f, |FamilyScript(V4, n, ports, allow, c.v4)|, cut),
                  p);
  }

  /** At this cut the packet is dropped as before the script, or as after it. */
  ghost predicate OldOrNewAt(k: Kernel, t: Target, c: CIDRs, parse: Parser, cut: nat, p: Packet)
    requires cut <= |Script(t, c)| && Exec(k, NamesOf(t.id), parse, Script(t, c)[..cut]).Some?
  {
    var d := DroppedBy(Exec(k, NamesOf(t.id), parse, Script(t, c)[..cut]).value, NamesOf(t.id), p);
    d == DroppedBy(k, NamesOf(t.id), p) || d == FilterOf(parse, t.mode != "deny", FirewallPorts(t), c).Drops(p)
  }

  /** When no cut of a script treats the packet otherwise than before or after: in deny mode its family has
      no ranges; or it is not dropped both before and after, for then the emptied chain lets it through, and
      it is not dropped by the old rules over the new contents alone. */
  predicate Steady(k: Kernel, t: Target, c: CIDRs, parse: Parser, p: Packet) {
    var n, f := NamesOf(t.id), p.src.family;
    var old_, new_ := DroppedBy(k, n, p), FilterOf(parse, t.mode != "deny", FirewallPorts(t), c).Drops(p);
    || (t.mode == "deny" && Cidrs(c, f) == [])
    || (!(old_ && new_) && (Cidrs(c, f) == [] || old_ || new_
                            || !Mixed(View(k, n, f), n, NetSet(parse, Cidrs(c, f)), p)))
  }

  lemma PrefixRuns(k: Kernel, n: Names, parse: Parser, cmds: seq<Cmd>, cut: nat)
    requires cut <= |cmds| && Exec(k, n, parse, cmds).Some?
    ensures Exec(k, n, parse, cmds[..cut]).Some?
    decreases |cmds|
  {
    if cut > 0 {
      assert cmds[..cut][1..] == cmds[1..][..cut - 1];
      PrefixRuns(Step(k, n, parse, cmds[0]).value, n, parse, cmds[1..], cut - 1);
    }
  }

  /** A cut of the whole script at which the family has got through m of its commands. */
  lemma CutFor(t: Target, c: CIDRs, f: Family, m: nat) returns (cut: nat)
    requires m <= |FamilyScript(f, NamesOf(t.id), FirewallPorts(t), t.mode != "deny", Cidrs(c, f))|
    ensures cut <= |Script(t, c)| && CutOf(t, c, f, cut) == m
  {
    cut := if f.V4? then m else |FamilyScript(V4, NamesOf(t.id), FirewallPorts(t), t.mode != "deny", c.v4)| + m;
  }

  lemma ScriptLength(f: Family, n: Names, ports: seq<int>, allow: bool, cidrs: seq<string>)
    requires allow || cidrs != []
    ensures |FamilyScript(f, n, ports, allow, cidrs)| == if cidrs == [] then 4 else |cidrs| + 9
  {
    AddsLength(f, cidrs);
  }

  /** Every stage that a script passes through has its cut. */
  lemma StageCut(t: Target, c: CIDRs, f: Family, stage: Stage) returns (cut: nat)
    requires t.mode != "deny" || Cidrs(c, f) != []
    requires stage.NewSet? ==> Cidrs(c, f) != []
    ensures cut <= |Script(t, c)| && StageAt(t.mode != "deny", Cidrs(c, f), CutOf(t, c, f, cut)) == stage
  {
    var cidrs := Cidrs(c, f);
    ScriptLength(f, NamesOf(t.id), FirewallPorts(t), t.mode != "deny", cidrs);
    var start := if cidrs == [] then 0 else |cidrs| + 5;
    var m := match stage
      case Untouched => 0
      case NewSet => |cidrs| + 4
      case Emptied => start + 2
      case Ruled => start + 3
      case Installed => start + 4;
    cut := CutFor(t, c, f, m);
  }

  lemma SteadyKeeps(k: Kernel, t: Target, c: CIDRs, parse: Parser, cut: nat, p: Packet)
    requires InOrder(k, NamesOf(t.id)) && cut <= |Script(t, c)|
    requires Exec(k, NamesOf(t.id), parse, Script(t, c)[..cut]).Some? && Steady(k, t, c, parse, p)
    ensures OldOrNewAt(k, t, c, parse, cut, p)
  {
    VerdictAtCut(k, t, c, parse, cut, p);
    DropsByHalf(k, NamesOf(t.id), p);
    var f := p.src.family;
    SteadyStages(t.mode != "deny", Cidrs(c, f), CutOf(t, c, f, cut), View(k, NamesOf(t.id), f), NamesOf(t.id),
                 NetSet(parse, Cidrs(c, f)), FilterOf(parse, t.mode != "deny", FirewallPorts(t), c).Drops(p), p);
  }

  lemma SteadyStages(allow: bool, cidrs: seq<string>, m: nat, h: Half, n: Names, nets: set<Cidr>, new_: bool, p: Packet)
    requires var old_ := HDrops(h, n, p);
             || (!allow && cidrs == [])
             || (!(old_ && new_) && (cidrs == [] || old_ || new_ || !Mixed(h, n, nets, p)))
    ensures var d := StageDrops(StageAt(allow, cidrs, m), h, n, nets, new_, p);
            d == HDrops(h, n, p) || d == new_
  {
  }

  /** A cut at which an unsteady packet is treated otherwise. */
  lemma UnsteadyCut(k: Kernel, t: Target, c: CIDRs, parse: Parser, p: Packet) returns (cut: nat)
    requires InOrder(k, NamesOf(t.id)) && Exec(k, NamesOf(t.id), parse, Script(t, c)).Some?
             && !Steady(k, t, c, parse, p)
    ensures cut <= |Script(t, c)| && Exec(k, NamesOf(t.id), parse, Script(t, c)[..cut]).Some?
    ensures !OldOrNewAt(k, t, c, parse, cut, p)
  {
    var n, f := NamesOf(t.id), p.src.family;
    cut := StageCut(t, c, f, if DroppedBy(k, n, p) then Emptied else NewSet);
    PrefixRuns(k, n, parse, Script(t, c), cut);
    VerdictAtCut(k, t, c, parse, cut, p);
    DropsByHalf(k, n, p);
  }

  /** From any kernel in order, with lists that can be added: every cut of the script drops the packet as
      before or as after, exactly if the packet is steady. */
  lemma EveryCutOldOrNewExactly(k: Kernel, t: Target, c: CIDRs, parse: Parser, p: Packet)
    requires InOrder(k, NamesOf(t.id)) && Addable(parse, V4, c.v4) && Addable(parse, V6, c.v6)
    ensures forall cut: nat :: cut <= |Script(t, c)| ==> Exec(k, NamesOf(t.id), parse, Script(t, c)[..cut]).Some?
    ensures (forall cut: nat :: cut <= |Script(t, c)| ==> OldOrNewAt(k, t, c, parse, cut, p))
            <==> Steady(k, t, c, parse, p)
  {
    var n := NamesOf(t.id);
    ScriptCompletes(k, t, c, parse);
    forall cut: nat | cut <= |Script(t, c)| ensures Exec(k, n, parse, Script(t, c)[..cut]).Some? {
      PrefixRuns(k, n, parse, Script(t, c), cut);
    }
    if Steady(k, t, c, parse, p) {
      forall cut: nat | cut <= |Script(t, c)| ensures OldOrNewAt(k, t, c, parse, cut, p) {
        SteadyKeeps(k, t, c, parse, cut, p);
      }
    } else {
      var cut := UnsteadyCut(k, t, c, parse, p);
    }
  }
}
