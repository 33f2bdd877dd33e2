/** Runs of the iptables scripts: convergence, what holds at every cut point, and removal. */
module IptablesRuns {
  import opened Text
  import opened Policy
  import opened Fetcher
  import opened Targets
  import opened Iptables
  import opened IptablesHalf
  import Nftables

  // ---------- running one family's commands ----------

  /** The commands of family f, one after the other; the others are passed over. */
  function HExec(h: Half, n: Names, parse: Parser, cmds: seq<Cmd>, f: Family): (r: Option<Half>)
    decreases |cmds|
  {
    if cmds == [] then Some(h)
    else if cmds[0].f != f then HExec(h, n, parse, cmds[1..], f)
    else
      var next := HStep(h, n, parse, cmds[0]);
      if next.None? then None else HExec(next.value, n, parse, cmds[1..], f)
  }

  predicate AllFit(cmds: seq<Cmd>, n: Names) {
    forall i :: 0 <= i < |cmds| ==> Fits(cmds[i], n)
  }

  lemma SameElseTrans(a: Kernel, b: Kernel, c: Kernel, n: Names)
    requires SameElse(a, b, n) && SameElse(b, c, n)
    ensures SameElse(a, c, n)
  {
  }

  /** A script runs through exactly if it does in both families, and does there what it does family by family. */
  lemma {:induction false} ExecFollows(k: Kernel, n: Names, parse: Parser, cmds: seq<Cmd>)
    requires InOrder(k, n) && AllFit(cmds, n)
    ensures Exec(k, n, parse, cmds).Some?
            <==> HExec(View(k, n, V4), n, parse, cmds, V4).Some? && HExec(View(k, n, V6), n, parse, cmds, V6).Some?
    ensures Exec(k, n, parse, cmds).Some? ==>
              var k' := Exec(k, n, parse, cmds).value;
              && InOrder(k', n) && SameElse(k, k', n)
              && Some(View(k', n, V4)) == HExec(View(k, n, V4), n, parse, cmds, V4)
              && Some(View(k', n, V6)) == HExec(View(k, n, V6), n, parse, cmds, V6)
    decreases |cmds|
  {
    if cmds != [] {
      StepFollows(k, n, parse, cmds[0]);
      var next := Step(k, n, parse, cmds[0]);
      if next.Some? {
        ExecFollows(next.value, n, parse, cmds[1..]);
        var end := Exec(next.value, n, parse, cmds[1..]);
        if end.Some? {
          SameElseTrans(k, next.value, end.value, n);
        }
      }
    }
  }

  lemma {:induction false} HExecConcat(h: Half, n: Names, parse: Parser, a: seq<Cmd>, b: seq<Cmd>, f: Family)
    ensures HExec(h, n, parse, a + b, f) ==
            var m := HExec(h, n, parse, a, f); if m.None? then None else HExec(m.value, n, parse, b, f)
    decreases |a|
  {
    if a == [] {
      assert a + b == b;
    } else {
      assert (a + b)[1..] == a[1..] + b;
      if a[0].f != f {
        HExecConcat(h, n, parse, a[1..], b, f);
      } else if HStep(h, n, parse, a[0]).Some? {
        HExecConcat(HStep(h, n, parse, a[0]).value, n, parse, a[1..], b, f);
      }
    }
  }

  lemma {:induction false} HExecOther(h: Half, n: Names, parse: Parser, cmds: seq<Cmd>, f: Family)
    requires forall i :: 0 <= i < |cmds| ==> cmds[i].f != f
    ensures HExec(h, n, parse, cmds, f) == Some(h)
  {
    if cmds != [] {
      HExecOther(h, n, parse, cmds[1..], f);
    }
  }

  // ---------- filling a set ----------

  /** The entries can be added to the set, one after the other. */
  predicate Loadable(parse: Parser, f: Family, cidrs: seq<string>, have: set<Cidr>) {
    cidrs == [] || (Storable(parse, f, cidrs[0]) && parse(cidrs[0]).value !in have
                    && Loadable(parse, f, cidrs[1..], have + {parse(cidrs[0]).value}))
  }

  function NetSet(parse: Parser, cidrs: seq<string>): (r: set<Cidr>) {
    if cidrs == [] then {}
    else (if parse(cidrs[0]).Some? then {parse(cidrs[0]).value} else {}) + NetSet(parse, cidrs[1..])
  }

  lemma {:induction false} AddsFill(h: Half, n: Names, parse: Parser, f: Family, cidrs: seq<string>)
    requires h.swap.Some?
    ensures HExec(h, n, parse, Adds(f, cidrs), f) ==
            if Loadable(parse, f, cidrs, h.swap.value) then Some(h.(swap := Some(h.swap.value + NetSet(parse, cidrs))))
                else None
    decreases |cidrs|
  {
    if cidrs == [] {
      assert h.swap.value + {} == h.swap.value;
    } else {
      assert Adds(f, cidrs)[1..] == Adds(f, cidrs[1..]);
      if Storable(parse, f, cidrs[0]) && parse(cidrs[0]).value !in h.swap.value {
        var c := parse(cidrs[0]).value;
        AddsFill(h.(swap := Some(h.swap.value + {c})), n, parse, f, cidrs[1..]);
        assert h.swap.value + {c} + NetSet(parse, cidrs[1..]) == h.swap.value + NetSet(parse, cidrs);
      }
    }
  }

  /** A list that `ipset add` takes: blocks of the family, none twice, none the whole space. */
  predicate Addable(parse: Parser, f: Family, cidrs: seq<string>) {
    && (forall i :: 0 <= i < |cidrs| ==> Storable(parse, f, cidrs[i]))
    && (forall i, j :: 0 <= i < j < |cidrs| ==> parse(cidrs[i]) != parse(cidrs[j]))
  }

  lemma {:induction false} LoadableExactly(parse: Parser, f: Family, cidrs: seq<string>, have: set<Cidr>)
    ensures Loadable(parse, f, cidrs, have)
            <==> Addable(parse, f, cidrs) && forall i :: 0 <= i < |cidrs| ==> parse(cidrs[i]).value !in have
    decreases |cidrs|
  {
    if cidrs != [] && Storable(parse, f, cidrs[0]) {
      var c, rest := parse(cidrs[0]).value, cidrs[1..];
      LoadableExactly(parse, f, rest, have + {c});
      assert forall i :: 0 <= i < |rest| ==> rest[i] == cidrs[i + 1];
      if Addable(parse, f, cidrs) && forall i :: 0 <= i < |cidrs| ==> parse(cidrs[i]).value !in have {
        forall i | 0 <= i < |rest| ensures parse(rest[i]).value !in have + {c} {
          assert parse(cidrs[0]) != parse(cidrs[i + 1]) && Storable(parse, f, cidrs[i + 1]);
        }
      }
      if Loadable(parse, f, cidrs, have) {
        forall i, j | 0 <= i < j < |cidrs| ensures parse(cidrs[i]) != parse(cidrs[j]) {
          assert parse(rest[j - 1]).value !in have + {c};
        }
      }
    }
  }

  /** The half after its sets were filled and the rest not yet begun. */
  function Filled(h: Half, nets: set<Cidr>): (r: Half) {
    h.(base := Some(nets), swap := None)
  }

  function Front(f: Family, cidrs: seq<string>): (r: seq<Cmd>) {
    [CreateBase(f), CreateSwap(f), FlushSwap(f)] + Adds(f, cidrs)
  }

  lemma FrontFills(h: Half, n: Names, parse: Parser, f: Family, cidrs: seq<string>)
    ensures HExec(h, n, parse, Front(f, cidrs), f) ==
            if Addable(parse, f, cidrs)
            then Some(h.(base := Some(if h.base.Some? then h.base.value else {}), swap := Some(NetSet(parse, cidrs))))
            else None
  {
    var start := [CreateBase(f), CreateSwap(f), FlushSwap(f)];
    assert start[1..] == [CreateSwap(f), FlushSwap(f)] && start[1..][1..] == [FlushSwap(f)]
           && start[1..][1..][1..] == [];
    HExecConcat(h, n, parse, start, Adds(f, cidrs), f);
    var h1 := HStep(h, n, parse, CreateBase(f)).value;
    var h2 := HStep(h1, n, parse, CreateSwap(f)).value;
    var h3 := HStep(h2, n, parse, FlushSwap(f)).value;
    assert HExec(h2, n, parse, [FlushSwap(f)], f) == Some(h3);
    assert HExec(h1, n, parse, [CreateSwap(f), FlushSwap(f)], f) == Some(h3);
    assert HExec(h, n, parse, start, f) == Some(h3);
    AddsFill(h3, n, parse, f, cidrs);
    LoadableExactly(parse, f, cidrs, {});
    assert {} + NetSet(parse, cidrs) == NetSet(parse, cidrs);
  }

  lemma FillFills(h: Half, n: Names, parse: Parser, f: Family, cidrs: seq<string>)
    ensures HExec(h, n, parse, Fill(f, cidrs), f) ==
            if Addable(parse, f, cidrs) then Some(Filled(h, NetSet(parse, cidrs))) else None
  {
    var end := [SwapSets(f), DestroySwap(f)];
    assert end[1..] == [DestroySwap(f)] && end[1..][1..] == [];
    FrontFills(h, n, parse, f, cidrs);
    HExecConcat(h, n, parse, Front(f, cidrs), end, f);
    assert Fill(f, cidrs) == Front(f, cidrs) + end;
    if Addable(parse, f, cidrs) {
      var h1 := HExec(h, n, parse, Front(f, cidrs), f).value;
      var h2 := HStep(h1, n, parse, SwapSets(f)).value;
      assert HExec(h2, n, parse, [DestroySwap(f)], f) == HStep(h2, n, parse, DestroySwap(f));
      assert HExec(h1, n, parse, end, f) == HStep(h2, n, parse, DestroySwap(f));
    }
  }

  function Jumped(input: seq<InputRule>, chain: string): (r: seq<InputRule>) {
    if JumpTo(chain) in input then input else [JumpTo(chain)] + input
  }

  lemma InstallInstalls(h: Half, n: Names, parse: Parser, f: Family, rule: Rule)
    requires rule.src.Any? || h.base.Some?
    ensures HExec(h, n, parse, Install(f, rule), f)
            == Some(h.(chain := Some([rule]), input := Jumped(h.input, n.chain)))
  {
    var cmds := Install(f, rule);
    assert cmds[1..] == [FlushChain(f), Append(f, rule), EnsureJump(f)];
    assert cmds[1..][1..] == [Append(f, rule), EnsureJump(f)];
    assert cmds[1..][1..][1..] == [EnsureJump(f)];
    assert cmds[1..][1..][1..][1..] == [];
    assert [] + [rule] == [rule];
    var h1 := HStep(h, n, parse, NewChain(f)).value;
    var h2 := HStep(h1, n, parse, FlushChain(f)).value;
    var h3 := HStep(h2, n, parse, Append(f, rule)).value;
    assert HExec(h3, n, parse, [EnsureJump(f)], f) == HStep(h3, n, parse, EnsureJump(f));
    assert HExec(h2, n, parse, [Append(f, rule), EnsureJump(f)], f) == HStep(h3, n, parse, EnsureJump(f));
    assert HExec(h1, n, parse, cmds[1..], f) == HStep(h3, n, parse, EnsureJump(f));
  }

  /** The family after a completed script. */
  function Done(h: Half, n: Names, parse: Parser, f: Family, ports: seq<int>, allow: bool,
                cidrs: seq<string>): (r: Half) {
    if cidrs == [] && !allow then h
    else
      var filled := if cidrs == [] then h else Filled(h, NetSet(parse, cidrs));
      filled.(chain := Some([FamilyRule(f, n, ports, allow, cidrs)]), input := Jumped(h.input, n.chain))
  }

  /** One family's script runs through from any state, exactly if its entries can be added. */
  lemma FamilyCompletes(h: Half, n: Names, parse: Parser, f: Family, ports: seq<int>, allow: bool, cidrs: seq<string>)
    ensures HExec(h, n, parse, FamilyScript(f, n, ports, allow, cidrs), f) ==
            if Addable(parse, f, cidrs) then Some(Done(h, n, parse, f, ports, allow, cidrs)) else None
  {
    var rule := FamilyRule(f, n, ports, allow, cidrs);
    if cidrs == [] {
      if allow {
        assert [] + Install(f, rule) == Install(f, rule);
        InstallInstalls(h, n, parse, f, rule);
      }
    } else {
      FillFills(h, n, parse, f, cidrs);
      HExecConcat(h, n, parse, Fill(f, cidrs), Install(f, rule), f);
      if Addable(parse, f, cidrs) {
        InstallInstalls(Filled(h, NetSet(parse, cidrs)), n, parse, f, rule);
      }
    }
  }

  // ---------- whole scripts ----------

  function Cidrs(c: CIDRs, f: Family): (r: seq<string>) {
    if f.V4? then c.v4 else c.v6
  }

  function DoneBy(h: Half, t: Target, c: CIDRs, parse: Parser, f: Family): (r: Half) {
    Done(h, NamesOf(t.id), parse, f, FirewallPorts(t), t.mode != "deny", Cidrs(c, f))
  }

  lemma {:induction false} AddsOf(f: Family, cidrs: seq<string>)
    ensures forall i :: 0 <= i < |Adds(f, cidrs)| ==> Adds(f, cidrs)[i].f == f && Adds(f, cidrs)[i].AddNet?
  {
    if cidrs != [] {
      AddsOf(f, cidrs[1..]);
    }
  }

  lemma FamilyOf(f: Family, n: Names, ports: seq<int>, allow: bool, cidrs: seq<string>)
    ensures var s := FamilyScript(f, n, ports, allow, cidrs); forall i :: 0 <= i < |s| ==> s[i].f == f && Fits(s[i], n)
  {
    AddsOf(f, cidrs);
  }

  lemma ScriptFits(t: Target, c: CIDRs)
    ensures AllFit(Script(t, c), NamesOf(t.id))
  {
    FamilyOf(V4, NamesOf(t.id), FirewallPorts(t), t.mode != "deny", c.v4);
    FamilyOf(V6, NamesOf(t.id), FirewallPorts(t), t.mode != "deny", c.v6);
  }

  lemma ScriptByFamily(h: Half, t: Target, c: CIDRs, parse: Parser, f: Family)
    ensures HExec(h, NamesOf(t.id), parse, Script(t, c), f) ==
            if Addable(parse, f, Cidrs(c, f)) then Some(DoneBy(h, t, c, parse, f)) else None
  {
    var n, ports, allow := NamesOf(t.id), FirewallPorts(t), t.mode != "deny";
    var a, b := FamilyScript(V4, n, ports, allow, c.v4), FamilyScript(V6, n, ports, allow, c.v6);
    HExecConcat(h, n, parse, a, b, f);
    FamilyCompletes(h, n, parse, f, ports, allow, Cidrs(c, f));
    FamilyOf(V4, n, ports, allow, c.v4);
    FamilyOf(V6, n, ports, allow, c.v6);
    if f.V4? {
      if Addable(parse, V4, c.v4) {
        HExecOther(DoneBy(h, t, c, parse, V4), n, parse, b, f);
      }
    } else {
      HExecOther(h, n, parse, a, f);
    }
  }

  /** Convergence: on any good kernel the script runs through exactly if the lists can be added, and then
      each family is as its half of the script says; everything else is untouched. */
  lemma ScriptCompletes(k: Kernel, t: Target, c: CIDRs, parse: Parser)
    requires InOrder(k, NamesOf(t.id))
    ensures Exec(k, NamesOf(t.id), parse, Script(t, c)).Some? <==> Addable(parse, V4, c.v4) && Addable(parse, V6, c.v6)
    ensures Exec(k, NamesOf(t.id), parse, Script(t, c)).Some? ==>
              var n := NamesOf(t.id);
              var k' := Exec(k, n, parse, Script(t, c)).value;
              && InOrder(k', n) && SameElse(k, k', n)
              && View(k', n, V4) == DoneBy(View(k, n, V4), t, c, parse, V4)
              && View(k', n, V6) == DoneBy(View(k, n, V6), t, c, parse, V6)
  {
    var n := NamesOf(t.id);
    ScriptFits(t, c);
    ExecFollows(k, n, parse, Script(t, c));
    ScriptByFamily(View(k, n, V4), t, c, parse, V4);
    ScriptByFamily(View(k, n, V6), t, c, parse, V6);
  }

  /** After a completed run that wrote the family: one rule in the chain, one jump to it. */
  lemma OneRuleOneJump(k: Kernel, t: Target, c: CIDRs, parse: Parser, f: Family)
    requires InOrder(k, NamesOf(t.id)) && Exec(k, NamesOf(t.id), parse, Script(t, c)).Some?
    requires t.mode != "deny" || Cidrs(c, f) != []
    ensures var n := NamesOf(t.id);
            var table := Exec(k, n, parse, Script(t, c)).value.Of(f);
            && n.chain in table.chains && |table.chains[n.chain]| == 1
            && Jumps(table.input, n.chain) == 1
  {
    var n := NamesOf(t.id);
    ScriptCompletes(k, t, c, parse);
    var input := k.Of(f).input;
    JumpsIn(input, n.chain);
    JumpAdded(input, n.chain);
    assert Jumps(View(k, n, f).input, n.chain) <= 1;
    var h := View(Exec(k, n, parse, Script(t, c)).value, n, f);
    assert h == DoneBy(View(k, n, f), t, c, parse, f);
  }

  lemma {:induction false} NetSetCovers(parse: Parser, cidrs: seq<string>, a: Addr)
    ensures InSet(NetSet(parse, cidrs), a) <==> Covered(NetsOf(parse, cidrs), a)
  {
    if cidrs != [] {
      NetSetCovers(parse, cidrs[1..], a);
      var rest := NetsOf(parse, cidrs[1..]);
      if parse(cidrs[0]).Some? {
        var c := parse(cidrs[0]).value;
        var all := NetsOf(parse, cidrs);
        assert all == [c] + rest;
        if Covered(rest, a) {
          var i :| 0 <= i < |rest| && Contains(rest[i], a);
          assert all[i + 1] == rest[i];
        }
        if Contains(c, a) {
          assert all[0] == c && c in NetSet(parse, cidrs);
        }
      } else {
        assert NetsOf(parse, cidrs) == rest && NetSet(parse, cidrs) == NetSet(parse, cidrs[1..]);
      }
    }
  }

  predicate HDrops(h: Half, n: Names, p: Packet) {
    && JumpTo(n.chain) in h.input && h.chain.Some?
    && exists i :: 0 <= i < |h.chain.value| && HMatches(h, h.chain.value[i], p)
  }

  predicate HMatches(h: Half, r: Rule, p: Packet) {
    && p.tcp && p.dport in r.ports && p.isNew
    && (r.src.Outside? ==> h.base.Some? && !InSet(h.base.value, p.src))
    && (r.src.Inside? ==> h.base.Some? && InSet(h.base.value, p.src))
  }

  lemma DropsByHalf(k: Kernel, n: Names, p: Packet)
    requires InOrder(k, n)
    ensures DroppedBy(k, n, p) <==> HDrops(View(k, n, p.src.family), n, p)
  {
    var h := View(k, n, p.src.family);
    assert HInv(h, n, p.src.family);
    if h.chain.Some? {
      forall i | 0 <= i < |h.chain.value|
        ensures Matches(k, h.chain.value[i], p) <==> HMatches(h, h.chain.value[i], p)
      {
        assert RuleFits(h.chain.value[i], n, p.src.family);
      }
    }
  }

  lemma DoneDrops(h: Half, n: Names, parse: Parser, f: Family, ports: seq<int>, allow: bool, cidrs: seq<string>,
                  p: Packet)
    requires allow || cidrs != []
    ensures HDrops(Done(h, n, parse, f, ports, allow, cidrs), n, p)
            <==> p.tcp && p.isNew && p.dport in ports && (allow <==> !Covered(NetsOf(parse, cidrs), p.src))
  {
    var d := Done(h, n, parse, f, ports, allow, cidrs);
    NetSetCovers(parse, cidrs, p.src);
    assert d.chain.value[0] == FamilyRule(f, n, ports, allow, cidrs);
    assert JumpTo(n.chain) in d.input by { assert JumpTo(n.chain) in h.input || d.input[0] == JumpTo(n.chain); }
  }

  /** What a completed run drops: what the policy asks for; but in deny mode, for a family without ranges,
      whatever was dropped before. */
  lemma CompletedDrops(k: Kernel, t: Target, c: CIDRs, parse: Parser, p: Packet)
    requires InOrder(k, NamesOf(t.id)) && Exec(k, NamesOf(t.id), parse, Script(t, c)).Some?
    ensures DroppedBy(Exec(k, NamesOf(t.id), parse, Script(t, c)).value, NamesOf(t.id), p)
            <==> if t.mode == "deny" && Cidrs(c, p.src.family) == [] then DroppedBy(k, NamesOf(t.id), p)
                 else FilterOf(parse, t.mode != "deny", FirewallPorts(t), c).Drops(p)
  {
    var n, f := NamesOf(t.id), p.src.family;
    ScriptCompletes(k, t, c, parse);
    var k' := Exec(k, n, parse, Script(t, c)).value;
    DropsByHalf(k, n, p);
    DropsByHalf(k', n, p);
    assert View(k', n, f) == DoneBy(View(k, n, f), t, c, parse, f);
    if t.mode != "deny" || Cidrs(c, f) != [] {
      DoneDrops(View(k, n, f), n, parse, f, FirewallPorts(t), t.mode != "deny", Cidrs(c, f), p);
    }
  }

  /** A completed run enforces the policy on a packet exactly unless, in deny mode, the packet's family has
      no ranges and an older rule still drops it. */
  lemma PolicyEnforcedExactly(k: Kernel, t: Target, c: CIDRs, parse: Parser, p: Packet)
    requires InOrder(k, NamesOf(t.id)) && Exec(k, NamesOf(t.id), parse, Script(t, c)).Some?
    ensures (DroppedBy(Exec(k, NamesOf(t.id), parse, Script(t, c)).value, NamesOf(t.id), p)
             <==> FilterOf(parse, t.mode != "deny", FirewallPorts(t), c).Drops(p))
            <==> !(t.mode == "deny" && Cidrs(c, p.src.family) == [] && DroppedBy(k, NamesOf(t.id), p))
  {
    CompletedDrops(k, t, c, parse, p);
  }

  /** A kernel without anything of the target's. */
  predicate Clean(k: Kernel, n: Names) {
    && k.sets.Keys !! n.Sets()
    && n.chain !in k.t4.chains && n.chain !in k.t6.chains
    && JumpTo(n.chain) !in k.t4.input && JumpTo(n.chain) !in k.t6.input
    && ChainsApart(k.t4.chains, n) && ChainsApart(k.t6.chains, n)
  }

  lemma CleanIsGood(k: Kernel, n: Names)
    requires Clean(k, n) && n.Distinct()
    ensures InOrder(k, n)
  {
    JumpsIn(k.t4.input, n.chain);
    JumpsIn(k.t6.input, n.chain);
  }

  /** Two compilers, one meaning: run from a clean kernel, the iptables script drops exactly the packets
      that the nftables ruleset of the same target drops, namely those that the policy asks for. */
  lemma CompilersAgree(k: Kernel, t: Target, c: CIDRs, parse: Parser, p: Packet)
    requires Clean(k, NamesOf(t.id)) && Addable(parse, V4, c.v4) && Addable(parse, V6, c.v6)
    ensures Exec(k, NamesOf(t.id), parse, Script(t, c)).Some?
    ensures DroppedBy(Exec(k, NamesOf(t.id), parse, Script(t, c)).value, NamesOf(t.id), p)
            <==> Nftables.Drops(Nftables.TableOf(t, c), parse, p)
    ensures Nftables.Drops(Nftables.TableOf(t, c), parse, p)
            <==> FilterOf(parse, t.mode != "deny", FirewallPorts(t), c).Drops(p)
  {
    NamesDistinct(t.id);
    CleanIsGood(k, NamesOf(t.id));
    ScriptCompletes(k, t, c, parse);
    PolicyEnforcedExactly(k, t, c, parse, p);
    Nftables.TableDropsPolicy(t, c, parse, p);
  }
}
