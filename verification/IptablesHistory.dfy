/** Interrupted and complete runs of one target's scripts, one after the other; and what removal leaves. */
module IptablesHistory {
  import opened Text
  import opened Policy
  import opened Fetcher
  import opened Targets
  import opened Iptables
  import opened IptablesHalf
  import opened IptablesRuns
  import Nftables

  // ---------- histories ----------

  /** A run of a script that got through its first `cut` commands: all of them, or interrupted, or up to a failure. */
  datatype Job =
    | Applied(t: Target, c: CIDRs, cut: nat)
    | Removed(cut: nat)

  function Commands(job: Job): (r: seq<Cmd>) {
    if job.Applied? then Script(job.t, job.c) else RemoveScript()
  }

  /** From k to k' by these jobs of the target. */
  ghost predicate History(k: Kernel, id: string, parse: Parser, jobs: seq<Job>, k': Kernel)
    decreases |jobs|
  {
    if jobs == [] then k' == k
    else
      var cmds := Commands(jobs[0]);
      && (jobs[0].Applied? ==> jobs[0].t.id == id) && jobs[0].cut <= |cmds|
      && var next := Exec(k, NamesOf(id), parse, cmds[..jobs[0].cut]);
         next.Some? && History(next.value, id, parse, jobs[1..], k')
  }

  lemma CommandsFit(job: Job, n: Names)
    requires job.Applied? ==> n == NamesOf(job.t.id)
    ensures AllFit(Commands(job), n)
  {
    if job.Applied? {
      ScriptFits(job.t, job.c);
    }
  }

  /** Whatever was run and wherever it stopped, the kernel is in order for the next run, and nothing that is
      not the target's has changed. */
  lemma {:induction false} HistoryInOrder(k: Kernel, id: string, parse: Parser, jobs: seq<Job>, k': Kernel)
    requires InOrder(k, NamesOf(id)) && History(k, id, parse, jobs, k')
    ensures InOrder(k', NamesOf(id)) && SameElse(k, k', NamesOf(id))
    decreases |jobs|
  {
    if jobs != [] {
      var n, cmds := NamesOf(id), Commands(jobs[0])[..jobs[0].cut];
      CommandsFit(jobs[0], n);
      ExecFollows(k, n, parse, cmds);
      var next := Exec(k, n, parse, cmds).value;
      HistoryInOrder(next, id, parse, jobs[1..], k');
      SameElseTrans(k, next, k', n);
    }
  }

  /** Convergence: after any history that began on a clean kernel, an allow-mode run with lists that can be
      added runs through, leaves one rule and one jump in each family, and drops exactly what the policy asks for. */
  lemma Converges(k0: Kernel, k: Kernel, jobs: seq<Job>, t: Target, c: CIDRs, parse: Parser)
    requires Clean(k0, NamesOf(t.id)) && History(k0, t.id, parse, jobs, k)
    requires t.mode != "deny" && Addable(parse, V4, c.v4) && Addable(parse, V6, c.v6)
    ensures Exec(k, NamesOf(t.id), parse, Script(t, c)).Some?
    ensures var n := NamesOf(t.id);
            var k' := Exec(k, n, parse, Script(t, c)).value;
            && (forall f :: && n.chain in k'.Of(f).chains && |k'.Of(f).chains[n.chain]| == 1
                            && Jumps(k'.Of(f).input, n.chain) == 1)
            && (forall p :: DroppedBy(k', n, p) <==> FilterOf(parse, true, FirewallPorts(t), c).Drops(p))
            && SameElse(k0, k', n)
  {
    var n := NamesOf(t.id);
    NamesDistinct(t.id);
    CleanIsGood(k0, n);
    HistoryInOrder(k0, t.id, parse, jobs, k);
    ScriptCompletes(k, t, c, parse);
    var k' := Exec(k, n, parse, Script(t, c)).value;
    SameElseTrans(k0, k, k', n);
    forall f ensures n.chain in k'.Of(f).chains && |k'.Of(f).chains[n.chain]| == 1
        && Jumps(k'.Of(f).input, n.chain) == 1 {
      OneRuleOneJump(k, t, c, parse, f);
    }
    forall p ensures DroppedBy(k', n, p) <==> FilterOf(parse, true, FirewallPorts(t), c).Drops(p) {
      CompletedDrops(k, t, c, parse, p);
    }
  }

  // ---------- the operator's own ranges ----------

  /** Entries that one set can hold: blocks of the family, none the whole space, none spelled in two ways. */
  predicate SetOk(parse: Parser, f: Family, es: set<string>) {
    && (forall e :: e in es ==> Storable(parse, f, e))
    && (forall a, b :: a in es && b in es && a != b ==> parse(a) != parse(b))
  }

  /** For a list without repetitions, what counts is which entries it has. */
  lemma AddableBySet(parse: Parser, f: Family, ls: seq<string>)
    requires Ascending(ls)
    ensures Addable(parse, f, ls) <==> SetOk(parse, f, Elements(ls))
  {
    if Addable(parse, f, ls) {
      forall a, b | a in Elements(ls) && b in Elements(ls) && a != b ensures parse(a) != parse(b) {
        var i :| 0 <= i < |ls| && ls[i] == a;
        var j :| 0 <= j < |ls| && ls[j] == b;
      }
    }
    if SetOk(parse, f, Elements(ls)) {
      forall i, j | 0 <= i < j < |ls| ensures parse(ls[i]) != parse(ls[j]) {
        LessIrreflexive(ls[i]);
        assert ls[i] in Elements(ls) && ls[j] in Elements(ls);
      }
      forall i | 0 <= i < |ls| ensures Storable(parse, f, ls[i]) {
        assert ls[i] in Elements(ls);
      }
    }
  }

  /** The operator's ranges go with a list of the family: the list itself can be added, and each range of
      the family is not the whole space and is spelled as any other entry, listed or extra, that denotes
      the same block. */
  predicate Mergeable(parse: Parser, f: Family, cidrs: seq<string>, extra: seq<string>) {
    && SetOk(parse, f, Elements(cidrs))
    && forall e :: e in ExtrasOf(parse, extra, f) ==>
         && parse(e).value.prefix != []
         && (forall x :: x in cidrs && parse(x) == parse(e) ==> x == e)
         && (forall x :: x in extra && parse(x) == parse(e) ==> x == e)
  }

  lemma MergeableSets(parse: Parser, f: Family, cidrs: seq<string>, extra: seq<string>)
    ensures Mergeable(parse, f, cidrs, extra) <==> SetOk(parse, f, Elements(cidrs) + ExtrasOf(parse, extra, f))
  {
    var es, xs := Elements(cidrs), ExtrasOf(parse, extra, f);
    if SetOk(parse, f, es + xs) {
      forall e | e in xs
        ensures parse(e).value.prefix != []
        ensures forall x :: x in cidrs && parse(x) == parse(e) ==> x == e
        ensures forall x :: x in extra && parse(x) == parse(e) ==> x == e
      {
        assert e in es + xs;
        forall x | (x in cidrs || x in extra) && parse(x) == parse(e) ensures x == e {
          assert x in es + xs;
        }
      }
    }
    if Mergeable(parse, f, cidrs, extra) {
      forall a, b | a in es + xs && b in es + xs && a != b ensures parse(a) != parse(b) {
        if a in xs || b in xs {
          OneSpelling(parse, f, cidrs, extra, a, b);
        }
      }
    }
  }

  lemma OneSpelling(parse: Parser, f: Family, cidrs: seq<string>, extra: seq<string>, a: string, b: string)
    requires Mergeable(parse, f, cidrs, extra) && a != b
    requires a in Elements(cidrs) + ExtrasOf(parse, extra, f) && b in Elements(cidrs) + ExtrasOf(parse, extra, f)
    requires a in ExtrasOf(parse, extra, f) || b in ExtrasOf(parse, extra, f)
    ensures parse(a) != parse(b)
  {
  }

  /** When the merged lists can be added, in terms of what is merged. */
  lemma ExtendedAddableExactly(m: CIDRs, parse: Parser, digest: Digest, extra: seq<string>, c: CIDRs, f: Family)
    requires Extended(m, parse, digest, extra, c)
    ensures Addable(parse, f, Cidrs(c, f)) <==> Mergeable(parse, f, Cidrs(m, f), extra)
  {
    AddableBySet(parse, f, Cidrs(c, f));
    MergeableSets(parse, f, Cidrs(m, f), extra);
  }

  /** A range spelled with host bits, say, stops the script when the provider lists its block. */
  lemma SpelledTwice(k: Kernel, t: Target, m: CIDRs, c: CIDRs, parse: Parser, digest: Digest, f: Family, e: string,
                     x: string)
    requires InOrder(k, NamesOf(t.id)) && Extended(m, parse, digest, t.adminAllowIPs, c)
    requires e in t.adminAllowIPs && x in Cidrs(m, f) && e != x
    requires parse(e).Some? && parse(e).value.family == f && parse(x) == parse(e)
    ensures Exec(k, NamesOf(t.id), parse, Script(t, c)).None?
  {
    assert e in ExtrasOf(parse, t.adminAllowIPs, f);
    ExtendedAddableExactly(m, parse, digest, t.adminAllowIPs, c, f);
    ScriptCompletes(k, t, c, parse);
  }

  /** Anti-lockout, down to the kernel: with the operator's own ranges merged in, neither the nftables
      ruleset nor, after any history, a completed iptables run drops a packet from one of them. */
  lemma AdminsAdmitted(k0: Kernel, k: Kernel, jobs: seq<Job>, t: Target, m: CIDRs, c: CIDRs, parse: Parser,
                       digest: Digest, e: string, p: Packet)
    requires Clean(k0, NamesOf(t.id)) && History(k0, t.id, parse, jobs, k)
    requires t.mode == "allow" && Extended(m, parse, digest, t.adminAllowIPs, c)
    requires Mergeable(parse, V4, m.v4, t.adminAllowIPs) && Mergeable(parse, V6, m.v6, t.adminAllowIPs)
    requires e in t.adminAllowIPs && parse(e).Some? && Contains(parse(e).value, p.src)
    ensures Exec(k, NamesOf(t.id), parse, Script(t, c)).Some?
    ensures !DroppedBy(Exec(k, NamesOf(t.id), parse, Script(t, c)).value, NamesOf(t.id), p)
    ensures !Nftables.Drops(Nftables.TableOf(t, c), parse, p)
  {
    ExtendedAddableExactly(m, parse, digest, t.adminAllowIPs, c, V4);
    ExtendedAddableExactly(m, parse, digest, t.adminAllowIPs, c, V6);
    Converges(k0, k, jobs, t, c, parse);
    AdminNeverDropped(m, parse, digest, t.adminAllowIPs, c, FirewallPorts(t), e, p);
    Nftables.TableDropsPolicy(t, c, parse, p);
  }

  // ---------- cut points ----------

  /** Commands that leave the base set alone. */
  predicate KeepsBase(cmd: Cmd) {
    !cmd.CreateBase? && !cmd.SwapSets? && !cmd.TryDestroyBase?
  }

  lemma {:induction false} BaseKept(h: Half, n: Names, parse: Parser, cmds: seq<Cmd>, f: Family)
    requires forall i :: 0 <= i < |cmds| ==> KeepsBase(cmds[i])
    requires HExec(h, n, parse, cmds, f).Some?
    ensures HExec(h, n, parse, cmds, f).value.base == h.base
    decreases |cmds|
  {
    if cmds != [] {
      if cmds[0].f != f {
        BaseKept(h, n, parse, cmds[1..], f);
      } else {
        BaseKept(HStep(h, n, parse, cmds[0]).value, n, parse, cmds[1..], f);
      }
    }
  }

  predicate KeepsChain(cmd: Cmd) {
    cmd.CreateBase? || cmd.CreateSwap? || cmd.FlushSwap? || cmd.AddNet? || cmd.SwapSets? || cmd.DestroySwap?
  }

  lemma {:induction false} ChainKept(h: Half, n: Names, parse: Parser, cmds: seq<Cmd>, f: Family)
    requires forall i :: 0 <= i < |cmds| ==> KeepsChain(cmds[i])
    requires HExec(h, n, parse, cmds, f).Some?
    ensures HExec(h, n, parse, cmds, f).value.chain == h.chain && HExec(h, n, parse, cmds, f).value.input == h.input
    decreases |cmds|
  {
    if cmds != [] {
      if cmds[0].f != f {
        ChainKept(h, n, parse, cmds[1..], f);
      } else {
        ChainKept(HStep(h, n, parse, cmds[0]).value, n, parse, cmds[1..], f);
      }
    }
  }

  /** The live set: some rule of the chain refers to it. */
  predicate Live(h: Half) {
    h.chain.Some? && exists i :: 0 <= i < |h.chain.value| && !h.chain.value[i].src.Any?
  }

  /** The base set holds what it held, or all that the script brings, or was just created and is not live. */
  predicate OldOrNew(h: Half, h': Half, nets: set<Cidr>) {
    || h'.base == h.base
    || h'.base == Some(nets)
    || (h.base.None? && h'.base == Some({}) && !Live(h'))
  }

  /** The commands after the two sets exist and before the swap, and after it. */
  lemma FamilyParts(f: Family, n: Names, ports: seq<int>, allow: bool, cidrs: seq<string>)
    requires cidrs != []
    ensures FamilyScript(f, n, ports, allow, cidrs)
            == Front(f, cidrs) + ([SwapSets(f)]
                                  + ([DestroySwap(f)] + Install(f, FamilyRule(f, n, ports, allow, cidrs))))
  {
    assert Fill(f, cidrs) == Front(f, cidrs) + [SwapSets(f), DestroySwap(f)];
  }

  /** Before the swap. */
  lemma CutInFront(h: Half, n: Names, parse: Parser, f: Family, cidrs: seq<string>, m: nat)
    requires HInv(h, n, f) && m <= |Front(f, cidrs)| && HExec(h, n, parse, Front(f, cidrs)[..m], f).Some?
    ensures OldOrNew(h, HExec(h, n, parse, Front(f, cidrs)[..m], f).value, NetSet(parse, cidrs))
  {
    var cmds := Front(f, cidrs)[..m];
    AddsOf(f, cidrs);
    assert forall i :: 0 <= i < m ==> KeepsChain(cmds[i]) && cmds[i].f == f;
    ChainKept(h, n, parse, cmds, f);
    if m > 0 {
      assert cmds[0] == CreateBase(f) && forall i :: 0 < i < m ==> KeepsBase(cmds[i]);
      BaseKept(HStep(h, n, parse, cmds[0]).value, n, parse, cmds[1..], f);
    }
  }

  /** One family's script, cut anywhere. */
  lemma CutFamily(h: Half, n: Names, parse: Parser, f: Family, ports: seq<int>, allow: bool, cidrs: seq<string>, m: nat)
    requires HInv(h, n, f) && m <= |FamilyScript(f, n, ports, allow, cidrs)|
    requires HExec(h, n, parse, FamilyScript(f, n, ports, allow, cidrs)[..m], f).Some?
    ensures OldOrNew(h, HExec(h, n, parse, FamilyScript(f, n, ports, allow, cidrs)[..m], f).value, NetSet(parse, cidrs))
  {
    var script := FamilyScript(f, n, ports, allow, cidrs);
    if cidrs == [] {
      BaseKept(h, n, parse, script[..m], f);
    } else {
      FamilyParts(f, n, ports, allow, cidrs);
      var front := Front(f, cidrs);
      var rest := [DestroySwap(f)] + Install(f, FamilyRule(f, n, ports, allow, cidrs));
      if m <= |front| {
        assert script[..m] == front[..m];
        CutInFront(h, n, parse, f, cidrs, m);
      } else {
        var tail := rest[..m - |front| - 1];
        assert script[..m] == front + ([SwapSets(f)] + tail);
        CutBehindSwap(h, n, parse, f, cidrs, tail);
      }
    }
  }

  lemma CutBehindSwap(h: Half, n: Names, parse: Parser, f: Family, cidrs: seq<string>, tail: seq<Cmd>)
    requires HInv(h, n, f) && HExec(h, n, parse, Front(f, cidrs) + ([SwapSets(f)] + tail), f).Some?
    requires forall i :: 0 <= i < |tail| ==> KeepsBase(tail[i])
    ensures OldOrNew(h, HExec(h, n, parse, Front(f, cidrs) + ([SwapSets(f)] + tail), f).value, NetSet(parse, cidrs))
  {
    var front := Front(f, cidrs);
    HExecConcat(h, n, parse, front, [SwapSets(f)] + tail, f);
    FrontFills(h, n, parse, f, cidrs);
    var h1 := HExec(h, n, parse, front, f).value;
    assert ([SwapSets(f)] + tail)[1..] == tail;
    BaseKept(HStep(h1, n, parse, SwapSets(f)).value, n, parse, tail, f);
  }

  /** Both families' scripts one after the other, cut anywhere, seen by one family. */
  lemma CutScript(h: Half, t: Target, c: CIDRs, parse: Parser, cut: nat, f: Family)
    requires HInv(h, NamesOf(t.id), f) && cut <= |Script(t, c)|
    requires HExec(h, NamesOf(t.id), parse, Script(t, c)[..cut], f).Some?
    ensures OldOrNew(h, HExec(h, NamesOf(t.id), parse, Script(t, c)[..cut], f).value, NetSet(parse, Cidrs(c, f)))
  {
    var n, ports, allow := NamesOf(t.id), FirewallPorts(t), t.mode != "deny";
    CutPair(h, n, parse, ports, allow, c, cut, f);
  }

  /** How many commands of a family are among the first `cut`, after a commands of the first family. */
  function PartOf(f: Family, a: nat, cut: nat): (m: nat) {
    if f.V4? then (if cut <= a then cut else a) else if cut <= a then 0 else cut - a
  }

  predicate AllOf(cmds: seq<Cmd>, f: Family) {
    forall i :: 0 <= i < |cmds| ==> cmds[i].f == f
  }

  /** Commands of the two families, one after the other, run for one of them. */
  lemma OneFamily(h: Half, n: Names, parse: Parser, a: seq<Cmd>, b: seq<Cmd>, f: Family)
    requires AllOf(a, V4) && AllOf(b, V6)
    ensures HExec(h, n, parse, a + b, f).Some?
            ==> HExec(h, n, parse, if f.V4? then a else b, f) == HExec(h, n, parse, a + b, f)
  {
    HExecConcat(h, n, parse, a, b, f);
    if f.V6? {
      HExecOther(h, n, parse, a, f);
    } else if HExec(h, n, parse, a, f).Some? {
      HExecOther(HExec(h, n, parse, a, f).value, n, parse, b, f);
    }
  }

  lemma CutParts(a: seq<Cmd>, b: seq<Cmd>, cut: nat)
    requires cut <= |a + b|
    ensures PartOf(V4, |a|, cut) <= |a| && PartOf(V6, |a|, cut) <= |b|
    ensures (a + b)[..cut] == a[..PartOf(V4, |a|, cut)] + b[..PartOf(V6, |a|, cut)]
  {
  }

  lemma CutPair(h: Half, n: Names, parse: Parser, ports: seq<int>, allow: bool, c: CIDRs, cut: nat, f: Family)
    requires var s := FamilyScript(V4, n, ports, allow, c.v4) + FamilyScript(V6, n, ports, allow, c.v6);
             HInv(h, n, f) && cut <= |s| && HExec(h, n, parse, s[..cut], f).Some?
    ensures var s := FamilyScript(V4, n, ports, allow, c.v4) + FamilyScript(V6, n, ports, allow, c.v6);
            OldOrNew(h, HExec(h, n, parse, s[..cut], f).value, NetSet(parse, Cidrs(c, f)))
  {
    var a, b := FamilyScript(V4, n, ports, allow, c.v4), FamilyScript(V6, n, ports, allow, c.v6);
    FamilyOf(V4, n, ports, allow, c.v4);
    FamilyOf(V6, n, ports, allow, c.v6);
    CutParts(a, b, cut);
    OneFamily(h, n, parse, a[..PartOf(V4, |a|, cut)], b[..PartOf(V6, |a|, cut)], f);
    CutFamily(h, n, parse, f, ports, allow, Cidrs(c, f), PartOf(f, |a|, cut));
  }

  /** At every cut point of a script, in each family: the live set holds its complete old or its complete
      new contents. */
  lemma LiveSetOldOrNew(k: Kernel, t: Target, c: CIDRs, parse: Parser, cut: nat, f: Family)
    requires InOrder(k, NamesOf(t.id)) && cut <= |Script(t, c)|
    requires Exec(k, NamesOf(t.id), parse, Script(t, c)[..cut]).Some?
    ensures OldOrNew(View(k, NamesOf(t.id), f),
                     View(Exec(k, NamesOf(t.id), parse, Script(t, c)[..cut]).value, NamesOf(t.id), f),
                     NetSet(parse, Cidrs(c, f)))
  {
    ScriptFits(t, c);
    ExecFollows(k, NamesOf(t.id), parse, Script(t, c)[..cut]);
    CutScript(View(k, NamesOf(t.id), f), t, c, parse, cut, f);
  }

  // ---------- removal ----------

  /** The family after removal: only a swap set can be left. */
  function Gone(h: Half, n: Names): (r: Half) {
    Half(None, h.swap, None, Others(h.input, n.chain))
  }

  lemma TeardownFamily(h: Half, n: Names, parse: Parser, f: Family)
    requires HInv(h, n, f)
    ensures HExec(h, n, parse, Teardown(f), f) == Some(h.(chain := None, input := Others(h.input, n.chain)))
  {
    var cmds := Teardown(f);
    assert cmds[1..] == [TryFlushChain(f), TryDeleteChain(f)] && cmds[1..][1..] == [TryDeleteChain(f)];
    JumpDeleted(h, n, parse, f);
    var h1 := HStep(h, n, parse, DeleteJump(f)).value;
    var h2 := HStep(h1, n, parse, TryFlushChain(f)).value;
    assert HExec(h2, n, parse, [TryDeleteChain(f)], f) == HStep(h2, n, parse, TryDeleteChain(f));
    assert HExec(h1, n, parse, cmds[1..], f) == HStep(h2, n, parse, TryDeleteChain(f));
  }

  lemma JumpDeleted(h: Half, n: Names, parse: Parser, f: Family)
    requires HInv(h, n, f)
    ensures HStep(h, n, parse, DeleteJump(f)) == Some(h.(input := Others(h.input, n.chain)))
    ensures JumpTo(n.chain) !in Others(h.input, n.chain)
  {
    WithoutFirstJumps(h.input, n.chain);
    NoJumps(WithoutFirst(h.input, n.chain), n.chain);
    JumpsIn(WithoutFirst(h.input, n.chain), n.chain);
  }

  lemma TeardownBoth(h: Half, n: Names, parse: Parser, f: Family)
    requires HInv(h, n, f)
    ensures HExec(h, n, parse, Teardown(V4) + Teardown(V6), f)
            == Some(h.(chain := None, input := Others(h.input, n.chain)))
  {
    TeardownFamily(h, n, parse, f);
    HExecConcat(h, n, parse, Teardown(V4), Teardown(V6), f);
    if f.V4? {
      HExecOther(h.(chain := None, input := Others(h.input, n.chain)), n, parse, Teardown(V6), V4);
    } else {
      HExecOther(h, n, parse, Teardown(V4), V6);
    }
  }

  lemma DestroyBoth(h: Half, n: Names, parse: Parser, f: Family)
    requires h.chain.None?
    ensures HExec(h, n, parse, [TryDestroyBase(V4), TryDestroyBase(V6)], f) == Some(h.(base := None))
  {
    var a, b := TryDestroyBase(V4), TryDestroyBase(V6);
    assert [a, b][1..] == [b];
    assert HExec(h, n, parse, [b], V6) == HStep(h, n, parse, b);
    HExecOther(h.(base := None), n, parse, [b], V4);
    assert HExec(h, n, parse, [a, b], V4) == HExec(HStep(h, n, parse, a).value, n, parse, [b], V4);
    assert HExec(h, n, parse, [a, b], V6) == HExec(h, n, parse, [b], V6);
  }

  lemma RemoveFamily(h: Half, n: Names, parse: Parser, f: Family)
    requires HInv(h, n, f)
    ensures HExec(h, n, parse, RemoveScript(), f) == Some(Gone(h, n))
  {
    TeardownBoth(h, n, parse, f);
    HExecConcat(h, n, parse, Teardown(V4) + Teardown(V6), [TryDestroyBase(V4), TryDestroyBase(V6)], f);
    DestroyBoth(h.(chain := None, input := Others(h.input, n.chain)), n, parse, f);
  }

  /** Removal always runs through: no chain, no jump and no base set of the target is left; a swap set is
      left exactly if one was there, that is, after an interrupted run. */
  lemma RemoveCompletes(k: Kernel, id: string, parse: Parser)
    requires InOrder(k, NamesOf(id))
    ensures Exec(k, NamesOf(id), parse, RemoveScript()).Some?
    ensures var n := NamesOf(id);
            var k' := Exec(k, n, parse, RemoveScript()).value;
            && InOrder(k', n) && SameElse(k, k', n)
            && View(k', n, V4) == Gone(View(k, n, V4), n) && View(k', n, V6) == Gone(View(k, n, V6), n)
  {
    var n := NamesOf(id);
    ExecFollows(k, n, parse, RemoveScript());
    RemoveFamily(View(k, n, V4), n, parse, V4);
    RemoveFamily(View(k, n, V6), n, parse, V6);
  }

  /** Neither family has a swap set. */
  predicate NoSwap(k: Kernel, n: Names) {
    n.swap4 !in k.sets && n.swap6 !in k.sets
  }

  ghost predicate AllComplete(jobs: seq<Job>) {
    forall i :: 0 <= i < |jobs| ==> jobs[i].cut == |Commands(jobs[i])|
  }

  lemma JobLeavesNoSwap(k: Kernel, id: string, parse: Parser, job: Job)
    requires InOrder(k, NamesOf(id)) && NoSwap(k, NamesOf(id)) && (job.Applied? ==> job.t.id == id)
    requires Exec(k, NamesOf(id), parse, Commands(job)).Some?
    ensures var next := Exec(k, NamesOf(id), parse, Commands(job)).value;
            InOrder(next, NamesOf(id)) && NoSwap(next, NamesOf(id))
  {
    var n := NamesOf(id);
    if job.Applied? {
      ScriptCompletes(k, job.t, job.c, parse);
    } else {
      RemoveCompletes(k, id, parse);
    }
    NoSwapView(k, n);
    NoSwapView(Exec(k, n, parse, Commands(job)).value, n);
  }

  lemma {:induction false} CompleteLeavesNoSwap(k: Kernel, id: string, parse: Parser, jobs: seq<Job>, k': Kernel)
    requires InOrder(k, NamesOf(id)) && NoSwap(k, NamesOf(id)) && History(k, id, parse, jobs, k') && AllComplete(jobs)
    ensures NoSwap(k', NamesOf(id))
    decreases |jobs|
  {
    if jobs != [] {
      var cmds := Commands(jobs[0]);
      assert cmds[..jobs[0].cut] == cmds;
      JobLeavesNoSwap(k, id, parse, jobs[0]);
      assert forall i :: 0 <= i < |jobs| - 1 ==> jobs[1..][i] == jobs[i + 1];
      CompleteLeavesNoSwap(Exec(k, NamesOf(id), parse, cmds).value, id, parse, jobs[1..], k');
    }
  }

  lemma NoSwapView(k: Kernel, n: Names)
    ensures NoSwap(k, n) <==> View(k, n, V4).swap.None? && View(k, n, V6).swap.None?
  {
  }

  /** After a removal, the kernel is the one of before exactly where only the target's things can differ. */
  lemma BackToClean(k0: Kernel, k: Kernel, n: Names)
    requires Clean(k0, n) && n.Distinct() && SameElse(k0, k, n) && NoSwap(k, n)
    requires View(k, n, V4).base.None? && View(k, n, V6).base.None? && View(k, n, V4).chain.None?
             && View(k, n, V6).chain.None?
    requires Jumps(k.t4.input, n.chain) == 0 && Jumps(k.t6.input, n.chain) == 0
    ensures k == k0
  {
    assert k.sets == k.sets - n.Sets() == k0.sets - n.Sets() == k0.sets;
    assert k.t4.chains == k.t4.chains - {n.chain} == k0.t4.chains - {n.chain} == k0.t4.chains;
    assert k.t6.chains == k.t6.chains - {n.chain} == k0.t6.chains - {n.chain} == k0.t6.chains;
    JumpsIn(k0.t4.input, n.chain);
    JumpsIn(k0.t6.input, n.chain);
    NoJumps(k.t4.input, n.chain);
    NoJumps(k0.t4.input, n.chain);
    NoJumps(k.t6.input, n.chain);
    NoJumps(k0.t6.input, n.chain);
  }

  lemma {:induction false} OthersJumpless(input: seq<InputRule>, chain: string)
    ensures Jumps(Others(input, chain), chain) == 0
  {
    if input != [] {
      OthersJumpless(input[1..], chain);
      assert Others(input, chain) == (if input[0] == JumpTo(chain) then Others(input[1..], chain)
                                      else [input[0]] + Others(input[1..], chain));
      if input[0] != JumpTo(chain) {
        assert Others(input, chain)[1..] == Others(input[1..], chain);
      }
    }
  }

  /** Any number of complete runs on a clean kernel, then removal: the kernel is as it was before, INPUT
      chains, chains and sets. */
  lemma RemovalRestores(k0: Kernel, k: Kernel, id: string, parse: Parser, jobs: seq<Job>)
    requires Clean(k0, NamesOf(id)) && History(k0, id, parse, jobs, k) && AllComplete(jobs)
    ensures Exec(k, NamesOf(id), parse, RemoveScript()) == Some(k0)
  {
    var n := NamesOf(id);
    NamesDistinct(id);
    CleanIsGood(k0, n);
    HistoryInOrder(k0, id, parse, jobs, k);
    CompleteLeavesNoSwap(k0, id, parse, jobs, k);
    RemoveCompletes(k, id, parse);
    var k' := Exec(k, n, parse, RemoveScript()).value;
    SameElseTrans(k0, k, k', n);
    NoSwapView(k, n);
    NoSwapView(k', n);
    OthersJumpless(k.t4.input, n.chain);
    OthersJumpless(k.t6.input, n.chain);
    assert View(k', n, V4).input == Others(k.t4.input, n.chain) && View(k', n, V6).input == Others(k.t6.input, n.chain);
    BackToClean(k0, k', n);
  }
}
