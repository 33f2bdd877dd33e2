/** One address family of a target, seen alone: what its commands do there, and that they touch nothing else. */
module IptablesHalf {
  import opened Text
  import opened Policy
  import opened Iptables

  /** A target's sets and chain of one family, and the INPUT chain of that family. */
  datatype Half = Half(base: Option<set<Cidr>>, swap: Option<set<Cidr>>, chain: Option<seq<Rule>>,
                       input: seq<InputRule>)

  function Contents(k: Kernel, name: string): (r: Option<set<Cidr>>) {
    if name in k.sets then Some(k.sets[name].nets) else None
  }

  function ChainOf(t: Table, chain: string): (r: Option<seq<Rule>>) {
    if chain in t.chains then Some(t.chains[chain]) else None
  }

  function View(k: Kernel, n: Names, f: Family): (h: Half) {
    Half(Contents(k, n.Base(f)), Contents(k, n.Swap(f)), ChainOf(k.Of(f), n.chain), k.Of(f).input)
  }

  /** What a command does to the family it names. */
  function HStep(h: Half, n: Names, parse: Parser, cmd: Cmd): (r: Option<Half>) {
    match cmd
    case CreateBase(_) => Some(if h.base.Some? then h else h.(base := Some({})))
    case CreateSwap(_) => Some(if h.swap.Some? then h else h.(swap := Some({})))
    case FlushSwap(_) => if h.swap.Some? then Some(h.(swap := Some({}))) else None
    case AddNet(f, entry) =>
      if h.swap.Some? && Storable(parse, f, entry) && parse(entry).value !in h.swap.value
      then Some(h.(swap := Some(h.swap.value + {parse(entry).value}))) else None
    case SwapSets(_) => if h.swap.Some? && h.base.Some? then Some(h.(base := h.swap, swap := h.base)) else None
    case DestroySwap(_) => if h.swap.Some? then Some(h.(swap := None)) else None
    case NewChain(_) => Some(if h.chain.Some? then h else h.(chain := Some([])))
    case FlushChain(_) => if h.chain.Some? then Some(h.(chain := Some([]))) else None
    case Append(_, rule) =>
      if h.chain.Some? && (rule.src.Any? || h.base.Some?) then Some(h.(chain := Some(h.chain.value + [rule]))) else None
    case EnsureJump(_) =>
      if JumpTo(n.chain) in h.input then Some(h)
      else if h.chain.Some? then Some(h.(input := [JumpTo(n.chain)] + h.input)) else None
    case DeleteJump(_) => Some(h.(input := WithoutFirst(h.input, n.chain)))
    case TryFlushChain(_) => Some(if h.chain.Some? then h.(chain := Some([])) else h)
    case TryDeleteChain(_) => Some(if h.chain == Some([]) && JumpTo(n.chain) !in h.input then h.(chain := None) else h)
    case TryDestroyBase(f) =>
      Some(if h.base.Some?
              && (h.chain.None? || forall i :: 0 <= i < |h.chain.value| ==> !Mentions(h.chain.value[i], n.Base(f)))
           then h.(base := None) else h)
  }

  // ---------- the INPUT chain ----------

  function Jumps(input: seq<InputRule>, chain: string): (c: nat) {
    if input == [] then 0 else (if input[0] == JumpTo(chain) then 1 else 0) + Jumps(input[1..], chain)
  }

  /** The INPUT chain without the target's jumps. */
  function Others(input: seq<InputRule>, chain: string): (r: seq<InputRule>) {
    if input == [] then [] else (if input[0] == JumpTo(chain) then [] else [input[0]]) + Others(input[1..], chain)
  }

  lemma {:induction false} JumpsIn(input: seq<InputRule>, chain: string)
    ensures Jumps(input, chain) > 0 <==> JumpTo(chain) in input
  {
    if input != [] {
      JumpsIn(input[1..], chain);
    }
  }

  lemma {:induction false} WithoutFirstJumps(input: seq<InputRule>, chain: string)
    ensures Others(WithoutFirst(input, chain), chain) == Others(input, chain)
    ensures Jumps(WithoutFirst(input, chain), chain) == if Jumps(input, chain) > 0 then Jumps(input, chain) - 1 else 0
  {
    if input != [] {
      var rest := input[1..];
      Units(Others(rest, chain));
      if input[0] != JumpTo(chain) {
        WithoutFirstJumps(rest, chain);
        var out := [input[0]] + WithoutFirst(rest, chain);
        assert WithoutFirst(input, chain) == out && out[1..] == WithoutFirst(rest, chain);
      }
    }
  }

  lemma {:induction false} NoJumps(input: seq<InputRule>, chain: string)
    requires Jumps(input, chain) == 0
    ensures Others(input, chain) == input
  {
    if input != [] {
      NoJumps(input[1..], chain);
    }
  }

  lemma JumpAdded(input: seq<InputRule>, chain: string)
    ensures Others([JumpTo(chain)] + input, chain) == Others(input, chain)
    ensures Jumps([JumpTo(chain)] + input, chain) == Jumps(input, chain) + 1
  {
    assert ([JumpTo(chain)] + input)[1..] == input;
  }

  // ---------- what always holds ----------

  predicate RuleFits(r: Rule, n: Names, f: Family) {
    r.src.Any? || r.src.set_ == n.Base(f)
  }

  /** At most one jump, to a chain that exists, whose rules refer to the base set only, if it exists. */
  predicate HInv(h: Half, n: Names, f: Family) {
    && Jumps(h.input, n.chain) <= 1
    && (JumpTo(n.chain) in h.input ==> h.chain.Some?)
    && (h.chain.Some? ==> forall i :: 0 <= i < |h.chain.value| ==>
          RuleFits(h.chain.value[i], n, f) && (h.chain.value[i].src.Any? || h.base.Some?))
  }

  predicate Fits(cmd: Cmd, n: Names) {
    cmd.Append? ==> RuleFits(cmd.rule, n, cmd.f)
  }

  /** Every command keeps the invariant of its family. */
  lemma StepKeepsInv(h: Half, n: Names, parse: Parser, cmd: Cmd)
    requires HInv(h, n, cmd.f) && Fits(cmd, n) && HStep(h, n, parse, cmd).Some?
    ensures HInv(HStep(h, n, parse, cmd).value, n, cmd.f)
    ensures Others(HStep(h, n, parse, cmd).value.input, n.chain) == Others(h.input, n.chain)
  {
    var f := cmd.f;
    JumpsIn(h.input, n.chain);
    if cmd.EnsureJump? {
      JumpAdded(h.input, n.chain);
    } else if cmd.DeleteJump? {
      WithoutFirstJumps(h.input, n.chain);
      JumpsIn(WithoutFirst(h.input, n.chain), n.chain);
    } else if cmd.TryDestroyBase? && h.chain.Some? {
      var rules := h.chain.value;
      assert forall i :: 0 <= i < |rules| && !Mentions(rules[i], n.Base(f)) ==> rules[i].src.Any?;
    }
  }

  // ---------- from the family to the kernel ----------

  /** Rules of other chains do not refer to the target's sets. */
  predicate ChainsApart(chains: map<string, seq<Rule>>, n: Names) {
    forall c, i :: c in chains && c != n.chain && 0 <= i < |chains[c]|
        ==> chains[c][i].src.Any? || chains[c][i].src.set_ !in n.Sets()
  }

  predicate SetFits(k: Kernel, name: string, f: Family) {
    name in k.sets ==> k.sets[name].family == f
  }

  predicate SetsFit(k: Kernel, n: Names) {
    SetFits(k, n.base4, V4) && SetFits(k, n.swap4, V4) && SetFits(k, n.base6, V6) && SetFits(k, n.swap6, V6)
  }

  /** A kernel on which a target's scripts work: the names are the target's own, and both families are in order. */
  predicate InOrder(k: Kernel, n: Names) {
    && n.Distinct() && SetsFit(k, n)
    && ChainsApart(k.t4.chains, n) && ChainsApart(k.t6.chains, n)
    && HInv(View(k, n, V4), n, V4) && HInv(View(k, n, V6), n, V6)
  }

  /** Everything that is not the target's is the same. */
  predicate SameElse(k: Kernel, k': Kernel, n: Names) {
    && k'.sets - n.Sets() == k.sets - n.Sets()
    && k'.t4.chains - {n.chain} == k.t4.chains - {n.chain} && k'.t6.chains - {n.chain} == k.t6.chains - {n.chain}
    && Others(k'.t4.input, n.chain) == Others(k.t4.input, n.chain)
        && Others(k'.t6.input, n.chain) == Others(k.t6.input, n.chain)
  }

  function Other(f: Family): (g: Family) {
    if f.V4? then V6 else V4
  }

  /** The kernel after the command, seen family by family; nothing else changed. */
  ghost predicate Follows(k: Kernel, n: Names, parse: Parser, cmd: Cmd) {
    var r, h := Step(k, n, parse, cmd), HStep(View(k, n, cmd.f), n, parse, cmd);
    && (r.Some? <==> h.Some?)
    && (r.Some? ==>
          && View(r.value, n, cmd.f) == h.value
          && View(r.value, n, Other(cmd.f)) == View(k, n, Other(cmd.f))
          && SetsFit(r.value, n) && SameElse(k, r.value, n))
  }

  lemma SetUpdated(k: Kernel, n: Names, name: string, s: IpSet, f: Family)
    requires n.Distinct() && SetsFit(k, n) && (name == n.Base(f) || name == n.Swap(f)) && s.family == f
    ensures var k' := k.(sets := k.sets[name := s]);
            && SetsFit(k', n) && SameElse(k, k', n)
            && View(k', n, Other(f)) == View(k, n, Other(f))
            && View(k', n, f) == (if name == n.Base(f) then View(k, n, f).(base := Some(s.nets))
                                  else View(k, n, f).(swap := Some(s.nets)))
  {
    var k' := k.(sets := k.sets[name := s]);
    assert k'.sets - n.Sets() == k.sets - n.Sets();
  }

  lemma SetDropped(k: Kernel, n: Names, name: string, f: Family)
    requires n.Distinct() && SetsFit(k, n) && (name == n.Base(f) || name == n.Swap(f))
    ensures var k' := k.(sets := k.sets - {name});
            && SetsFit(k', n) && SameElse(k, k', n)
            && View(k', n, Other(f)) == View(k, n, Other(f))
            && View(k', n, f) == (if name == n.Base(f) then View(k, n, f).(base := None)
                                  else View(k, n, f).(swap := None))
  {
    var k' := k.(sets := k.sets - {name});
    assert k'.sets - n.Sets() == k.sets - n.Sets();
  }

  /** A set of the target is referred to exactly if its family's chain mentions it. */
  lemma ReferencedByOwn(k: Kernel, n: Names, name: string, f: Family)
    requires InOrder(k, n) && (name == n.Base(f) || name == n.Swap(f))
    ensures Referenced(k, name) <==>
            var chain := View(k, n, f).chain;
            chain.Some? && exists i :: 0 <= i < |chain.value| && Mentions(chain.value[i], name)
  {
    InOwnChain(k, n, name, f, f);
    InOwnChain(k, n, name, f, Other(f));
  }

  lemma InOwnChain(k: Kernel, n: Names, name: string, f: Family, g: Family)
    requires InOrder(k, n) && (name == n.Base(f) || name == n.Swap(f))
    ensures InChains(k.Of(g).chains, name) <==>
            && g == f && n.chain in k.Of(g).chains
            && exists i :: 0 <= i < |k.Of(g).chains[n.chain]| && Mentions(k.Of(g).chains[n.chain][i], name)
  {
    var chains := k.Of(g).chains;
    assert ChainsApart(chains, n) && HInv(View(k, n, g), n, g);
    if InChains(chains, name) {
      var c, i :| c in chains && 0 <= i < |chains[c]| && Mentions(chains[c][i], name);
      assert name in n.Sets();
      assert c == n.chain;
      assert View(k, n, g).chain == Some(chains[c]);
      assert RuleFits(View(k, n, g).chain.value[i], n, g);
    }
  }

  lemma FollowsSets(k: Kernel, n: Names, parse: Parser, cmd: Cmd)
    requires InOrder(k, n)
    requires cmd.CreateBase? || cmd.CreateSwap? || cmd.FlushSwap? || cmd.AddNet?
    ensures Follows(k, n, parse, cmd)
  {
    var f := cmd.f;
    var name := if cmd.CreateBase? then n.Base(f) else n.Swap(f);
    var r := Step(k, n, parse, cmd);
    if r.Some? && r.value != k {
      SetUpdated(k, n, name, r.value.sets[name], f);
    }
  }

  lemma FollowsSwap(k: Kernel, n: Names, parse: Parser, f: Family)
    requires InOrder(k, n)
    ensures Follows(k, n, parse, SwapSets(f))
  {
    var a, b := n.Swap(f), n.Base(f);
    if a in k.sets && b in k.sets {
      SetUpdated(k, n, a, k.sets[b], f);
      SetUpdated(k.(sets := k.sets[a := k.sets[b]]), n, b, k.sets[a], f);
    }
  }

  lemma FollowsDestroySwap(k: Kernel, n: Names, parse: Parser, f: Family)
    requires InOrder(k, n)
    ensures Follows(k, n, parse, DestroySwap(f))
  {
    ReferencedByOwn(k, n, n.Swap(f), f);
    var chain := View(k, n, f).chain;
    if chain.Some? {
      assert forall i :: 0 <= i < |chain.value| ==> RuleFits(chain.value[i], n, f);
    }
    SetDropped(k, n, n.Swap(f), f);
  }

  lemma FollowsDestroyBase(k: Kernel, n: Names, parse: Parser, f: Family)
    requires InOrder(k, n)
    ensures Follows(k, n, parse, TryDestroyBase(f))
  {
    ReferencedByOwn(k, n, n.Base(f), f);
    SetDropped(k, n, n.Base(f), f);
  }

  lemma TableChanged(k: Kernel, n: Names, f: Family, t: Table)
    requires SetsFit(k, n) && t.chains - {n.chain} == k.Of(f).chains - {n.chain}
    requires Others(t.input, n.chain) == Others(k.Of(f).input, n.chain)
    ensures SetsFit(k.With(f, t), n) && SameElse(k, k.With(f, t), n)
    ensures View(k.With(f, t), n, Other(f)) == View(k, n, Other(f))
    ensures View(k.With(f, t), n, f) == View(k, n, f).(chain := ChainOf(t, n.chain), input := t.input)
  {
  }

  lemma ChainSet(k: Kernel, n: Names, f: Family, rules: seq<Rule>)
    requires SetsFit(k, n)
    ensures var k' := SetChain(k, f, n.chain, rules);
            && SetsFit(k', n) && SameElse(k, k', n)
            && View(k', n, Other(f)) == View(k, n, Other(f))
            && View(k', n, f) == View(k, n, f).(chain := Some(rules))
  {
    var t := k.Of(f);
    var t' := t.(chains := t.chains[n.chain := rules]);
    assert t'.chains - {n.chain} == t.chains - {n.chain};
    TableChanged(k, n, f, t');
  }

  lemma FollowsChains(k: Kernel, n: Names, parse: Parser, cmd: Cmd)
    requires InOrder(k, n) && Fits(cmd, n)
    requires cmd.NewChain? || cmd.FlushChain? || cmd.TryFlushChain?
    ensures Follows(k, n, parse, cmd)
  {
    ChainSet(k, n, cmd.f, []);
  }

  lemma FollowsAppend(k: Kernel, n: Names, parse: Parser, cmd: Cmd)
    requires InOrder(k, n) && Fits(cmd, n) && cmd.Append?
    ensures Follows(k, n, parse, cmd)
  {
    var t := k.Of(cmd.f);
    if n.chain in t.chains {
      ChainSet(k, n, cmd.f, t.chains[n.chain] + [cmd.rule]);
    }
  }

  lemma FollowsDelete(k: Kernel, n: Names, parse: Parser, f: Family)
    requires InOrder(k, n)
    ensures Follows(k, n, parse, TryDeleteChain(f))
  {
    var t := k.Of(f);
    var t' := t.(chains := t.chains - {n.chain});
    assert t'.chains - {n.chain} == t.chains - {n.chain};
    TableChanged(k, n, f, t');
  }

  lemma FollowsJump(k: Kernel, n: Names, parse: Parser, f: Family)
    requires InOrder(k, n)
    ensures Follows(k, n, parse, EnsureJump(f))
  {
    var t := k.Of(f);
    JumpAdded(t.input, n.chain);
    TableChanged(k, n, f, t.(input := [JumpTo(n.chain)] + t.input));
  }

  lemma FollowsUnjump(k: Kernel, n: Names, parse: Parser, f: Family)
    requires InOrder(k, n)
    ensures Follows(k, n, parse, DeleteJump(f))
  {
    var t := k.Of(f);
    WithoutFirstJumps(t.input, n.chain);
    TableChanged(k, n, f, t.(input := WithoutFirst(t.input, n.chain)));
  }

  /** Every command does to the kernel what it does to its family, and nothing else; the kernel stays good. */
  lemma StepFollows(k: Kernel, n: Names, parse: Parser, cmd: Cmd)
    requires InOrder(k, n) && Fits(cmd, n)
    ensures Follows(k, n, parse, cmd)
    ensures Step(k, n, parse, cmd).Some? ==> InOrder(Step(k, n, parse, cmd).value, n)
  {
    match cmd {
      case CreateBase(_) => FollowsSets(k, n, parse, cmd);
      case CreateSwap(_) => FollowsSets(k, n, parse, cmd);
      case FlushSwap(_) => FollowsSets(k, n, parse, cmd);
      case AddNet(_, _) => FollowsSets(k, n, parse, cmd);
      case SwapSets(f) => FollowsSwap(k, n, parse, f);
      case DestroySwap(f) => FollowsDestroySwap(k, n, parse, f);
      case TryDestroyBase(f) => FollowsDestroyBase(k, n, parse, f);
      case EnsureJump(f) => FollowsJump(k, n, parse, f);
      case DeleteJump(f) => FollowsUnjump(k, n, parse, f);
      case Append(_, _) => FollowsAppend(k, n, parse, cmd);
      case TryDeleteChain(f) => FollowsDelete(k, n, parse, f);
      case _ => FollowsChains(k, n, parse, cmd);
    }
    FollowsGood(k, n, parse, cmd);
  }

  lemma FollowsGood(k: Kernel, n: Names, parse: Parser, cmd: Cmd)
    requires InOrder(k, n) && Fits(cmd, n) && Follows(k, n, parse, cmd)
    ensures Step(k, n, parse, cmd).Some? ==> InOrder(Step(k, n, parse, cmd).value, n)
  {
    var r := Step(k, n, parse, cmd);
    if r.Some? {
      StepKeepsInv(View(k, n, cmd.f), n, parse, cmd);
      ApartKept(k.t4.chains, r.value.t4.chains, n);
      ApartKept(k.t6.chains, r.value.t6.chains, n);
    }
  }

  lemma ApartKept(chains: map<string, seq<Rule>>, chains': map<string, seq<Rule>>, n: Names)
    requires ChainsApart(chains, n) && chains' - {n.chain} == chains - {n.chain}
    ensures ChainsApart(chains', n)
  {
    forall c, i | c in chains' && c != n.chain && 0 <= i < |chains'[c]|
      ensures chains'[c][i].src.Any? || chains'[c][i].src.set_ !in n.Sets()
    {
      assert c in chains' - {n.chain};
      assert (chains - {n.chain})[c] == (chains' - {n.chain})[c];
    }
  }
}
