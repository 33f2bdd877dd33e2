/** The iptables engine: the commands of its scripts, and the kernel state they work on. */
module Iptables {
  import opened Text
  import opened Policy
  import opened Fetcher
  import opened Targets
  import HAProxy

  // ---------- kernel state ----------

  /** What a chain rule asks of the source address: outside a set, inside it, or nothing. */
  datatype Source = Outside(set_: string) | Inside(set_: string) | Any

  /** Drops new TCP packets to the ports. */
  datatype Rule = Rule(ports: seq<int>, src: Source)

  datatype InputRule = JumpTo(chain: string) | Other(text: string)

  datatype Table = Table(input: seq<InputRule>, chains: map<string, seq<Rule>>)

  datatype IpSet = IpSet(family: Family, nets: set<Cidr>)

  datatype Kernel = Kernel(sets: map<string, IpSet>, t4: Table, t6: Table) {
    function Of(f: Family): (t: Table) {
      if f.V4? then t4 else t6
    }

    function With(f: Family, t: Table): (k: Kernel)
      ensures k.Of(f) == t && k.sets == sets && forall g :: g != f ==> k.Of(g) == Of(g)
    {
      if f.V4? then this.(t4 := t) else this.(t6 := t)
    }
  }

  /** The names that a target's scripts use. */
  datatype Names = Names(chain: string, base4: string, swap4: string, base6: string, swap6: string) {
    function Base(f: Family): (n: string) {
      if f.V4? then base4 else base6
    }

    function Swap(f: Family): (n: string) {
      if f.V4? then swap4 else swap6
    }

    function Sets(): (s: set<string>) {
      {base4, swap4, base6, swap6}
    }

    predicate Distinct() {
      base4 != swap4 && base4 != base6 && base4 != swap6 && swap4 != base6 && swap4 != swap6 && base6 != swap6
    }
  }

  function SetBase(id: string, f: Family): (r: string) {
    "ipwatch_" + HAProxy.Sanitize(id) + (if f.V4? then "_v4" else "_v6")
  }

  function NamesOf(id: string): (r: Names) {
    Names("IPWATCH_" + HAProxy.Sanitize(id), SetBase(id, V4), SetBase(id, V4) + "t", SetBase(id, V6),
          SetBase(id, V6) + "t")
  }

  lemma NamesDistinct(id: string)
    ensures NamesOf(id).Distinct()
  {
    var n := NamesOf(id);
    assert n.base4[|n.base4| - 1] == '4' && n.base6[|n.base6| - 1] == '6';
    assert n.swap4[|n.swap4| - 2] == '4' && n.swap6[|n.swap6| - 2] == '6';
    assert |n.swap4| == |n.base4| + 1 && |n.base4| == |n.base6| && |n.swap6| == |n.base6| + 1;
  }

  lemma ApartInside(p: string, a: string, x: string, b: string, y: string)
    requires a != b && |x| == |y|
    ensures p + a + x != p + b + y
  {
    var l, r := p + a + x, p + b + y;
    assert a == l[|p|..|l| - |x|] && b == r[|p|..|r| - |y|];
  }

  lemma ApartAtEnd(a: string, b: string)
    requires a != "" && b != "" && a[|a| - 1] != b[|b| - 1]
    ensures a != b
  {
  }

  lemma SetsApart(a: string, f: Family, b: string, g: Family)
    requires HAProxy.Sanitize(a) != HAProxy.Sanitize(b)
    ensures SetBase(a, f) != SetBase(b, g) && SetBase(a, f) + "t" != SetBase(b, g) + "t"
            && SetBase(a, f) + "t" != SetBase(b, g)
  {
    var x, y := SetBase(a, f), SetBase(b, g);
    ApartInside("ipwatch_", HAProxy.Sanitize(a), if f.V4? then "_v4" else "_v6",
                HAProxy.Sanitize(b), if g.V4? then "_v4" else "_v6");
    assert (x + "t")[..|x|] == x && (y + "t")[..|y|] == y;
    assert (x + "t")[|x|] == 't' && y[|y| - 1] != 't';
    ApartAtEnd(x + "t", y);
  }

  /** No set of one is a set of the other. */
  predicate Foreign(na: Names, nb: Names, f: Family, g: Family) {
    na.Base(f) != nb.Base(g) && na.Swap(f) != nb.Swap(g) && na.Swap(f) != nb.Base(g) && na.Base(f) != nb.Swap(g)
  }

  lemma SetsForeign(a: string, b: string, f: Family, g: Family)
    requires HAProxy.Sanitize(a) != HAProxy.Sanitize(b)
    ensures Foreign(NamesOf(a), NamesOf(b), f, g)
  {
    SetsApart(a, f, b, g);
    SetsApart(b, g, a, f);
  }

  lemma AllForeign(na: Names, nb: Names)
    requires Foreign(na, nb, V4, V4) && Foreign(na, nb, V4, V6) && Foreign(na, nb, V6, V4) && Foreign(na, nb, V6, V6)
    ensures na.Sets() !! nb.Sets()
  {
  }

  /** Different sanitized ids share neither chain nor set. */
  lemma NamesApart(a: string, b: string)
    requires HAProxy.Sanitize(a) != HAProxy.Sanitize(b)
    ensures NamesOf(a).chain != NamesOf(b).chain && NamesOf(a).Sets() !! NamesOf(b).Sets()
  {
    SetsForeign(a, b, V4, V4);
    SetsForeign(a, b, V4, V6);
    SetsForeign(a, b, V6, V4);
    SetsForeign(a, b, V6, V6);
    AllForeign(NamesOf(a), NamesOf(b));
    ChainNamesDiffer(HAProxy.Sanitize(a), HAProxy.Sanitize(b));
  }

  lemma ChainNamesDiffer(a: string, b: string)
    requires a != b
    ensures "IPWATCH_" + a != "IPWATCH_" + b
  {
    assert ("IPWATCH_" + a)[8..] == a && ("IPWATCH_" + b)[8..] == b;
  }

  // ---------- commands ----------

  /** One line of a script. The last four end in `|| true`. */
  datatype Cmd =
    | CreateBase(f: Family)
    | CreateSwap(f: Family)
    | FlushSwap(f: Family)
    | AddNet(f: Family, entry: string)
    | SwapSets(f: Family)
    | DestroySwap(f: Family)
    | NewChain(f: Family)
    | FlushChain(f: Family)
    | Append(f: Family, rule: Rule)
    | EnsureJump(f: Family)
    | DeleteJump(f: Family)
    | TryFlushChain(f: Family)
    | TryDeleteChain(f: Family)
    | TryDestroyBase(f: Family)

  /** An entry that a hash:net set of the family takes: a block of that family other than the whole space. */
  predicate Storable(parse: Parser, f: Family, entry: string) {
    parse(entry).Some? && parse(entry).value.family == f && parse(entry).value.prefix != []
  }

  predicate Mentions(r: Rule, name: string) {
    !r.src.Any? && r.src.set_ == name
  }

  predicate InChains(chains: map<string, seq<Rule>>, name: string) {
    exists c, i :: c in chains && 0 <= i < |chains[c]| && Mentions(chains[c][i], name)
  }

  /** Some rule refers to the set. */
  predicate Referenced(k: Kernel, name: string) {
    InChains(k.t4.chains, name) || InChains(k.t6.chains, name)
  }

  function Create(k: Kernel, f: Family, name: string): (r: Option<Kernel>) {
    if name !in k.sets then Some(k.(sets := k.sets[name := IpSet(f, {})]))
    else if k.sets[name].family == f then Some(k)
    else None
  }

  function Drop(k: Kernel, name: string): (r: Option<Kernel>) {
    if name in k.sets && !Referenced(k, name) then Some(k.(sets := k.sets - {name})) else None
  }

  function Swapped(k: Kernel, a: string, b: string): (r: Option<Kernel>) {
    if a in k.sets && b in k.sets && k.sets[a].family == k.sets[b].family
    then Some(k.(sets := k.sets[a := k.sets[b]][b := k.sets[a]]))
    else None
  }

  function SetChain(k: Kernel, f: Family, chain: string, rules: seq<Rule>): (r: Kernel) {
    k.With(f, k.Of(f).(chains := k.Of(f).chains[chain := rules]))
  }

  function SetInput(k: Kernel, f: Family, input: seq<InputRule>): (r: Kernel) {
    k.With(f, k.Of(f).(input := input))
  }

  /** The first jump to the chain is left out. */
  function WithoutFirst(input: seq<InputRule>, chain: string): (r: seq<InputRule>) {
    if input == [] then []
    else if input[0] == JumpTo(chain) then input[1..]
    else [input[0]] + WithoutFirst(input[1..], chain)
  }

  /** What a command does to the kernel; None if it fails, which ends the script. */
  function Step(k: Kernel, n: Names, parse: Parser, cmd: Cmd): (r: Option<Kernel>) {
    var f := cmd.f;
    var t := k.Of(f);
    match cmd
    case CreateBase(_) => Create(k, f, n.Base(f))
    case CreateSwap(_) => Create(k, f, n.Swap(f))
    case FlushSwap(_) =>
      if n.Swap(f) in k.sets then Some(k.(sets := k.sets[n.Swap(f) := k.sets[n.Swap(f)].(nets := {})])) else None
    case AddNet(_, entry) =>
      if n.Swap(f) in k.sets && Storable(parse, k.sets[n.Swap(f)].family, entry)
          && parse(entry).value !in k.sets[n.Swap(f)].nets
      then
        var nets := k.sets[n.Swap(f)].nets + {parse(entry).value};
        Some(k.(sets := k.sets[n.Swap(f) := k.sets[n.Swap(f)].(nets := nets)]))
      else None
    case SwapSets(_) => Swapped(k, n.Swap(f), n.Base(f))
    case DestroySwap(_) => Drop(k, n.Swap(f))
    case NewChain(_) => if n.chain in t.chains then Some(k) else Some(SetChain(k, f, n.chain, []))
    case FlushChain(_) => if n.chain in t.chains then Some(SetChain(k, f, n.chain, [])) else None
    case Append(_, rule) =>
      if n.chain in t.chains && (!rule.src.Any? ==> rule.src.set_ in k.sets)
      then Some(SetChain(k, f, n.chain, t.chains[n.chain] + [rule])) else None
    case EnsureJump(_) =>
      if JumpTo(n.chain) in t.input then Some(k)
      else if n.chain in t.chains then Some(SetInput(k, f, [JumpTo(n.chain)] + t.input)) else None
    case DeleteJump(_) => Some(SetInput(k, f, WithoutFirst(t.input, n.chain)))
    case TryFlushChain(_) => if n.chain in t.chains then Some(SetChain(k, f, n.chain, [])) else Some(k)
    case TryDeleteChain(_) =>
      if n.chain in t.chains && t.chains[n.chain] == [] && JumpTo(n.chain) !in t.input
      then Some(k.With(f, t.(chains := t.chains - {n.chain}))) else Some(k)
    case TryDestroyBase(_) =>
      var dropped := Drop(k, n.Base(f));
      if dropped.Some? then dropped else Some(k)
  }

  /** Commands one after the other until one fails. */
  function Exec(k: Kernel, n: Names, parse: Parser, cmds: seq<Cmd>): (r: Option<Kernel>)
    decreases |cmds|
  {
    if cmds == [] then Some(k)
    else
      var next := Step(k, n, parse, cmds[0]);
      if next.None? then None else Exec(next.value, n, parse, cmds[1..])
  }

  // ---------- the scripts ----------

  function Adds(f: Family, cidrs: seq<string>): (r: seq<Cmd>) {
    if cidrs == [] then [] else [AddNet(f, cidrs[0])] + Adds(f, cidrs[1..])
  }

  /** The new contents go into the swap set, which takes the base set's place. */
  function Fill(f: Family, cidrs: seq<string>): (r: seq<Cmd>) {
    [CreateBase(f), CreateSwap(f), FlushSwap(f)] + Adds(f, cidrs) + [SwapSets(f), DestroySwap(f)]
  }

  /** The chain is emptied, gets its one rule, and is jumped to. */
  function Install(f: Family, rule: Rule): (r: seq<Cmd>) {
    [NewChain(f), FlushChain(f), Append(f, rule), EnsureJump(f)]
  }

  function FamilyRule(f: Family, n: Names, ports: seq<int>, allow: bool, cidrs: seq<string>): (r: Rule) {
    Rule(ports, if cidrs == [] then Any else if allow then Outside(n.Base(f)) else Inside(n.Base(f)))
  }

  /** The commands for one family; none in deny mode without ranges. */
  function FamilyScript(f: Family, n: Names, ports: seq<int>, allow: bool, cidrs: seq<string>): (r: seq<Cmd>) {
    if cidrs == [] && !allow then []
    else (if cidrs == [] then [] else Fill(f, cidrs)) + Install(f, FamilyRule(f, n, ports, allow, cidrs))
  }

  function Script(t: Target, c: CIDRs): (r: seq<Cmd>) {
    var n, ports, allow := NamesOf(t.id), FirewallPorts(t), t.mode != "deny";
    FamilyScript(V4, n, ports, allow, c.v4) + FamilyScript(V6, n, ports, allow, c.v6)
  }

  function Teardown(f: Family): (r: seq<Cmd>) {
    [DeleteJump(f), TryFlushChain(f), TryDeleteChain(f)]
  }

  function RemoveScript(): (r: seq<Cmd>) {
    Teardown(V4) + Teardown(V6) + [TryDestroyBase(V4), TryDestroyBase(V6)]
  }

  /** The `emit` step of the renderer. */
  method Emit(f: Family, n: Names, ports: seq<int>, allow: bool, cidrs: seq<string>) returns (b: seq<Cmd>)
    ensures b == FamilyScript(f, n, ports, allow, cidrs)
  {
    b := [];
    if cidrs == [] && !allow {
      return;
    }
    if cidrs == [] {
      b := b + [NewChain(f), FlushChain(f)];
      b := b + [Append(f, Rule(ports, Any)), EnsureJump(f)];
      return;
    }
    b := b + [CreateBase(f), CreateSwap(f), FlushSwap(f)];
    assert cidrs[0..] == cidrs;
    for i := 0 to |cidrs|
      invariant b + Adds(f, cidrs[i..]) == [CreateBase(f), CreateSwap(f), FlushSwap(f)] + Adds(f, cidrs)
    {
      assert cidrs[i..][1..] == cidrs[i + 1..];
      Assoc(b, [AddNet(f, cidrs[i])], Adds(f, cidrs[i + 1..]));
      b := b + [AddNet(f, cidrs[i])];
    }
    Units(b);
    b := b + [SwapSets(f), DestroySwap(f)];
    b := b + [NewChain(f), FlushChain(f)];
    b := b + [Append(f, Rule(ports, if allow then Outside(n.Base(f)) else Inside(n.Base(f)))), EnsureJump(f)];
    assert b == Fill(f, cidrs) + Install(f, FamilyRule(f, n, ports, allow, cidrs));
  }

  method RenderIPTables(t: Target, c: CIDRs) returns (b: seq<Cmd>)
    ensures b == Script(t, c)
  {
    var n, ports, allow := NamesOf(t.id), FirewallPorts(t), t.mode != "deny";
    var v4 := Emit(V4, n, ports, allow, c.v4);
    var v6 := Emit(V6, n, ports, allow, c.v6);
    b := v4 + v6;
  }

  // ---------- what is dropped ----------

  predicate Matches(k: Kernel, r: Rule, p: Packet) {
    && p.tcp && p.dport in r.ports && p.isNew
    && match r.src
       case Outside(s) => s in k.sets && !InSet(k.sets[s].nets, p.src)
       case Inside(s) => s in k.sets && InSet(k.sets[s].nets, p.src)
       case Any => true
  }

  predicate InSet(nets: set<Cidr>, a: Addr) {
    exists c :: c in nets && Contains(c, a)
  }

  predicate SomeMatches(k: Kernel, rules: seq<Rule>, p: Packet) {
    exists i :: 0 <= i < |rules| && Matches(k, rules[i], p)
  }

  /** The target's chain is jumped to and one of its rules drops the packet. */
  predicate DroppedBy(k: Kernel, n: Names, p: Packet) {
    var t := k.Of(p.src.family);
    JumpTo(n.chain) in t.input && n.chain in t.chains && SomeMatches(k, t.chains[n.chain], p)
  }
}
