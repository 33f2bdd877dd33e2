/** The nftables ruleset of a target: its text, and which packets it drops. */
module Nftables {
  import opened Text
  import opened Policy
  import opened Fetcher
  import opened Targets
  import HAProxy

  // ---------- the ruleset ----------

  /** What a rule asks of the source address. */
  datatype Guard = Outside(setName: string) | Inside(setName: string) | Any

  datatype Rule = Rule(ports: seq<int>, family: Family, guard: Guard)

  /** An inet table with at most one set per family and an input chain whose policy is accept. */
  datatype Table = Table(name: string, sets: seq<NetSet>, rules: seq<Rule>)

  datatype NetSet = NetSet(name: string, family: Family, elements: seq<string>)

  function TableName(id: string): (r: string) {
    "ipwatch_" + HAProxy.Sanitize(id)
  }

  function SetName(f: Family): (r: string) {
    if f.V4? then "allowed_v4" else "allowed_v6"
  }

  function SetFor(f: Family, cidrs: seq<string>): (r: seq<NetSet>) {
    if cidrs == [] then [] else [NetSet(SetName(f), f, cidrs)]
  }

  /** One rule per family: outside the set (allow), inside it (deny), everything (allow without ranges), none. */
  function RuleFor(f: Family, ports: seq<int>, allow: bool, cidrs: seq<string>): (r: seq<Rule>) {
    if cidrs != [] then [Rule(ports, f, if allow then Outside(SetName(f)) else Inside(SetName(f)))]
    else if allow then [Rule(ports, f, Any)]
    else []
  }

  function TableOf(t: Target, c: CIDRs): (r: Table) {
    var ports, allow := FirewallPorts(t), t.mode != "deny";
    Table(TableName(t.id), SetFor(V4, c.v4) + SetFor(V6, c.v6),
          RuleFor(V4, ports, allow, c.v4) + RuleFor(V6, ports, allow, c.v6))
  }

  // ---------- its meaning ----------

  /** The elements of the first set of that name. */
  function Lookup(sets: seq<NetSet>, name: string): (r: seq<string>) {
    if sets == [] then [] else if sets[0].name == name then sets[0].elements else Lookup(sets[1..], name)
  }

  predicate Matches(table: Table, r: Rule, parse: Parser, p: Packet) {
    && p.tcp && p.dport in r.ports && p.isNew && p.src.family == r.family
    && match r.guard
       case Outside(s) => !Covered(NetsOf(parse, Lookup(table.sets, s)), p.src)
       case Inside(s) => Covered(NetsOf(parse, Lookup(table.sets, s)), p.src)
       case Any => true
  }

  /** Some rule of the chain drops the packet; the chain's policy is to accept. */
  predicate Drops(table: Table, parse: Parser, p: Packet) {
    exists i :: 0 <= i < |table.rules| && Matches(table, table.rules[i], parse, p)
  }

  lemma LookupSets(v4: seq<string>, v6: seq<string>)
    ensures v4 != [] ==> Lookup(SetFor(V4, v4) + SetFor(V6, v6), SetName(V4)) == v4
    ensures v6 != [] ==> Lookup(SetFor(V4, v4) + SetFor(V6, v6), SetName(V6)) == v6
  {
    var sets := SetFor(V4, v4) + SetFor(V6, v6);
    assert SetName(V4) != SetName(V6) by { assert SetName(V4)[9] != SetName(V6)[9]; }
    if v4 != [] && v6 != [] {
      assert sets[1..] == SetFor(V6, v6);
    }
  }

  /** The rule for a family drops exactly what the policy drops of that family. */
  lemma RuleDrops(table: Table, f: Family, ports: seq<int>, allow: bool, cidrs: seq<string>, parse: Parser, p: Packet)
    requires cidrs != [] ==> Lookup(table.sets, SetName(f)) == cidrs
    ensures (exists i :: 0 <= i < |RuleFor(f, ports, allow, cidrs)| &&
                         Matches(table, RuleFor(f, ports, allow, cidrs)[i], parse, p))
            <==> (p.tcp && p.isNew && p.dport in ports && p.src.family == f
                  && (allow <==> !Covered(NetsOf(parse, cidrs), p.src)))
  {
    var rules := RuleFor(f, ports, allow, cidrs);
    if rules != [] {
      assert |rules| == 1;
      assert Matches(table, rules[0], parse, p)
        <==> (p.tcp && p.isNew && p.dport in ports && p.src.family == f
              && (allow <==> !Covered(NetsOf(parse, cidrs), p.src)));
    }
  }

  /** The table drops a packet exactly when the policy asks for it. */
  lemma TableDropsPolicy(t: Target, c: CIDRs, parse: Parser, p: Packet)
    ensures Drops(TableOf(t, c), parse, p) <==> FilterOf(parse, t.mode != "deny", FirewallPorts(t), c).Drops(p)
  {
    var ports, allow := FirewallPorts(t), t.mode != "deny";
    var table := TableOf(t, c);
    LookupSets(c.v4, c.v6);
    RuleDrops(table, V4, ports, allow, c.v4, parse, p);
    RuleDrops(table, V6, ports, allow, c.v6, parse, p);
    var a, b := RuleFor(V4, ports, allow, c.v4), RuleFor(V6, ports, allow, c.v6);
    if i :| 0 <= i < |a| && Matches(table, a[i], parse, p) {
      assert table.rules[i] == a[i];
    }
    if i :| 0 <= i < |b| && Matches(table, b[i], parse, p) {
      assert table.rules[|a| + i] == b[i];
    }
    if Drops(table, parse, p) {
      var i :| 0 <= i < |table.rules| && Matches(table, table.rules[i], parse, p);
      assert table.rules[i] == if i < |a| then a[i] else b[i - |a|];
    }
  }

  // ---------- its text ----------

  function Itoas(ns: seq<int>): (r: seq<string>)
    ensures |r| == |ns|
  {
    if ns == [] then [] else Itoas(ns[..|ns| - 1]) + [Itoa(ns[|ns| - 1])]
  }

  function Atois(ls: seq<string>): (r: seq<int>)
    ensures |r| == |ls|
  {
    if ls == [] then [] else Atois(ls[..|ls| - 1]) + [Atoi(ls[|ls| - 1])]
  }

  lemma {:induction false} ItoasAtois(ns: seq<int>)
    ensures Atois(Itoas(ns)) == ns
  {
    if ns != [] {
      var n := |ns| - 1;
      ItoasAtois(ns[..n]);
      ItoaAtoi(ns[n]);
      AtoisNext(Itoas(ns[..n]), Itoa(ns[n]));
    }
  }

  lemma AtoisNext(ls: seq<string>, l: string)
    ensures Atois(ls + [l]) == Atois(ls) + [Atoi(l)]
  {
    assert (ls + [l])[..|ls|] == ls;
  }

  method ItoaAll(ns: seq<int>) returns (parts: seq<string>)
    ensures parts == Itoas(ns)
  {
    parts := [];
    for i := 0 to |ns|
      invariant parts == Itoas(ns[..i])
    {
      assert ns[..i + 1][..i] == ns[..i];
      parts := parts + [Itoa(ns[i])];
    }
    assert ns[..|ns|] == ns;
  }

  function SetText(s: NetSet): (r: string) {
    "  set " + s.name + " {\n    type " + (if s.family.V4? then "ipv4_addr" else "ipv6_addr")
    + "\n    flags interval\n    elements = { " + Concat(s.elements, ", ") + " }\n  }\n"
  }

  function GuardText(f: Family, g: Guard): (r: string) {
    var family := if f.V4? then "ip" else "ip6";
    match g
    case Outside(s) => " ct state new " + family + " saddr != @" + s + " drop\n"
    case Inside(s) => " ct state new " + family + " saddr @" + s + " drop\n"
    case Any => " meta nfproto " + (if f.V4? then "ipv4" else "ipv6") + " ct state new drop\n"
  }

  function RuleText(r: Rule): (s: string) {
    "    tcp dport { " + Concat(Itoas(r.ports), ", ") + " }" + GuardText(r.family, r.guard)
  }

  function SetTexts(sets: seq<NetSet>): (r: string) {
    if sets == [] then "" else SetText(sets[0]) + SetTexts(sets[1..])
  }

  function RuleTexts(rules: seq<Rule>): (r: string) {
    if rules == [] then "" else RuleText(rules[0]) + RuleTexts(rules[1..])
  }

  function Head(name: string, c: CIDRs, mode: string): (r: string) {
    "#!/usr/sbin/nft -f\n"
    + ("# ip-watch managed ruleset - provider: " + c.provider + "  mode: " + mode + "\n")
    + ("add table inet " + name + "\n") + ("delete table inet " + name + "\n") + ("table inet " + name + " {\n")
  }

  const HOOK := "    type filter hook input " + "priority -10; policy accept;"

  const CHAIN := "  chain input {\n" + (HOOK + "\n")

  const END := "  }\n" + "}\n"

  function RulesetText(t: Target, c: CIDRs): (r: string) {
    var table := TableOf(t, c);
    Head(table.name, c, t.mode) + SetTexts(table.sets) + CHAIN + RuleTexts(table.rules) + END
  }

  /** The `emit` step of the renderer: at most one line. */
  method Emit(f: Family, ports: seq<int>, portSet: string, allow: bool, cidrs: seq<string>) returns (b: string)
    requires portSet == Concat(Itoas(ports), ", ")
    ensures b == RuleTexts(RuleFor(f, ports, allow, cidrs))
  {
    var set_ := SetName(f);
    var start := "    tcp dport { " + portSet + " }";
    if cidrs != [] && allow {
      b := start + GuardText(f, Outside(set_));
    } else if cidrs != [] {
      b := start + GuardText(f, Inside(set_));
    } else if allow {
      b := start + GuardText(f, Any);
    } else {
      b := "";
    }
  }

  lemma TextsConcat(a: seq<Rule>, b: seq<Rule>)
    requires |a| <= 1
    ensures RuleTexts(a + b) == RuleTexts(a) + RuleTexts(b)
  {
    if a == [] {
      assert a + b == b;
    } else {
      assert (a + b)[1..] == b && a[1..] == [];
      Units(RuleText(a[0]));
    }
  }

  lemma SetsConcat(a: seq<NetSet>, b: seq<NetSet>)
    requires |a| <= 1
    ensures SetTexts(a + b) == SetTexts(a) + SetTexts(b)
  {
    if a == [] {
      assert a + b == b;
    } else {
      assert (a + b)[1..] == b && a[1..] == [];
      Units(SetText(a[0]));
    }
  }

  method RenderNftables(t: Target, c: CIDRs) returns (b: string)
    ensures b == RulesetText(t, c)
  {
    var ports, allow := FirewallPorts(t), t.mode != "deny";
    var parts := ItoaAll(ports);
    var portSet := Concat(parts, ", ");
    b := Head(TableName(t.id), c, t.mode);
    SetsConcat(SetFor(V4, c.v4), SetFor(V6, c.v6));
    b := b + (SetTexts(SetFor(V4, c.v4)) + SetTexts(SetFor(V6, c.v6)));
    b := b + CHAIN;
    var rule4 := Emit(V4, ports, portSet, allow, c.v4);
    var rule6 := Emit(V6, ports, portSet, allow, c.v6);
    TextsConcat(RuleFor(V4, ports, allow, c.v4), RuleFor(V6, ports, allow, c.v6));
    b := b + (rule4 + rule6) + END;
  }
}
