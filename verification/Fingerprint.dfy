/** The fingerprint of what a target asks for: what is hashed, how to read it back, and that it covers
    everything that is rendered. */
module Fingerprint {
  import opened Text
  import opened Fetcher
  import opened Targets
  import opened ConfigApply
  import opened EnginePlans
  import Lexing
  import Nftables
  import Iptables

  /** The fields that shape what is enforced, beside the target's id. */
  datatype Core = Core(
    cidrHash: string, mode: string, engine: string, transport: string, file: string, selector: string, realIP: bool,
    container: string, socket: string, allowAdminPorts: bool, ports: seq<int>)

  /** No transport means the local one. */
  function TransportName(t: Target): (r: string) {
    if t.transport == "" then "local" else t.transport
  }

  function CoreOf(t: Target, cidrHash: string): (r: Core) {
    Core(cidrHash, t.mode, t.engine, TransportName(t), t.config.file, t.config.selector, t.config.realIP,
         t.docker.container, t.docker.socket, t.firewall.allowAdminPorts, t.firewall.ports)
  }

  function BoolText(b: bool): (r: string) {
    if b then "true" else "false"
  }

  function Fields(c: Core): (r: seq<string>) {
    [c.cidrHash, c.mode, c.engine, c.transport, c.file, c.selector, BoolText(c.realIP), c.container, c.socket,
     BoolText(c.allowAdminPorts)]
  }

  /** What is fed to the digest. */
  function PreImage(c: Core): (r: string) {
    Lines(Fields(c) + Nftables.Itoas(c.ports))
  }

  /** Each line is written to the running digest. */
  method DesiredFingerprint(t: Target, cidrHash: string, digest: Digest) returns (r: string)
    ensures r == digest(PreImage(CoreOf(t, cidrHash)))
  {
    var tr := t.transport;
    if tr == "" {
      tr := "local";
    }
    var fed := Lines([cidrHash, t.mode, t.engine, tr, t.config.file, t.config.selector, BoolText(t.config.realIP),
                      t.docker.container, t.docker.socket, BoolText(t.firewall.allowAdminPorts)]);
    ghost var fields := Fields(CoreOf(t, cidrHash));
    var ports := t.firewall.ports;
    assert fields + Nftables.Itoas(ports[..0]) == fields;
    for i := 0 to |ports|
      invariant fed == Lines(fields + Nftables.Itoas(ports[..i]))
    {
      NextPort(fields, ports, i);
      fed := fed + (Itoa(ports[i]) + "\n");
    }
    assert ports[..|ports|] == ports;
    r := digest(fed);
  }

  lemma NextPort(fields: seq<string>, ports: seq<int>, i: nat)
    requires i < |ports|
    ensures Lines(fields + Nftables.Itoas(ports[..i + 1]))
            == Lines(fields + Nftables.Itoas(ports[..i])) + (Itoa(ports[i]) + "\n")
  {
    assert ports[..i + 1][..i] == ports[..i];
    Assoc(fields, Nftables.Itoas(ports[..i]), [Itoa(ports[i])]);
    Lexing.LinesConcat(fields + Nftables.Itoas(ports[..i]), [Itoa(ports[i])]);
    Lexing.LinesOne(Itoa(ports[i]));
  }

  // ---------- reading back ----------

  lemma {:induction false} ItoasOneLine(ns: seq<int>)
    ensures AllOneLine(Nftables.Itoas(ns))
  {
    if ns != [] {
      ItoasOneLine(ns[..|ns| - 1]);
      ItoaAtoi(ns[|ns| - 1]);
    }
  }

  function Decode(s: string): (c: Option<Core>) {
    var ls := Lexing.Unlines(s);
    if |ls| < 10 then None
    else Some(Core(ls[0], ls[1], ls[2], ls[3], ls[4], ls[5], ls[6] == "true", ls[7], ls[8], ls[9] == "true",
                   Nftables.Atois(ls[10..])))
  }

  predicate Newlineless(c: Core) {
    && OneLine(c.cidrHash) && OneLine(c.mode) && OneLine(c.engine) && OneLine(c.transport) && OneLine(c.file)
    && OneLine(c.selector) && OneLine(c.container) && OneLine(c.socket)
  }

  /** The decoder inverts the encoding. */
  lemma DecodesPreImage(c: Core)
    requires Newlineless(c)
    ensures Decode(PreImage(c)) == Some(c)
  {
    var ls := Fields(c) + Nftables.Itoas(c.ports);
    Nftables.ItoasAtois(c.ports);
    ItoasOneLine(c.ports);
    assert OneLine(BoolText(c.realIP)) && OneLine(BoolText(c.allowAdminPorts));
    Lexing.UnlinesLines(ls);
    assert ls[10..] == Nftables.Itoas(c.ports) && |Fields(c)| == 10;
  }

  /** Where the separator is, or the number of lines. */
  function SeparatorAt(ls: seq<string>): (n: nat)
    ensures n <= |ls|
  {
    if ls == [] || ls[0] == SEPARATOR then 0 else 1 + SeparatorAt(ls[1..])
  }

  lemma {:induction false} SeparatorFound(v4: seq<string>, v6: seq<string>)
    requires SEPARATOR !in v4
    ensures SeparatorAt(v4 + [SEPARATOR] + v6) == |v4|
  {
    if v4 != [] {
      assert (v4 + [SEPARATOR] + v6)[1..] == v4[1..] + [SEPARATOR] + v6;
      SeparatorFound(v4[1..], v6);
    }
  }

  /** The provider and the two lists. */
  function DecodeContent(s: string): (r: Option<(string, seq<string>, seq<string>)>) {
    var ls := Lexing.Unlines(s);
    if ls == [] then None
    else
      var rest := ls[1..];
      var n := SeparatorAt(rest);
      if n == |rest| then None else Some((ls[0], rest[..n], rest[n + 1..]))
  }

  /** Lists whose entries are lines and, in the first, no separator: what a CIDR is. */
  predicate Listable(provider: string, v4: seq<string>, v6: seq<string>) {
    OneLine(provider) && AllOneLine(v4) && AllOneLine(v6) && SEPARATOR !in v4
  }

  lemma DecodesContent(provider: string, v4: seq<string>, v6: seq<string>)
    requires Listable(provider, v4, v6)
    ensures DecodeContent(Lines(ContentLines(provider, v4, v6))) == Some((provider, v4, v6))
  {
    var ls := ContentLines(provider, v4, v6);
    Lexing.UnlinesLines(ls);
    assert ls[1..] == v4 + [SEPARATOR] + v6;
    SeparatorFound(v4, v6);
    assert ls[1..][..|v4|] == v4 && ls[1..][|v4| + 1..] == v6;
  }

  // ---------- what the fingerprint covers ----------

  /** The digest tells these two texts apart, if they differ. */
  predicate TellsApart(digest: Digest, a: string, b: string) {
    digest(a) == digest(b) ==> a == b
  }

  function Content(c: CIDRs): (r: string) {
    Lines(ContentLines(c.provider, c.v4, c.v6))
  }

  function FingerprintOf(digest: Digest, t: Target, c: CIDRs): (r: string) {
    digest(PreImage(CoreOf(t, c.hash)))
  }

  /** A request whose texts can be read back, with the hash that belongs to its lists. */
  predicate WellFormed(digest: Digest, t: Target, c: CIDRs) {
    Newlineless(CoreOf(t, c.hash)) && Listable(c.provider, c.v4, c.v6) && c.hash == digest(Content(c))
  }

  /** The two targets reach their hosts in the same way; no transport means the local one. */
  predicate SameTransport(t1: Target, t2: Target) {
    t1.transport == t2.transport || (t1.transport in {"", "local"} && t2.transport in {"", "local"})
  }

  /** Equal fingerprints mean equal requests, field by field, if the digest tells the hashed texts apart. What
      is not covered is the id, the switch, the providers' spelling and the operator's ranges, which act
      through the lists. */
  lemma FingerprintDetermines(digest: Digest, t1: Target, c1: CIDRs, t2: Target, c2: CIDRs)
    requires WellFormed(digest, t1, c1) && WellFormed(digest, t2, c2)
    requires TellsApart(digest, PreImage(CoreOf(t1, c1.hash)), PreImage(CoreOf(t2, c2.hash)))
    requires TellsApart(digest, Content(c1), Content(c2))
    ensures FingerprintOf(digest, t1, c1) == FingerprintOf(digest, t2, c2)
            <==> && c1 == c2 && t1.mode == t2.mode && t1.engine == t2.engine && SameTransport(t1, t2)
                 && t1.config.file == t2.config.file && t1.config.selector == t2.config.selector
                 && t1.config.realIP == t2.config.realIP
                 && t1.docker.container == t2.docker.container && t1.docker.socket == t2.docker.socket
                 && t1.firewall.ports == t2.firewall.ports
                 && t1.firewall.allowAdminPorts == t2.firewall.allowAdminPorts
  {
    if FingerprintOf(digest, t1, c1) == FingerprintOf(digest, t2, c2) {
      DecodesPreImage(CoreOf(t1, c1.hash));
      DecodesPreImage(CoreOf(t2, c2.hash));
      DecodesContent(c1.provider, c1.v4, c1.v6);
      DecodesContent(c2.provider, c2.v4, c2.v6);
    }
  }

  predicate SameCore(t1: Target, t2: Target, c: CIDRs) {
    t1.id == t2.id && CoreOf(t1, c.hash) == CoreOf(t2, c.hash)
  }

  lemma DataByCore(t1: Target, t2: Target, c: CIDRs)
    requires SameCore(t1, t2, c)
    ensures Data(t1, c) == Data(t2, c)
  {
  }

  lemma EditByCore(t1: Target, t2: Target, c: CIDRs, path: string)
    requires SameCore(t1, t2, c)
    ensures InjectOf(t1, Some(c), path) == InjectOf(t2, Some(c), path)
  {
    assert TrustLine(t1, Some(c)) == TrustLine(t2, Some(c));
    assert Payload(t1, Some(c), path) == Payload(t2, Some(c), path);
  }

  /** Everything that a config engine does depends on the id, the covered fields and the lists only. */
  lemma PlanByCore(t1: Target, t2: Target, c: CIDRs, env: Env)
    requires SameCore(t1, t2, c)
    ensures PlanOf(t1, Some(c), env) == PlanOf(t2, Some(c), env)
  {
    assert ManagedPath(t1, env) == ManagedPath(t2, env);
    DataByCore(t1, t2, c);
    EditByCore(t1, t2, c, ManagedPath(t1, env));
  }

  /** So do the firewalls' scripts. */
  lemma ScriptsByCore(t1: Target, t2: Target, c: CIDRs)
    requires SameCore(t1, t2, c)
    ensures Nftables.RulesetText(t1, c) == Nftables.RulesetText(t2, c)
    ensures Iptables.Script(t1, c) == Iptables.Script(t2, c) && Iptables.NamesOf(t1.id) == Iptables.NamesOf(t2.id)
  {
    assert Nftables.TableOf(t1, c) == Nftables.TableOf(t2, c);
  }

  /** The fingerprint covers what is rendered: with one id and equal fingerprints, the config engines' plan,
      the nftables ruleset and the iptables script are the same. */
  lemma FingerprintCovers(digest: Digest, t1: Target, c1: CIDRs, t2: Target, c2: CIDRs, env: Env)
    requires WellFormed(digest, t1, c1) && WellFormed(digest, t2, c2) && t1.id == t2.id
    requires TellsApart(digest, PreImage(CoreOf(t1, c1.hash)), PreImage(CoreOf(t2, c2.hash)))
    requires TellsApart(digest, Content(c1), Content(c2))
    requires FingerprintOf(digest, t1, c1) == FingerprintOf(digest, t2, c2)
    ensures PlanOf(t1, Some(c1), env) == PlanOf(t2, Some(c2), env)
    ensures Nftables.RulesetText(t1, c1) == Nftables.RulesetText(t2, c2)
    ensures Iptables.Script(t1, c1) == Iptables.Script(t2, c2) && Iptables.NamesOf(t1.id) == Iptables.NamesOf(t2.id)
  {
    FingerprintDetermines(digest, t1, c1, t2, c2);
    PlanByCore(t1, t2, c1, env);
    ScriptsByCore(t1, t2, c1);
  }
}
