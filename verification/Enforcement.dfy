/** From the lists of the providers to what is enforced: what each engine makes of what is written for a target. */
module Enforcement {
  import opened Text
  import opened Policy
  import opened Fetcher
  import opened Targets
  import opened ConfigApply
  import opened EnginePlans
  import opened Applier
  import Transactions
  import ManagedFiles
  import Lexing
  import HAProxy
  import Renders
  import Verdicts
  import Nftables
  import NftReader
  import Iptables
  import IptablesRuns
  import IptablesText
  import IptablesHistory

  // ---------- one engine, one address ----------

  /** What a config engine lets through, reading the managed file that the plan writes and, for HAProxy, the
      lines that it puts into the config file. */
  predicate LetsThrough(t: Target, data: string, lines: seq<string>, path: string, parse: Parser, a: Addr) {
    if t.engine == "nginx" then
      var sts := Renders.Read(data, [], "");
      sts.Some? && Renders.Permitted(Renders.AccessRules(sts.value), parse, a)
    else if t.engine == "caddy" then
      var abort := Verdicts.ReadAbort(data);
      abort.Some? && !Verdicts.Aborted(abort.value, parse, a)
    else if t.engine == "apache" then
      var grant := Verdicts.ReadGrant(data);
      grant.Some? && Verdicts.Granted(grant.value, parse, a)
    else
      var denial := Verdicts.ReadDenial(lines);
      denial.Some? && denial.value.file == path && !Verdicts.Denied(denial.value, data, parse, a)
  }

  /** What is written can be read: one word for each range, and for the managed file's path. */
  predicate Legible(t: Target, c: CIDRs, path: string) {
    && ValidId(t.id) && (t.mode == "allow" || t.mode == "deny")
    && OneLine(c.provider) && OneLine(c.hash) && c.v4 + c.v6 != []
    && (forall i :: 0 <= i < |c.v4 + c.v6| ==> Renders.Word((c.v4 + c.v6)[i]) && (c.v4 + c.v6)[i] != "all")
    && Lexing.IsWord(path, Verdicts.IsBlank)
  }

  lemma IdIsWord(id: string)
    requires ValidId(id)
    ensures Lexing.IsWord("ipwatch_" + HAProxy.Sanitize(id), Verdicts.IsBlank) && OneLine(HAProxy.Sanitize(id))
    ensures Lexing.IsWord("@ipwatch_" + HAProxy.Sanitize(id), Verdicts.IsBlank)
    ensures Lexing.IsWord(Nftables.TableName(id), NftReader.IsGap) && OneLine(Nftables.TableName(id))
  {
    var s := HAProxy.Sanitize(id);
    assert forall i :: 0 <= i < |s| ==> IsIdChar(s[i]);
    assert OneLine("ipwatch_");
  }

  lemma LegibleNames(t: Target, c: CIDRs, path: string)
    requires Legible(t, c, path)
    ensures Verdicts.AllNames(c.v4 + c.v6) && Renders.Writable(t, c) && "all" !in c.v4 + c.v6 && OneLine(t.mode)
  {
    var nets := c.v4 + c.v6;
    forall i | 0 <= i < |nets| ensures Verdicts.IsName(nets[i]) {
      assert Renders.Word(nets[i]);
    }
    assert forall i :: 0 <= i < |c.v4| ==> c.v4[i] == nets[i];
    assert forall i :: 0 <= i < |c.v6| ==> c.v6[i] == nets[|c.v4| + i];
    assert OneLine("allow") && OneLine("deny");
  }

  lemma DataEnforces(t: Target, c: CIDRs, path: string, parse: Parser, a: Addr)
    requires IsConfigEngine(t.engine) && Legible(t, c, path)
    ensures LetsThrough(t, Data(t, c), Payload(t, Some(c), path), path, parse, a)
            <==> (t.mode == "allow" <==> Covered(NetsOf(parse, c.v4 + c.v6), a))
  {
    LegibleNames(t, c, path);
    IdIsWord(t.id);
    if t.engine == "nginx" {
      Renders.IncludePermits(t, c, parse, a);
    } else if t.engine == "caddy" {
      Verdicts.CaddyAborts(t, c, parse, a);
    } else if t.engine == "apache" {
      Verdicts.ApacheGrants(t, c, parse, a);
    } else {
      Verdicts.HAProxyDenies(t, c, t.config.realIP, path, parse, a);
    }
  }

  /** Every config engine lets through exactly the covered addresses in allow mode, and the others in deny mode. */
  lemma EngineEnforces(t: Target, c: CIDRs, env: Env, parse: Parser, a: Addr)
    requires IsConfigEngine(t.engine) && Legible(t, c, ManagedPath(t, env))
    ensures var plan := PlanOf(t, Some(c), env);
            LetsThrough(t, plan.managedData, Payload(t, Some(c), plan.managedPath), plan.managedPath, parse, a)
            <==> (t.mode == "allow" <==> Covered(NetsOf(parse, c.v4 + c.v6), a))
  {
    DataEnforces(t, c, ManagedPath(t, env), parse, a);
  }

  // ---------- from the lists ----------

  /** Some listed range contains the address. */
  lemma CoveredExactly(parse: Parser, ls: seq<string>, a: Addr)
    ensures Covered(NetsOf(parse, ls), a) <==> exists e :: e in ls && parse(e).Some? && Contains(parse(e).value, a)
  {
    var nets := NetsOf(parse, ls);
    if Covered(nets, a) {
      var i :| 0 <= i < |nets| && Contains(nets[i], a);
      var e := NetIsEntry(parse, ls, nets[i]);
    }
    if e :| e in ls && parse(e).Some? && Contains(parse(e).value, a) {
      EntryIsNet(parse, ls, e);
      var i :| 0 <= i < |nets| && nets[i] == parse(e).value;
    }
  }

  /** A provider of the target lists the entry; the single provider counts where there is no list of them. */
  ghost predicate Offered(t: Target, lists: Lists, f: Family, e: string) {
    exists p :: (p in t.providers || (t.providers == [] && p == t.provider && p != ""))
                && lists(p, f).Ok? && e in lists(p, f).value
  }

  lemma OfferedExactly(t: Target, lists: Lists, f: Family, e: string)
    ensures Offered(t, lists, f, e) <==> Offers(lists, EffectiveProviders(t), f, e)
  {
    var ps := EffectiveProviders(t);
    if p :| (p in t.providers || (t.providers == [] && p == t.provider && p != ""))
            && lists(p, f).Ok? && e in lists(p, f).value {
      assert p in ps;
      var i :| 0 <= i < |ps| && ps[i] == p;
    }
    if i :| 0 <= i < |ps| && lists(ps[i], f).Ok? && e in lists(ps[i], f).value {
      assert ps[i] in t.providers || (t.providers == [] && ps[i] == t.provider && ps[i] != "");
    }
  }

  /** The range is offered by a provider of the target or, in allow mode, is one of the operator's own. */
  ghost predicate Meant(t: Target, lists: Lists, parse: Parser, e: string) {
    || Offered(t, lists, V4, e) || Offered(t, lists, V6, e)
    || (t.mode == "allow" && e in t.adminAllowIPs && parse(e).Some?)
  }

  /** One of these ranges contains the address. */
  ghost predicate Within(t: Target, lists: Lists, parse: Parser, a: Addr) {
    exists e :: Meant(t, lists, parse, e) && parse(e).Some? && Contains(parse(e).value, a)
  }

  lemma ListedIsMeant(t: Target, lists: Lists, parse: Parser, c: CIDRs, e: string)
    requires ListsExactly(t, lists, parse, c)
    ensures e in c.v4 + c.v6 <==> Meant(t, lists, parse, e)
  {
    assert e in c.v4 + c.v6 <==> e in c.v4 || e in c.v6;
    OfferedExactly(t, lists, V4, e);
    OfferedExactly(t, lists, V6, e);
    if t.mode == "allow" && e in t.adminAllowIPs && parse(e).Some? {
      assert Extra(t, parse, parse(e).value.family, e);
    }
  }

  lemma CoveredIsWithin(t: Target, lists: Lists, parse: Parser, c: CIDRs, a: Addr)
    requires ListsExactly(t, lists, parse, c)
    ensures Covered(NetsOf(parse, c.v4 + c.v6), a) <==> Within(t, lists, parse, a)
  {
    CoveredExactly(parse, c.v4 + c.v6, a);
    forall e ensures e in c.v4 + c.v6 <==> Meant(t, lists, parse, e) {
      ListedIsMeant(t, lists, parse, c, e);
    }
  }

  /** What a target asks a firewall to drop: new TCP to the ports it names, or to the web ports, in allow mode
      from outside the ranges of the source's family that its providers or the operator list, in deny mode
      from inside those of its providers. */
  ghost predicate Refused(t: Target, lists: Lists, parse: Parser, p: Packet) {
    && p.tcp && p.isNew
    && (if t.firewall.ports == [] then p.dport == 80 || p.dport == 443 else p.dport in t.firewall.ports)
    && (t.mode == "allow" <==> !ListedFor(t, lists, parse, p.src))
  }

  /** A range of the address's own family contains it. */
  ghost predicate ListedFor(t: Target, lists: Lists, parse: Parser, a: Addr) {
    exists e :: (Offered(t, lists, a.family, e) || (t.mode == "allow" && e in t.adminAllowIPs))
                && parse(e).Some? && Contains(parse(e).value, a)
  }

  lemma CoveredIsListed(t: Target, lists: Lists, parse: Parser, c: CIDRs, a: Addr)
    requires ListsExactly(t, lists, parse, c)
    ensures Covered(NetsOf(parse, if a.family.V4? then c.v4 else c.v6), a) <==> ListedFor(t, lists, parse, a)
  {
    var ls := if a.family.V4? then c.v4 else c.v6;
    CoveredExactly(parse, ls, a);
    forall e | parse(e).Some? && Contains(parse(e).value, a)
      ensures e in ls
              <==> Offered(t, lists, a.family, e) || (t.mode == "allow" && e in t.adminAllowIPs)
    {
      OfferedExactly(t, lists, a.family, e);
      assert Extra(t, parse, a.family, e) <==> e in t.adminAllowIPs;
    }
  }

  lemma FilterRefuses(t: Target, lists: Lists, parse: Parser, c: CIDRs, p: Packet)
    requires ListsExactly(t, lists, parse, c)
    ensures FilterOf(parse, t.mode == "allow", FirewallPorts(t), c).Drops(p) <==> Refused(t, lists, parse, p)
  {
    CoveredIsListed(t, lists, parse, c, p.src);
  }

  /** Some list is not empty. */
  lemma WantedNotEmpty(t: Target, lists: Lists, parse: Parser, c: CIDRs)
    requires ListsExactly(t, lists, parse, c) && EffectiveProviders(t) != []
    requires AllFetchable(lists, EffectiveProviders(t))
    ensures c.v4 + c.v6 != []
  {
    var p := EffectiveProviders(t)[0];
    assert Fetchable(lists, p);
    if lists(p, V4).value != [] {
      assert Offers(lists, EffectiveProviders(t), V4, lists(p, V4).value[0]);
    } else {
      assert Offers(lists, EffectiveProviders(t), V6, lists(p, V6).value[0]);
    }
  }

  lemma WantedIsLegible(t: Target, lists: Lists, parse: Parser, digest: Digest, c: CIDRs, path: string)
    requires Valid(t, parse) && Plain(parse) && Wanted(t, lists, parse, digest, c)
    requires AllListed(parse, lists, EffectiveProviders(t)) && OneLine(c.hash)
    requires Lexing.IsWord(path, Verdicts.IsBlank)
    ensures Legible(t, c, path)
  {
    WantedExactly(t, lists, parse, digest, c);
    WantedNotEmpty(t, lists, parse, c);
    WantedIsListable(t, lists, parse, digest, c);
    WantedWords(t, lists, parse, digest, c);
  }

  lemma WantedIsNftText(t: Target, lists: Lists, parse: Parser, digest: Digest, c: CIDRs)
    requires Valid(t, parse) && Plain(parse) && Wanted(t, lists, parse, digest, c)
    requires AllListed(parse, lists, EffectiveProviders(t))
    ensures NftReader.Writable(t, c)
  {
    WantedIsListable(t, lists, parse, digest, c);
    ModeOneLine(t, parse);
    IdIsWord(t.id);
    WordsAreElements(parse, lists, t, digest, c);
  }

  lemma TwoModes(t: Target, parse: Parser)
    requires Valid(t, parse)
    ensures t.mode != "deny" <==> t.mode == "allow"
  {
  }

  lemma WordsAreElements(parse: Parser, lists: Lists, t: Target, digest: Digest, c: CIDRs)
    requires Plain(parse) && Wanted(t, lists, parse, digest, c) && AllListed(parse, lists, EffectiveProviders(t))
    ensures NftReader.AllElements(c.v4) && NftReader.AllElements(c.v6)
  {
    WantedParses(t, lists, parse, digest, c);
    ElementsOf(parse, c.v4);
    ElementsOf(parse, c.v6);
  }

  lemma ElementsOf(parse: Parser, ls: seq<string>)
    requires Plain(parse) && AllParse(parse, ls)
    ensures NftReader.AllElements(ls)
  {
    forall i | 0 <= i < |ls| ensures NftReader.IsElement(ls[i]) {
      assert parse(ls[i]).Some?;
      SpelledIsWord(ls[i]);
      assert "}"[0] == '}';
    }
  }

  /** End to end, for the config engines: a valid target whose lists were read from the data source lets an
      address through, in allow mode, exactly if a range of one of its providers or of the operator contains
      it, and in deny mode exactly if none of its providers' does. */
  lemma WantedIsEnforced(t: Target, lists: Lists, parse: Parser, digest: Digest, c: CIDRs, env: Env, a: Addr)
    requires Valid(t, parse) && Plain(parse) && Wanted(t, lists, parse, digest, c)
    requires AllListed(parse, lists, EffectiveProviders(t)) && OneLine(c.hash)
    requires IsConfigEngine(t.engine) && Lexing.IsWord(ManagedPath(t, env), Verdicts.IsBlank)
    ensures var plan := PlanOf(t, Some(c), env);
            LetsThrough(t, plan.managedData, Payload(t, Some(c), plan.managedPath), plan.managedPath, parse, a)
            <==> (t.mode == "allow" <==> Within(t, lists, parse, a))
  {
    WantedIsLegible(t, lists, parse, digest, c, ManagedPath(t, env));
    EngineEnforces(t, c, env, parse, a);
    WantedExactly(t, lists, parse, digest, c);
    CoveredIsWithin(t, lists, parse, c, a);
  }

  lemma IdOneLine(id: string)
    requires ValidId(id)
    ensures OneLine(id)
  {
  }

  lemma RangesPlain(a: seq<string>, b: seq<string>)
    requires AllOneLine(a) && AllOneLine(b)
    ensures forall i :: 0 <= i < |a + b| ==> OneLine((a + b)[i])
  {
  }

  lemma WantedIsSound(t: Target, lists: Lists, parse: Parser, digest: Digest, c: CIDRs, path: string)
    requires ValidId(t.id) && Plain(parse) && Wanted(t, lists, parse, digest, c)
    requires AllListed(parse, lists, EffectiveProviders(t)) && IsConfigEngine(t.engine) && OneLine(path)
    ensures Sound(t, Some(c), path)
  {
    WantedParses(t, lists, parse, digest, c);
    SpelledAreLines(parse, c.v4);
    SpelledAreLines(parse, c.v6);
    RangesPlain(c.v4, c.v6);
    IdOneLine(t.id);
  }

  /** The config file that the target names, or else the detected one. */
  function OwnFile(t: Target, env: Env): (r: string) {
    if t.config.file != "" then t.config.file else env.detected(t.engine)
  }

  lemma AppliedRefers(w: World, w': World, unreadable: set<string>, t: Target, c: CIDRs, env: Env, backup: string,
                      out: Outcome, ev: seq<Event>)
    requires Sound(t, Some(c), ManagedPath(t, env)) && DistinctPaths(PlanOf(t, Some(c), env), backup)
    requires ApplyStep(w, w', unreadable, PlanOf(t, Some(c), env), backup, out, ev) && out.ok
    requires OwnFile(t, env) in w.files && Fits(t, Some(c), ManagedPath(t, env), w.files[OwnFile(t, env)])
    ensures var conf, path := OwnFile(t, env), ManagedPath(t, env);
            && conf in w'.files && ManagedFiles.Says(w'.files[conf], ManagedFiles.Reference(t, path))
            && path in w'.files && w'.files[path] == PlanOf(t, Some(c), env).managedData
            && (forall p :: p != backup && p != path && p != conf ==> SameAt(w.files, w'.files, p))
            && (out.changed ==> w'.live == w'.files)
  {
    Transactions.AppliedFiles(w, w', unreadable, PlanOf(t, Some(c), env), backup, out, ev);
    ManagedFiles.EditRefers(t, c, env, w.files[OwnFile(t, env)]);
  }

  /** After a successful apply, changed or not, the target's own config file refers to the managed file, which lets
      through exactly the addresses that are wanted; no other file but the backup has changed, and what was
      written is live. */
  lemma AppliedIsEnforced(w: World, w': World, unreadable: set<string>, t: Target, lists: Lists, parse: Parser,
                          digest: Digest, c: CIDRs, env: Env, backup: string, out: Outcome, ev: seq<Event>, a: Addr)
    requires Valid(t, parse) && Plain(parse) && Wanted(t, lists, parse, digest, c)
    requires AllListed(parse, lists, EffectiveProviders(t)) && OneLine(c.hash) && IsConfigEngine(t.engine)
    requires Lexing.IsWord(ManagedPath(t, env), Verdicts.IsBlank) && OneLine(ManagedPath(t, env))
    requires DistinctPaths(PlanOf(t, Some(c), env), backup)
    requires ApplyStep(w, w', unreadable, PlanOf(t, Some(c), env), backup, out, ev) && out.ok
    requires OwnFile(t, env) in w.files && Fits(t, Some(c), ManagedPath(t, env), w.files[OwnFile(t, env)])
    ensures var conf, path := OwnFile(t, env), ManagedPath(t, env);
            && conf in w'.files && ManagedFiles.Says(w'.files[conf], ManagedFiles.Reference(t, path))
            && path in w'.files
            && (LetsThrough(t, w'.files[path], Payload(t, Some(c), path), path, parse, a)
                <==> (t.mode == "allow" <==> Within(t, lists, parse, a)))
            && (forall p :: p != backup && p != path && p != conf ==> SameAt(w.files, w'.files, p))
            && (out.changed ==> w'.live == w'.files)
  {
    WantedIsSound(t, lists, parse, digest, c, ManagedPath(t, env));
    AppliedRefers(w, w', unreadable, t, c, env, backup, out, ev);
    WantedIsEnforced(t, lists, parse, digest, c, env, a);
  }

  /** For nftables: the text that is loaded, read back, drops exactly what the target asks for. */
  lemma WantedIsFiltered(t: Target, lists: Lists, parse: Parser, digest: Digest, c: CIDRs, p: Packet)
    requires Valid(t, parse) && Plain(parse) && Wanted(t, lists, parse, digest, c)
    requires AllListed(parse, lists, EffectiveProviders(t))
    ensures var read := NftReader.ReadRuleset(Nftables.RulesetText(t, c));
            && read.Some? && read.value.name == Nftables.TableName(t.id)
            && (Nftables.Drops(read.value, parse, p) <==> Refused(t, lists, parse, p))
  {
    WantedIsNftText(t, lists, parse, digest, c);
    WantedExactly(t, lists, parse, digest, c);
    FilterRefuses(t, lists, parse, c, p);
    TwoModes(t, parse);
    NftReader.TextDropsPolicy(t, c, parse, p);
  }

  /** The text that is loaded can be read and does not drop the packet. */
  predicate NftablesAdmits(t: Target, c: CIDRs, parse: Parser, p: Packet) {
    var read := NftReader.ReadRuleset(Nftables.RulesetText(t, c));
    read.Some? && !Nftables.Drops(read.value, parse, p)
  }

  lemma WantedIsScript(t: Target, lists: Lists, parse: Parser, digest: Digest, c: CIDRs)
    requires Valid(t, parse) && Plain(parse) && Wanted(t, lists, parse, digest, c)
    requires AllListed(parse, lists, EffectiveProviders(t))
    ensures var read := IptablesText.ReadScript(Iptables.NamesOf(t.id), IptablesText.ScriptText(t, c));
            read == Some(Iptables.Script(t, c))
  {
    WantedIsListable(t, lists, parse, digest, c);
    WantedParses(t, lists, parse, digest, c);
    ModeOneLine(t, parse);
    EntriesAreWords(parse, c.v4);
    EntriesAreWords(parse, c.v6);
    IptablesText.ScriptReads(t, c);
  }

  lemma EntriesAreWords(parse: Parser, ls: seq<string>)
    requires Plain(parse) && AllParse(parse, ls)
    ensures IptablesText.EntriesOk(ls)
  {
    forall i | 0 <= i < |ls| ensures IptablesText.NameOk(ls[i]) {
      SpelledIsWord(ls[i]);
    }
  }

  /** The kernel after the script, as its text is read, has run through. */
  function Ran(k: Iptables.Kernel, t: Target, c: CIDRs, parse: Parser): (r: Option<Iptables.Kernel>) {
    var n := Iptables.NamesOf(t.id);
    var cmds := IptablesText.ReadScript(n, IptablesText.ScriptText(t, c));
    if cmds.None? then None else Iptables.Exec(k, n, parse, cmds.value)
  }

  /** For iptables: after any history the text of the script, read back, runs through in allow mode and leaves a
      kernel that drops exactly what the target asks for. */
  lemma WantedIsScripted(k0: Iptables.Kernel, k: Iptables.Kernel, jobs: seq<IptablesHistory.Job>, t: Target,
                         lists: Lists, parse: Parser, digest: Digest, c: CIDRs, p: Packet)
    requires Valid(t, parse) && Plain(parse) && Wanted(t, lists, parse, digest, c)
    requires AllListed(parse, lists, EffectiveProviders(t)) && t.mode == "allow"
    requires IptablesRuns.Addable(parse, V4, c.v4) && IptablesRuns.Addable(parse, V6, c.v6)
    requires IptablesRuns.Clean(k0, Iptables.NamesOf(t.id)) && IptablesHistory.History(k0, t.id, parse, jobs, k)
    ensures Ran(k, t, c, parse).Some?
    ensures Iptables.DroppedBy(Ran(k, t, c, parse).value, Iptables.NamesOf(t.id), p)
            <==> Refused(t, lists, parse, p)
  {
    WantedExactly(t, lists, parse, digest, c);
    FilterRefuses(t, lists, parse, c, p);
    WantedIsScript(t, lists, parse, digest, c);
    IptablesHistory.Converges(k0, k, jobs, t, c, parse);
  }

  /** The text of the script, read back, runs through and leaves a kernel that does not drop the packet. */
  predicate IptablesAdmits(k: Iptables.Kernel, t: Target, c: CIDRs, parse: Parser, p: Packet) {
    var done := Ran(k, t, c, parse);
    done.Some? && !Iptables.DroppedBy(done.value, Iptables.NamesOf(t.id), p)
  }

  /** Nobody locks the operator out: in allow mode, with lists that the kernel's sets take, neither the
      nftables text that is loaded nor, after any history, the iptables script drops a packet from one of
      the operator's own ranges. */
  lemma OperatorAdmitted(k0: Iptables.Kernel, k: Iptables.Kernel, jobs: seq<IptablesHistory.Job>, t: Target,
                         lists: Lists, parse: Parser, digest: Digest, c: CIDRs, e: string, p: Packet)
    requires Valid(t, parse) && Plain(parse) && Wanted(t, lists, parse, digest, c)
    requires AllListed(parse, lists, EffectiveProviders(t)) && t.mode == "allow"
    requires IptablesRuns.Addable(parse, V4, c.v4) && IptablesRuns.Addable(parse, V6, c.v6)
    requires IptablesRuns.Clean(k0, Iptables.NamesOf(t.id)) && IptablesHistory.History(k0, t.id, parse, jobs, k)
    requires e in t.adminAllowIPs && parse(e).Some? && Contains(parse(e).value, p.src)
    ensures NftablesAdmits(t, c, parse, p) && IptablesAdmits(k, t, c, parse, p)
  {
    assert ListedFor(t, lists, parse, p.src);
    WantedIsFiltered(t, lists, parse, digest, c, p);
    WantedIsScripted(k0, k, jobs, t, lists, parse, digest, c, p);
  }
}
