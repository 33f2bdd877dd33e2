/** One call of the applier under its lock: fetch, compare fingerprints, run the engine, record. */
module Applier {
  import opened Text
  import opened Policy
  import opened Fetcher
  import opened Targets
  import opened ConfigApply
  import opened ConfigRemove
  import opened State
  import opened Fingerprint
  import SkipRuns
  import Renders

  datatype Report = Report(id: string, provider: string, ok: bool, changed: bool, hash: string, ranges: nat,
                           message: string)

  /** A config engine, ready to use: the plan for a target, and for its removal. */
  type Planner = (Target, Option<CIDRs>) -> Plan

  /** The lists that a target is about: its providers' lists, and in allow mode the operator's own ranges. */
  ghost predicate Wanted(t: Target, lists: Lists, parse: Parser, digest: Digest, c: CIDRs) {
    var providers := EffectiveProviders(t);
    && providers != [] && AllFetchable(lists, providers)
    && if t.mode == "allow" && t.adminAllowIPs != []
       then exists m :: Merged(lists, digest, providers, m) && Extended(m, parse, digest, t.adminAllowIPs, c)
       else Merged(lists, digest, providers, c)
  }

  /** Some provider lists the entry. */
  predicate Offers(lists: Lists, providers: seq<string>, f: Family, x: string) {
    exists i :: 0 <= i < |providers| && lists(providers[i], f).Ok? && x in lists(providers[i], f).value
  }

  /** It is one of the operator's own ranges, of this family. */
  predicate Extra(t: Target, parse: Parser, f: Family, x: string) {
    x in t.adminAllowIPs && parse(x).Some? && parse(x).value.family == f
  }

  /** The lists hold what the providers offer and, in allow mode, the operator's own ranges; nothing else. */
  ghost predicate ListsExactly(t: Target, lists: Lists, parse: Parser, c: CIDRs) {
    && (forall x :: x in c.v4 <==>
          Offers(lists, EffectiveProviders(t), V4, x) || (t.mode == "allow" && Extra(t, parse, V4, x)))
    && (forall x :: x in c.v6 <==>
          Offers(lists, EffectiveProviders(t), V6, x) || (t.mode == "allow" && Extra(t, parse, V6, x)))
  }

  /** Over these lists no allow-mode filter drops a packet from one of the operator's own ranges. */
  ghost predicate AdmitsOperator(t: Target, parse: Parser, c: CIDRs) {
    forall e, ports, p: Packet {:trigger Contains(parse(e).value, p.src), FilterOf(parse, true, ports, c)} ::
      e in t.adminAllowIPs && parse(e).Some? && Contains(parse(e).value, p.src) ==>
        !FilterOf(parse, true, ports, c).Drops(p)
  }

  lemma WantedExactly(t: Target, lists: Lists, parse: Parser, digest: Digest, c: CIDRs)
    requires Wanted(t, lists, parse, digest, c)
    ensures ListsExactly(t, lists, parse, c)
  {
    WantedOf(t, lists, parse, digest, c, V4);
    WantedOf(t, lists, parse, digest, c, V6);
  }

  lemma WantedOf(t: Target, lists: Lists, parse: Parser, digest: Digest, c: CIDRs, f: Family)
    requires Wanted(t, lists, parse, digest, c)
    ensures forall x :: x in (if f.V4? then c.v4 else c.v6) <==>
              Offers(lists, EffectiveProviders(t), f, x) || (t.mode == "allow" && Extra(t, parse, f, x))
  {
    var providers := EffectiveProviders(t);
    var listed := if f.V4? then c.v4 else c.v6;
    forall x ensures x in listed <==> Offers(lists, providers, f, x) || (t.mode == "allow" && Extra(t, parse, f, x)) {
      OffersExactly(lists, providers, f, x);
      assert x in listed <==> x in Elements(listed);
      assert Extra(t, parse, f, x) <==> x in ExtrasOf(parse, t.adminAllowIPs, f);
    }
  }

  lemma OffersExactly(lists: Lists, providers: seq<string>, f: Family, x: string)
    requires AllFetchable(lists, providers)
    ensures x in Offer(lists, providers, f) <==> Offers(lists, providers, f, x)
  {
    OfferMeaning(lists, providers, f, x);
  }

  /** In allow mode each of a valid target's operator ranges is listed. */
  lemma OperatorListed(t: Target, lists: Lists, parse: Parser, c: CIDRs)
    requires ListsExactly(t, lists, parse, c) && t.mode == "allow" && Valid(t, parse)
    ensures forall e :: e in t.adminAllowIPs ==> e in c.v4 || e in c.v6
  {
    forall e | e in t.adminAllowIPs ensures e in c.v4 || e in c.v6 {
      var i :| 0 <= i < |t.adminAllowIPs| && t.adminAllowIPs[i] == e;
      assert Extra(t, parse, parse(e).value.family, e);
    }
  }

  /** In allow mode the operator gets through. */
  lemma ExactlyAdmits(t: Target, lists: Lists, parse: Parser, c: CIDRs)
    requires ListsExactly(t, lists, parse, c) && t.mode == "allow"
    ensures AdmitsOperator(t, parse, c)
  {
    forall e, ports, p: Packet | e in t.adminAllowIPs && parse(e).Some? && Contains(parse(e).value, p.src)
      ensures !FilterOf(parse, true, ports, c).Drops(p)
    {
      assert Extra(t, parse, p.src.family, e);
      ListedAdmits(parse, c, ports, e, p);
    }
  }

  const ENGINES := {"nginx", "caddy", "apache", "haproxy", "nftables", "iptables", "ufw"}

  predicate TransportOk(t: Target) {
    t.transport == "" || t.transport == "local" || (t.transport == "docker" && t.docker.container != "")
  }

  /** There is an engine of that name and a way to the host. */
  predicate Supported(t: Target) {
    t.engine in ENGINES && TransportOk(t)
  }

  /** What a call came to: refused before anything was done, skipped, or handed to the engine. */
  datatype Way = Declined | Skipped(c: CIDRs) | Run(c: CIDRs, ev: seq<Event>)

  /** A call that was not declined, as a step of a run. */
  function ActOf(t: Target, way: Way, force: bool, when: int, backup: string, r: Report): (a: SkipRuns.Act)
    requires !way.Declined?
  {
    SkipRuns.Apply(t, way.c, force, when, backup, way.Skipped?, Outcome(r.ok, r.changed, r.message), if way.Run?
                   then way.ev else [])
  }

  class Applier {
    const tr: Transport
    const store: Store?
    const parse: Parser
    const digest: Digest
    const plans: Planner
    const dryRun: bool

    constructor (tr: Transport, store: Store?, parse: Parser, digest: Digest, plans: Planner, dryRun: bool)
      ensures this.tr == tr && this.store == store && this.parse == parse && this.digest == digest
      ensures this.plans == plans && this.dryRun == dryRun
    {
      this.tr, this.store, this.parse, this.digest, this.plans, this.dryRun := tr, store, parse, digest, plans, dryRun;
    }

    ghost function Entries(): Entries
      reads this.store
    {
      if store == null then map[] else store.entries
    }

    /** What is wanted, or an error. */
    method Want(t: Target, lists: Lists) returns (r: Result<CIDRs>)
      ensures r.Ok? ==> Wanted(t, lists, parse, digest, r.value)
      ensures r.Ok? <==> EffectiveProviders(t) != [] && AllFetchable(lists, EffectiveProviders(t))
    {
      var providers := EffectiveProviders(t);
      if providers == [] {
        return Err("no provider configured");
      }
      r := FetchMerged(lists, digest, providers);
      if r.Err? {
        return Err("fetch failed: " + r.message);
      }
      if t.mode == "allow" && |t.adminAllowIPs| > 0 {
        ghost var m := r.value;
        var c := WithExtra(r.value, parse, digest, t.adminAllowIPs);
        assert Merged(lists, digest, providers, m);
        r := Ok(c);
      }
    }

    /** What stays the same over a run of this applier's calls. */
    ghost function Setting(): SkipRuns.Setting {
      SkipRuns.Setting(plans, (t, c) => FingerprintOf(digest, t, c), (t, c) => true, (t, c, conf) => true,
                       tr.unreadable)
    }

    ghost function Sys(): SkipRuns.Sys
      reads this.store, tr
      requires store != null
    {
      SkipRuns.Sys(tr.Now(), store.entries, store.disk)
    }

    method ApplyLocked(t: Target, lists: Lists, force: bool, when: int, backup: string)
        returns (r: Report, ghost way: Way)
      requires forall c :: DistinctPaths(plans(t, Some(c)), backup)
      requires store == null || (store as object) != tr
      modifies tr, store
      ensures way.Declined? <==> !(Valid(t, parse) && Supported(t) && AllFetchable(lists, EffectiveProviders(t)))
      ensures way.Declined? ==> !r.ok && !r.changed && tr.Now() == old(tr.Now()) && Entries() == old(Entries())
      ensures !way.Declined? ==>
                && Wanted(t, lists, parse, digest, way.c)
                && r.hash == way.c.hash && r.ranges == |way.c.v4| + |way.c.v6| && r.provider == way.c.provider
                && (way.Skipped? <==>
                      && !dryRun && !force
                      && old(t.id in Entries() && Entries()[t.id].fingerprint == FingerprintOf(digest, t, way.c)))
      ensures !way.Declined? && t.mode == "allow" ==>
                forall e :: e in t.adminAllowIPs ==> e in way.c.v4 || e in way.c.v6
      ensures !way.Declined? ==> ListsExactly(t, lists, parse, way.c)
      ensures !way.Declined? && t.mode == "allow" ==> AdmitsOperator(t, parse, way.c)
      ensures way.Skipped? ==> r.ok && !r.changed && tr.Now() == old(tr.Now()) && Entries() == old(Entries())
      ensures way.Run? ==>
                var out := Outcome(r.ok, r.changed, r.message);
                if dryRun then DryRunStep(old(tr.Now()), tr.Now(), tr.unreadable, plans(t, Some(way.c)), out)
                    && Entries() == old(Entries())
                else
                  && ApplyStep(old(tr.Now()), tr.Now(), tr.unreadable, plans(t, Some(way.c)), backup, out, way.ev)
                  && Entries() == if r.ok && store != null
                                  then old(Entries())[t.id := Entry(way.c.hash, FingerprintOf(digest, t, way.c), when)]
                                  else old(Entries())
      ensures store != null ==> store.disk == old(store.disk) || store.disk == store.entries
      ensures store != null && !dryRun && !way.Declined? && old(store.disk == store.entries)
              && store.disk == store.entries ==>
                SkipRuns.Step(Setting(), old(Sys()), ActOf(t, way, force, when, backup, r), Sys())
    {
      way := Declined;
      r := Report(t.id, t.provider, false, false, "", 0, "");
      var valid := Validate(t, parse);
      if !valid {
        return r.(message := "invalid target"), way;
      }
      if t.engine !in ENGINES {
        return r.(message := "unsupported engine"), way;
      }
      if !TransportOk(t) {
        return r.(message := "unknown transport, or no container"), way;
      }
      var want := Want(t, lists);
      if want.Err? {
        return r.(message := want.message), way;
      }
      var c := want.value;
      WantedExactly(t, lists, parse, digest, c);
      if t.mode == "allow" {
        ExactlyAdmits(t, lists, parse, c);
        OperatorListed(t, lists, parse, c);
      }
      r, way := Proceed(t, c, force, when, backup);
    }

    /** Skip, or run the engine. */
    method Proceed(t: Target, c: CIDRs, force: bool, when: int, backup: string) returns (r: Report, ghost way: Way)
      requires DistinctPaths(plans(t, Some(c)), backup)
      requires store == null || (store as object) != tr
      modifies tr, store
      ensures !way.Declined? && way.c == c
      ensures r.hash == c.hash && r.ranges == |c.v4| + |c.v6| && r.provider == c.provider
      ensures way.Skipped? <==>
                && !dryRun && !force
                && old(t.id in Entries() && Entries()[t.id].fingerprint == FingerprintOf(digest, t, c))
      ensures way.Skipped? ==> r.ok && !r.changed && tr.Now() == old(tr.Now()) && Entries() == old(Entries())
      ensures way.Run? ==>
                var out := Outcome(r.ok, r.changed, r.message);
                if dryRun then DryRunStep(old(tr.Now()), tr.Now(), tr.unreadable, plans(t, Some(c)), out)
                    && Entries() == old(Entries())
                else
                  && ApplyStep(old(tr.Now()), tr.Now(), tr.unreadable, plans(t, Some(c)), backup, out, way.ev)
                  && Entries() == if r.ok && store != null
                                  then old(Entries())[t.id := Entry(c.hash, FingerprintOf(digest, t, c), when)]
                                  else old(Entries())
      ensures store != null ==> store.disk == old(store.disk) || store.disk == store.entries
      ensures store != null && !dryRun && old(store.disk == store.entries) && store.disk == store.entries ==>
                SkipRuns.Step(Setting(), old(Sys()), ActOf(t, way, force, when, backup, r), Sys())
    {
      r := Report(t.id, c.provider, false, false, c.hash, |c.v4| + |c.v6|, "");
      var fingerprint := DesiredFingerprint(t, c.hash, digest);
      if !dryRun && !force && store != null {
        var prev := store.Get(t.id);
        if prev.Some? && prev.value.fingerprint == fingerprint {
          way := Skipped(c);
          return r.(ok := true, message := "up to date"), way;
        }
      }
      var out, ev := RunEngine(t, c, fingerprint, when, backup);
      r := r.(ok := out.ok, changed := out.changed, message := out.message);
      way := Run(c, ev);
    }

    /** The engine's part, and the record of a success. */
    method RunEngine(t: Target, c: CIDRs, fingerprint: string, when: int, backup: string)
        returns (out: Outcome, ghost ev: seq<Event>)
      requires DistinctPaths(plans(t, Some(c)), backup)
      requires store == null || (store as object) != tr
      modifies tr, store
      ensures dryRun ==>
                && DryRunStep(old(tr.Now()), tr.Now(), tr.unreadable, plans(t, Some(c)), out)
                && Entries() == old(Entries())
      ensures !dryRun ==>
                && ApplyStep(old(tr.Now()), tr.Now(), tr.unreadable, plans(t, Some(c)), backup, out, ev)
                && Entries() == if out.ok && store != null then old(Entries())[t.id := Entry(c.hash, fingerprint, when)]
                    else old(Entries())
      ensures store != null ==> store.disk == old(store.disk) || store.disk == store.entries
    {
      ev := [];
      if dryRun {
        out := DryRunConfig(tr, plans(t, Some(c)));
        return;
      }
      out, ev := ApplyConfig(tr, plans(t, Some(c)), backup);
      if out.ok && store != null {
        var saved := store.Record(t.id, Entry(c.hash, fingerprint, when));
      }
    }

    method Remove(t: Target, backup: string) returns (r: Report, ghost ev: seq<Event>)
      requires DistinctPaths(plans(t, None), backup)
      requires store == null || (store as object) != tr
      modifies tr, store
      ensures !Supported(t) ==> !r.ok && !r.changed && tr.Now() == old(tr.Now())
      ensures Supported(t) ==>
                RemoveStep(old(tr.Now()), tr.Now(), tr.unreadable, plans(t, None), backup,
                           Outcome(r.ok, r.changed, r.message), ev)
      ensures Entries() == if r.ok then old(Entries()) - {t.id} else old(Entries())
      ensures store != null ==> store.disk == old(store.disk) || store.disk == store.entries
      ensures store != null && Supported(t) && old(store.disk == store.entries) && store.disk == store.entries ==>
                SkipRuns.Step(Setting(), old(Sys()),
                              SkipRuns.Remove(t, backup, Outcome(r.ok, r.changed, r.message), ev), Sys())
    {
      ev := [];
      if t.engine !in ENGINES {
        return Report(t.id, t.provider, false, false, "", 0, "unsupported engine"), ev;
      }
      if !TransportOk(t) {
        return Report(t.id, t.provider, false, false, "", 0, "unknown transport, or no container"), ev;
      }
      var out;
      out, ev := RemoveConfig(tr, plans(t, None), backup);
      r := Report(t.id, t.provider, out.ok, out.changed, "", 0, out.message);
      if out.ok && store != null {
        var saved := store.Forget(t.id);
      }
    }
  }

  // ---------- what is wanted is well formed ----------

  /** What addresses and prefix lengths are spelled with. */
  predicate AddressChar(c: char) {
    '0' <= c <= '9' || 'a' <= c <= 'f' || 'A' <= c <= 'F' || c == '.' || c == ':' || c == '/'
  }

  predicate Spelled(e: string) {
    e != "" && forall i :: 0 <= i < |e| ==> AddressChar(e[i])
  }

  /** What a CIDR parser accepts is spelled as addresses are. */
  ghost predicate Plain(parse: Parser) {
    forall e :: parse(e).Some? ==> Spelled(e)
  }

  /** So it is one word for every reader, and none of their own words. */
  lemma SpelledIsWord(e: string)
    requires Spelled(e)
    ensures OneLine(e) && e != SEPARATOR && Renders.Word(e) && ',' !in e && e != "all" && e != "true"
  {
    assert SEPARATOR[0] == '-' && "all"[1] == 'l' && "true"[0] == 't';
  }

  lemma SpelledAreLines(parse: Parser, ls: seq<string>)
    requires Plain(parse) && AllParse(parse, ls)
    ensures AllOneLine(ls) && SEPARATOR !in ls
  {
    forall i | 0 <= i < |ls| ensures OneLine(ls[i]) && ls[i] != SEPARATOR {
      SpelledIsWord(ls[i]);
    }
  }

  predicate AllParse(parse: Parser, ls: seq<string>) {
    forall i :: 0 <= i < |ls| ==> parse(ls[i]).Some?
  }

  /** A list that was read is the listing of some answer of the data source; see FetchList. */
  ghost predicate Listed(parse: Parser, r: Result<seq<string>>) {
    r.Ok? ==> exists answer :: Listing(answer, parse, r.value)
  }

  ghost predicate AllListed(parse: Parser, lists: Lists, providers: seq<string>) {
    forall i, f :: 0 <= i < |providers| ==> Listed(parse, lists(providers[i], f))
  }

  /** So it holds CIDRs only. */
  lemma ListedParses(parse: Parser, r: Result<seq<string>>)
    requires Listed(parse, r)
    ensures r.Ok? ==> AllParse(parse, r.value)
  {
    if r.Ok? {
      var answer :| Listing(answer, parse, r.value);
      ListingParses(answer, parse, r.value);
    }
  }

  lemma ElementsParse(parse: Parser, a: seq<string>, all: set<string>)
    requires Elements(a) == all && forall e :: e in all ==> parse(e).Some?
    ensures AllParse(parse, a)
  {
    forall i | 0 <= i < |a| ensures parse(a[i]).Some? {
      assert a[i] in Elements(a);
    }
  }

  lemma OfferParses(lists: Lists, providers: seq<string>, f: Family, parse: Parser)
    requires forall i :: 0 <= i < |providers| ==> lists(providers[i], f).Ok? && Listed(parse, lists(providers[i], f))
    ensures forall e :: e in Offer(lists, providers, f) ==> parse(e).Some?
  {
    forall e | e in Offer(lists, providers, f) ensures parse(e).Some? {
      OfferMeaning(lists, providers, f, e);
      var i :| 0 <= i < |providers| && e in lists(providers[i], f).value;
      ListedParses(parse, lists(providers[i], f));
    }
  }

  lemma MergedParses(lists: Lists, digest: Digest, providers: seq<string>, parse: Parser, c: CIDRs)
    requires AllFetchable(lists, providers) && Merged(lists, digest, providers, c)
    requires AllListed(parse, lists, providers)
    ensures AllParse(parse, c.v4) && AllParse(parse, c.v6)
  {
    OfferParses(lists, providers, V4, parse);
    OfferParses(lists, providers, V6, parse);
    ElementsParse(parse, c.v4, Offer(lists, providers, V4));
    ElementsParse(parse, c.v6, Offer(lists, providers, V6));
  }

  lemma ExtendedParses(m: CIDRs, parse: Parser, digest: Digest, extra: seq<string>, c: CIDRs)
    requires AllParse(parse, m.v4) && AllParse(parse, m.v6) && Extended(m, parse, digest, extra, c)
    ensures AllParse(parse, c.v4) && AllParse(parse, c.v6)
  {
    ElementsParse(parse, c.v4, Elements(m.v4) + ExtrasOf(parse, extra, V4));
    ElementsParse(parse, c.v6, Elements(m.v6) + ExtrasOf(parse, extra, V6));
  }

  lemma {:induction false} LabelOneLine(providers: seq<string>)
    requires forall i :: 0 <= i < |providers| ==> ValidProvider(providers[i])
    ensures OneLine(Concat(providers, "+"))
  {
    if |providers| > 1 {
      LabelOneLine(providers[1..]);
      assert OneLine(providers[0] + "+");
    }
  }

  lemma WantedParses(t: Target, lists: Lists, parse: Parser, digest: Digest, c: CIDRs)
    requires Wanted(t, lists, parse, digest, c)
    requires AllListed(parse, lists, EffectiveProviders(t))
    ensures AllParse(parse, c.v4) && AllParse(parse, c.v6)
  {
    var providers := EffectiveProviders(t);
    if t.mode == "allow" && t.adminAllowIPs != [] {
      var m :| Merged(lists, digest, providers, m) && Extended(m, parse, digest, t.adminAllowIPs, c);
      MergedParses(lists, digest, providers, parse, m);
      ExtendedParses(m, parse, digest, t.adminAllowIPs, c);
    } else {
      MergedParses(lists, digest, providers, parse, c);
    }
  }

  /** Whatever a valid target gets from the data source can be read back from what is hashed. */
  lemma WantedIsListable(t: Target, lists: Lists, parse: Parser, digest: Digest, c: CIDRs)
    requires Valid(t, parse) && Plain(parse) && Wanted(t, lists, parse, digest, c)
    requires AllListed(parse, lists, EffectiveProviders(t))
    ensures Listable(c.provider, c.v4, c.v6) && c.hash == digest(Content(c))
  {
    LabelOneLine(EffectiveProviders(t));
    WantedParses(t, lists, parse, digest, c);
    SpelledAreLines(parse, c.v4);
    SpelledAreLines(parse, c.v6);
  }

  lemma ParsedAreWords(parse: Parser, ls: seq<string>)
    requires Plain(parse) && AllParse(parse, ls)
    ensures Renders.AllWords(ls) && "all" !in ls
  {
    forall i | 0 <= i < |ls| ensures Renders.Word(ls[i]) && ls[i] != "all" {
      SpelledIsWord(ls[i]);
    }
  }

  lemma WantedWords(t: Target, lists: Lists, parse: Parser, digest: Digest, c: CIDRs)
    requires Wanted(t, lists, parse, digest, c) && AllListed(parse, lists, EffectiveProviders(t)) && Plain(parse)
    ensures Renders.AllWords(c.v4) && Renders.AllWords(c.v6) && "all" !in c.v4 + c.v6
  {
    WantedParses(t, lists, parse, digest, c);
    ParsedAreWords(parse, c.v4);
    ParsedAreWords(parse, c.v6);
  }

  /** And the nginx include that is written for it can be read. */
  lemma WantedIsWritable(t: Target, lists: Lists, parse: Parser, digest: Digest, c: CIDRs)
    requires Valid(t, parse) && Plain(parse) && Wanted(t, lists, parse, digest, c)
    requires AllListed(parse, lists, EffectiveProviders(t))
    requires OneLine(c.hash)
    ensures Renders.Writable(t, c) && "all" !in c.v4 + c.v6
  {
    WantedIsListable(t, lists, parse, digest, c);
    WantedWords(t, lists, parse, digest, c);
    ModeOneLine(t, parse);
    assert OneLine(c.provider);
  }

  lemma ModeOneLine(t: Target, parse: Parser)
    requires Valid(t, parse)
    ensures OneLine(t.mode)
  {
  }
}
