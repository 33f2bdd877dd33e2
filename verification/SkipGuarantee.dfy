/** The guarantee behind skipping, for the config engines and their fingerprint. */
module SkipGuarantee {
  import opened Text
  import opened Fetcher
  import opened Targets
  import opened ConfigApply
  import opened EnginePlans
  import opened Fingerprint
  import opened Placements
  import opened SkipRuns
  import Transactions

  /** A request for a config engine that can be read back, and whose hashed texts are among these. */
  ghost predicate Admitted(digest: Digest, env: Env, texts: iset<string>, t: Target, c: CIDRs) {
    && IsConfigEngine(t.engine) && OneLine(t.id) && OneLine(ManagedPath(t, env)) && WellFormed(digest, t, c)
    && PreImage(CoreOf(t, c.hash)) in texts && Content(c) in texts
  }

  /** The digest has no collision among these texts. */
  ghost predicate NoCollision(digest: Digest, texts: iset<string>) {
    forall x, y :: x in texts && y in texts && digest(x) == digest(y) ==> x == y
  }

  /** The config engines; a config file fits a request as EnginePlans says, which asks nothing of the files
      of Apache and HAProxy. */
  ghost function SettingOf(digest: Digest, env: Env, texts: iset<string>, unreadable: set<string>): Setting {
    Setting((t, c) => PlanOf(t, c, env), (t, c) => FingerprintOf(digest, t, c),
            (t, c) => Admitted(digest, env, texts, t, c),
            (t, c, conf) => Fits(t, Some(c), ManagedPath(t, env), conf), unreadable)
  }

  lemma SamePlan(digest: Digest, env: Env, texts: iset<string>, t1: Target, c1: CIDRs, t2: Target, c2: CIDRs)
    requires NoCollision(digest, texts) && Admitted(digest, env, texts, t1, c1) && Admitted(digest, env, texts, t2, c2)
    requires t1.id == t2.id && FingerprintOf(digest, t1, c1) == FingerprintOf(digest, t2, c2)
    ensures PlanOf(t1, Some(c1), env) == PlanOf(t2, Some(c2), env)
  {
    FingerprintCovers(digest, t1, c1, t2, c2, env);
  }

  lemma SettingCovers(digest: Digest, env: Env, texts: iset<string>, unreadable: set<string>)
    requires NoCollision(digest, texts)
    ensures Covers(SettingOf(digest, env, texts, unreadable))
  {
    var s := SettingOf(digest, env, texts, unreadable);
    forall t1, c1, t2, c2 | s.admits(t1, c1) && s.admits(t2, c2) && t1.id == t2.id
        && s.prints(t1, c1) == s.prints(t2, c2)
      ensures s.plans(t1, Some(c1)) == s.plans(t2, Some(c2))
    {
      SamePlan(digest, env, texts, t1, c1, t2, c2);
    }
  }

  lemma ListablePlain(c: CIDRs)
    requires Listable(c.provider, c.v4, c.v6)
    ensures PlainRanges(Some(c))
  {
    forall i | 0 <= i < |c.v4 + c.v6| ensures OneLine((c.v4 + c.v6)[i]) {
      assert (c.v4 + c.v6)[i] == if i < |c.v4| then c.v4[i] else c.v6[i - |c.v4|];
    }
  }

  lemma AdmittedSound(digest: Digest, env: Env, texts: iset<string>, t: Target, c: CIDRs)
    requires Admitted(digest, env, texts, t, c)
    ensures Sound(t, Some(c), ManagedPath(t, env))
  {
    ListablePlain(c);
  }

  lemma AdmittedSettles(digest: Digest, env: Env, texts: iset<string>, t: Target, c: CIDRs, conf: string)
    requires Admitted(digest, env, texts, t, c) && Fits(t, Some(c), ManagedPath(t, env), conf)
    ensures Transactions.SettlesOn(PlanOf(t, Some(c), env), conf)
  {
    AdmittedSound(digest, env, texts, t, c);
    EngineSettles(t, Some(c), env, conf);
  }

  lemma SettingSettles(digest: Digest, env: Env, texts: iset<string>, unreadable: set<string>)
    ensures Settling(SettingOf(digest, env, texts, unreadable))
  {
    var s := SettingOf(digest, env, texts, unreadable);
    forall t, c, conf | s.admits(t, c) && s.fits(t, c, conf) ensures Transactions.SettlesOn(s.plans(t, Some(c)), conf) {
      AdmittedSettles(digest, env, texts, t, c, conf);
    }
  }

  /** For the config engines and the fingerprint as it is computed, without a collision among the texts
      hashed in the run: whenever an apply is skipped, running the engine would have been a no-op. For nginx
      and for Caddy with real_ip, each apply that is not skipped meets a config file that it fits. */
  lemma EngineSkipsAreNoOps(digest: Digest, env: Env, texts: iset<string>, unreadable: set<string>, paths: Paths,
                            y: Sys, acts: seq<Act>, ys: seq<Sys>, i: nat, w': World, backup: string, out: Outcome,
                                ev: seq<Event>)
    requires NoCollision(digest, texts) && Separate(paths)
    requires y.entries == map[] && y.disk == map[]
             && Trace(SettingOf(digest, env, texts, unreadable), paths, y, acts, ys)
    requires i < |acts| && acts[i].Apply? && acts[i].skipped
    requires ApplyStep((if i == 0 then y else ys[i - 1]).w, w', unreadable, PlanOf(acts[i].t, Some(acts[i].c), env),
                       backup, out, ev)
    ensures out.ok && !out.changed && ev == [] && w' == (if i == 0 then y else ys[i - 1]).w
  {
    SettingCovers(digest, env, texts, unreadable);
    SettingSettles(digest, env, texts, unreadable);
    SkipsAreNoOps(SettingOf(digest, env, texts, unreadable), paths, y, acts, ys, i, w', backup, out, ev);
  }

  // ---------- fixed places ----------

  /** A place for every id, on one line. */
  type Places = string -> Placement

  ghost function SiteOf(env: Env, places: Places): Site {
    Site((id: string) => places(id).conf,
         (t: Target) => Placed(t, places(t.id), env) && OneLine(places(t.id).path),
         (id: string, conf: string) => GoodConf(places(id), conf))
  }

  lemma ClosedEdit(digest: Digest, env: Env, texts: iset<string>, places: Places, t: Target, c: CIDRs, conf: string)
    requires Admitted(digest, env, texts, t, c) && Placed(t, places(t.id), env) && GoodConf(places(t.id), conf)
    ensures Fits(t, Some(c), ManagedPath(t, env), conf)
    ensures PlanOf(t, Some(c), env).inject(conf).Ok?
            ==> GoodConf(places(t.id), PlanOf(t, Some(c), env).inject(conf).value)
  {
    AdmittedSound(digest, env, texts, t, c);
    GoodFits(places(t.id), t, c, env, conf);
    if PlanOf(t, Some(c), env).inject(conf).Ok? {
      GoodEdit(places(t.id), t, c, env, conf);
    }
  }

  lemma SiteClosed(digest: Digest, env: Env, texts: iset<string>, unreadable: set<string>, places: Places)
    ensures Closed(SettingOf(digest, env, texts, unreadable), SiteOf(env, places))
  {
    var s, site := SettingOf(digest, env, texts, unreadable), SiteOf(env, places);
    forall t, c, conf | s.admits(t, c) && site.placed(t) && site.good(t.id, conf)
      ensures s.fits(t, c, conf)
      ensures s.plans(t, Some(c)).inject(conf).Ok? ==> site.good(t.id, s.plans(t, Some(c)).inject(conf).value)
    {
      ClosedEdit(digest, env, texts, places, t, c, conf);
    }
    forall t, conf | site.placed(t) && site.good(t.id, conf) ensures site.good(t.id, Cleaned(conf, s.plans(t, None))) {
      GoodClean(places(t.id), t, env, conf);
    }
  }

  /** The same for targets that keep engine, selector and files: the only condition on config files is on
      the ones there at the start, and it asks nothing of Apache's and HAProxy's. */
  lemma PlacedSkipsAreNoOps(digest: Digest, env: Env, texts: iset<string>, unreadable: set<string>, paths: Paths,
                            places: Places, ids: set<string>,
                            y: Sys, acts: seq<Act>, ys: seq<Sys>, i: nat, w': World, backup: string, out: Outcome,
                                ev: seq<Event>)
    requires NoCollision(digest, texts) && Separate(paths)
    requires y.entries == map[] && y.disk == map[]
             && Trace(Loose(SettingOf(digest, env, texts, unreadable)), paths, y, acts, ys)
    requires AtHome(SettingOf(digest, env, texts, unreadable), SiteOf(env, places), ids, acts)
    requires forall id :: id in ids ==> places(id).conf in paths(id)
    requires forall id :: id in ids && places(id).conf in y.w.files ==> GoodConf(places(id), y.w.files[places(id).conf])
    requires i < |acts| && acts[i].Apply? && acts[i].skipped
    requires ApplyStep((if i == 0 then y else ys[i - 1]).w, w', unreadable, PlanOf(acts[i].t, Some(acts[i].c), env),
                       backup, out, ev)
    ensures out.ok && !out.changed && ev == [] && w' == (if i == 0 then y else ys[i - 1]).w
  {
    var s, site := SettingOf(digest, env, texts, unreadable), SiteOf(env, places);
    SiteClosed(digest, env, texts, unreadable, places);
    StartSuffices(s, site, ids, paths, y, acts, ys);
    EngineSkipsAreNoOps(digest, env, texts, unreadable, paths, y, acts, ys, i, w', backup, out, ev);
  }
}
