/** Skipping refines re-applying: over any run, a target that is skipped is one that has nothing to do. */
module SkipRuns {
  import opened Text
  import opened Fetcher
  import opened Targets
  import opened ConfigApply
  import opened Transactions
  import opened State

  /** The host, the applier's entries in memory, and those on disk. */
  datatype Sys = Sys(w: World, entries: Entries, disk: Entries)

  /** What one call did; a skip is an apply that did nothing. Restart is a new process reading the disk. */
  datatype Act =
    | Apply(t: Target, c: CIDRs, force: bool, when: int, backup: string, skipped: bool, out: Outcome, ev: seq<Event>)
    | Remove(t: Target, backup: string, out: Outcome, ev: seq<Event>)
    | Restart

  /** What stays the same over a run: the plan and the fingerprint of a request, which requests are
      admitted, which config files a request fits, and which files cannot be read. */
  datatype Setting = Setting(
    plans: (Target, Option<CIDRs>) -> Plan, prints: (Target, CIDRs) -> string,
    admits: (Target, CIDRs) -> bool, fits: (Target, CIDRs, string) -> bool, unreadable: set<string>)

  function PlanFor(s: Setting, a: Act): (r: Plan)
    requires !a.Restart?
  {
    s.plans(a.t, if a.Apply? then Some(a.c) else None)
  }

  predicate SkipsOn(s: Setting, y: Sys, a: Act)
    requires a.Apply?
  {
    !a.force && a.t.id in y.entries && y.entries[a.t.id].fingerprint == s.prints(a.t, a.c)
  }

  function Recorded(s: Setting, y: Sys, a: Act): (r: Entries)
    requires a.Apply?
  {
    y.entries[a.t.id := Entry(a.c.hash, s.prints(a.t, a.c), a.when)]
  }

  /** One call, as the applier makes it. The disk follows the memory; a save that fails is a fault. */
  ghost predicate Step(s: Setting, y: Sys, a: Act, y': Sys) {
    match a
    case Apply(_, _, _, _, backup, skipped, out, ev) =>
      && (skipped <==> SkipsOn(s, y, a))
      && if skipped then y' == y
         else
           && ApplyStep(y.w, y'.w, s.unreadable, PlanFor(s, a), backup, out, ev)
           && y'.entries == (if out.ok then Recorded(s, y, a) else y.entries)
           && y'.disk == (if out.ok then y'.entries else y.disk)
    case Remove(t, backup, out, ev) =>
      && RemoveStep(y.w, y'.w, s.unreadable, PlanFor(s, a), backup, out, ev)
      && y'.entries == (if out.ok then y.entries - {t.id} else y.entries)
      && y'.disk == (if out.ok then y'.entries else y.disk)
    case Restart => y'.w == y.w && y'.disk == y.disk && y'.entries == y.disk
  }

  // ---------- what a run may meet ----------

  /** Each target's own files. */
  type Paths = string -> set<string>

  ghost predicate Separate(paths: Paths) {
    forall i, j :: i != j ==> paths(i) !! paths(j)
  }

  ghost predicate Apart(paths: Paths, backup: string) {
    forall id :: backup !in paths(id)
  }

  /** With one id, equal fingerprints mean equal plans. */
  ghost predicate Covers(s: Setting) {
    forall t1, c1, t2, c2 ::
      s.admits(t1, c1) && s.admits(t2, c2) && t1.id == t2.id && s.prints(t1, c1) == s.prints(t2, c2)
      ==> s.plans(t1, Some(c1)) == s.plans(t2, Some(c2))
  }

  /** A request's edit settles on every config file that it fits. */
  ghost predicate Settling(s: Setting) {
    forall t, c, conf :: s.admits(t, c) && s.fits(t, c, conf) ==> SettlesOn(s.plans(t, Some(c)), conf)
  }

  /** The call stays within its target's files, its rollback, if any, succeeds, and an apply that is not
      skipped meets a config file that it fits. */
  ghost predicate Fair(s: Setting, paths: Paths, y: Sys, a: Act) {
    a.Restart? ||
    var plan := PlanFor(s, a);
    && plan.confFile in paths(a.t.id) && plan.managedPath in paths(a.t.id)
    && plan.confFile != plan.managedPath && Apart(paths, a.backup)
    && (a.Apply? ==>
          && s.admits(a.t, a.c) && plan.managedPath !in s.unreadable
          && (!a.skipped && plan.confFile in y.w.files ==> s.fits(a.t, a.c, y.w.files[plan.confFile])))
    && ((a.Apply? && a.skipped) || Undone(a.ev))
  }

  /** The states after each call, all of them fair. */
  ghost predicate Trace(s: Setting, paths: Paths, y: Sys, acts: seq<Act>, ys: seq<Sys>)
    decreases |acts|
  {
    && |ys| == |acts|
    && (acts != [] ==>
          && Fair(s, paths, y, acts[0]) && Step(s, y, acts[0], ys[0])
          && Trace(s, paths, ys[0], acts[1..], ys[1..]))
  }

  // ---------- the invariant ----------

  /** Which request each entry stands for. */
  type Ledger = map<string, (Target, CIDRs)>

  /** The entry of the id stands for this request, and the host is as the request wants it. */
  ghost predicate Kept(s: Setting, paths: Paths, y: Sys, id: string, t: Target, c: CIDRs) {
    var plan := s.plans(t, Some(c));
    && t.id == id && id in y.entries && s.admits(t, c)
    && plan.confFile in paths(id) && plan.managedPath in paths(id)
    && y.entries[id].fingerprint == s.prints(t, c)
    && Plannable(y.w.files, s.unreadable, plan) && UpToDate(y.w.files, s.unreadable, plan)
  }

  ghost predicate Inv(s: Setting, paths: Paths, y: Sys, l: Ledger) {
    && y.disk == y.entries && l.Keys == y.entries.Keys
    && forall id :: id in l ==> Kept(s, paths, y, id, l[id].0, l[id].1)
  }

  /** Being up to date depends on two files only. */
  lemma UpToDateAt(f: Files, f': Files, unreadable: set<string>, plan: Plan)
    requires SameAt(f, f', plan.confFile) && SameAt(f, f', plan.managedPath)
    ensures Plannable(f, unreadable, plan) == Plannable(f', unreadable, plan)
    ensures UpToDate(f, unreadable, plan) == UpToDate(f', unreadable, plan)
  {
    assert Readable(f, unreadable, plan.confFile) == Readable(f', unreadable, plan.confFile);
    assert Readable(f, unreadable, plan.managedPath) == Readable(f', unreadable, plan.managedPath);
  }

  /** Paths that the call neither owns nor uses for its backup. */
  lemma Untouched(s: Setting, y: Sys, a: Act, y': Sys, p: string)
    requires !a.Restart? && Step(s, y, a, y') && DistinctPaths(PlanFor(s, a), a.backup)
    requires p != a.backup && ((p != PlanFor(s, a).confFile && p != PlanFor(s, a).managedPath) || !a.out.ok)
    requires (a.Apply? && a.skipped) || (Undone(a.ev) && (a.Apply? ==> PlanFor(s, a).managedPath !in s.unreadable))
    ensures SameAt(y.w.files, y'.w.files, p)
  {
    var plan := PlanFor(s, a);
    if a.Apply? {
      if !a.skipped {
        if a.out.ok {
          AppliedFiles(y.w, y'.w, s.unreadable, plan, a.backup, a.out, a.ev);
        } else {
          RollbackExactly(y.w, y'.w, s.unreadable, plan, a.backup, a.out, a.ev);
        }
      }
    } else if !a.out.ok {
      RemovalRollback(y.w, y'.w, s.unreadable, plan, a.backup, a.out, a.ev, p);
    } else {
      RemovedUntouched(y.w, y'.w, s.unreadable, plan, a.backup, a.out, a.ev, p);
    }
  }

  lemma RemovedUntouched(w: World, w': World, unreadable: set<string>, plan: Plan, backup: string, out: Outcome,
                         ev: seq<Event>, p: string)
    requires RemoveStep(w, w', unreadable, plan, backup, out, ev) && out.ok
    requires p != plan.confFile && p != plan.managedPath && p != backup
    ensures SameAt(w.files, w'.files, p)
  {
    if plan.confFile in w.files && !AlreadyRemoved(w.files, plan) {
      var stripped := w.files[plan.confFile := Cleaned(w.files[plan.confFile], plan)];
      PointFromSame(w'.files, if ManagedGone(ev, plan) then stripped - {plan.managedPath} else stripped, backup, p);
    }
  }

  /** What an entry stands for outlives every fair call that leaves its entry and its two files alone. */
  lemma KeptOn(s: Setting, paths: Paths, y: Sys, y': Sys, id: string, t: Target, c: CIDRs)
    requires Kept(s, paths, y, id, t, c) && id in y'.entries && y'.entries[id] == y.entries[id]
    requires var plan := s.plans(t, Some(c));
             SameAt(y.w.files, y'.w.files, plan.confFile) && SameAt(y.w.files, y'.w.files, plan.managedPath)
    ensures Kept(s, paths, y', id, t, c)
  {
    UpToDateAt(y.w.files, y'.w.files, s.unreadable, s.plans(t, Some(c)));
  }

  /** The request of a successful apply is what its entry stands for. */
  lemma KeptByApply(s: Setting, paths: Paths, y: Sys, a: Act, y': Sys)
    requires Settling(s) && a.Apply? && !a.skipped && a.out.ok && Fair(s, paths, y, a) && Step(s, y, a, y')
    ensures Kept(s, paths, y', a.t.id, a.t, a.c)
  {
    var plan := PlanFor(s, a);
    AppliedIsUpToDate(y.w, y'.w, s.unreadable, plan, a.backup, a.out, a.ev);
  }

  function LedgerAfter(a: Act, l: Ledger): (r: Ledger) {
    if a.Apply? && !a.skipped && a.out.ok then l[a.t.id := (a.t, a.c)]
    else if a.Remove? && a.out.ok then l - {a.t.id}
    else l
  }

  /** An entry of another target, or of this one when the call failed. */
  lemma OthersKept(s: Setting, paths: Paths, y: Sys, a: Act, y': Sys, l: Ledger, id: string)
    requires Separate(paths) && Inv(s, paths, y, l) && !a.Restart? && Fair(s, paths, y, a) && Step(s, y, a, y')
    requires id in l && (id != a.t.id || !a.out.ok || (a.Apply? && a.skipped))
    ensures Kept(s, paths, y', id, l[id].0, l[id].1)
  {
    var t, c := l[id].0, l[id].1;
    var plan := s.plans(t, Some(c));
    assert Kept(s, paths, y, id, t, c);
    if !(a.Apply? && a.skipped) {
      var mine := PlanFor(s, a);
      assert id != a.t.id ==> paths(id) !! paths(a.t.id);
      Untouched(s, y, a, y', plan.confFile);
      Untouched(s, y, a, y', plan.managedPath);
    }
    KeptOn(s, paths, y, y', id, t, c);
  }

  lemma KeptAfter(s: Setting, paths: Paths, y: Sys, a: Act, y': Sys, l: Ledger, id: string)
    requires Separate(paths) && Settling(s) && Inv(s, paths, y, l) && Fair(s, paths, y, a) && Step(s, y, a, y')
    requires id in LedgerAfter(a, l)
    ensures Kept(s, paths, y', id, LedgerAfter(a, l)[id].0, LedgerAfter(a, l)[id].1)
  {
    if a.Restart? {
      KeptOn(s, paths, y, y', id, l[id].0, l[id].1);
    } else if a.Apply? && !a.skipped && a.out.ok && id == a.t.id {
      KeptByApply(s, paths, y, a, y');
    } else {
      OthersKept(s, paths, y, a, y', l, id);
    }
  }

  lemma KeysAfter(s: Setting, y: Sys, a: Act, y': Sys, l: Ledger)
    requires Step(s, y, a, y') && y.disk == y.entries && l.Keys == y.entries.Keys
    ensures y'.disk == y'.entries && LedgerAfter(a, l).Keys == y'.entries.Keys
  {
  }

  /** Every fair call keeps the invariant. */
  lemma StepKeepsInv(s: Setting, paths: Paths, y: Sys, a: Act, y': Sys, l: Ledger)
    requires Separate(paths) && Settling(s) && Inv(s, paths, y, l) && Fair(s, paths, y, a) && Step(s, y, a, y')
    ensures Inv(s, paths, y', LedgerAfter(a, l))
  {
    var l' := LedgerAfter(a, l);
    KeysAfter(s, y, a, y', l);
    forall id | id in l' ensures Kept(s, paths, y', id, l'[id].0, l'[id].1) {
      KeptAfter(s, paths, y, a, y', l, id);
    }
  }

  lemma {:induction false} TraceKeepsInv(s: Setting, paths: Paths, y: Sys, acts: seq<Act>, ys: seq<Sys>, l: Ledger,
                                         i: nat) returns (l': Ledger)
    requires Separate(paths) && Settling(s) && Inv(s, paths, y, l) && Trace(s, paths, y, acts, ys) && i <= |acts|
    ensures Inv(s, paths, if i == 0 then y else ys[i - 1], l')
    ensures i < |acts| ==>
              && Fair(s, paths, if i == 0 then y else ys[i - 1], acts[i])
              && Step(s, if i == 0 then y else ys[i - 1], acts[i], ys[i])
    decreases |acts|
  {
    if i == 0 {
      l' := l;
    } else {
      StepKeepsInv(s, paths, y, acts[0], ys[0], l);
      l' := TraceKeepsInv(s, paths, ys[0], acts[1..], ys[1..], LedgerAfter(acts[0], l), i - 1);
    }
  }

  /** Where the invariant holds, a skip is justified. */
  lemma SkipIsUpToDate(s: Setting, paths: Paths, y: Sys, l: Ledger, a: Act)
    requires Covers(s) && Inv(s, paths, y, l) && a.Apply? && s.admits(a.t, a.c) && SkipsOn(s, y, a)
    ensures Plannable(y.w.files, s.unreadable, PlanFor(s, a)) && UpToDate(y.w.files, s.unreadable, PlanFor(s, a))
  {
    var id := a.t.id;
    var t, c := l[id].0, l[id].1;
    assert Kept(s, paths, y, id, t, c);
    assert s.plans(a.t, Some(a.c)) == s.plans(t, Some(c));
  }

  /** Skipping refines re-applying. Over any run of applies (forced or not), removes and restarts of any
      number of targets, from an empty store, whatever the checkers and services answer: when an apply is
      skipped, running the engine instead would have answered ok and unchanged, with no write, validation
      or reload. */
  lemma SkipsAreNoOps(s: Setting, paths: Paths, y: Sys, acts: seq<Act>, ys: seq<Sys>, i: nat, w': World, backup: string,
                      out: Outcome, ev: seq<Event>)
    requires Separate(paths) && Covers(s) && Settling(s)
    requires y.entries == map[] && y.disk == map[] && Trace(s, paths, y, acts, ys)
    requires i < |acts| && acts[i].Apply? && acts[i].skipped
    requires ApplyStep((if i == 0 then y else ys[i - 1]).w, w', s.unreadable, PlanFor(s, acts[i]), backup, out, ev)
    ensures out.ok && !out.changed && ev == [] && w' == (if i == 0 then y else ys[i - 1]).w
  {
    var before := if i == 0 then y else ys[i - 1];
    var l := TraceKeepsInv(s, paths, y, acts, ys, map[], i);
    SkipIsUpToDate(s, paths, before, l, acts[i]);
    Units(before.w.trace);
  }

  // ---------- the condition on the starting files ----------

  /** What a call does to its target's config file, if it is there: nothing, the edit, or the cleaning. */
  ghost predicate ConfAfter(plan: Plan, a: Act, f: Files, f': Files)
    requires !a.Restart?
  {
    if plan.confFile !in f then plan.confFile !in f'
    else
      && plan.confFile in f'
      && (|| f'[plan.confFile] == f[plan.confFile]
          || (a.Apply? && plan.inject(f[plan.confFile]) == Ok(f'[plan.confFile]))
          || (a.Remove? && f'[plan.confFile] == Cleaned(f[plan.confFile], plan)))
  }

  lemma ConfAfterApply(w: World, w': World, unreadable: set<string>, plan: Plan, backup: string, out: Outcome,
                       ev: seq<Event>)
    requires ApplyStep(w, w', unreadable, plan, backup, out, ev) && out.ok && DistinctPaths(plan, backup)
    requires plan.confFile in w.files
    ensures plan.confFile in w'.files
    ensures w'.files[plan.confFile] == w.files[plan.confFile]
            || plan.inject(w.files[plan.confFile]) == Ok(w'.files[plan.confFile])
  {
    AppliedFiles(w, w', unreadable, plan, backup, out, ev);
    if plan.dropIn {
      assert SameAt(w.files, w'.files, plan.confFile);
    }
  }

  lemma NoConfAfterApply(w: World, w': World, unreadable: set<string>, plan: Plan, backup: string, out: Outcome,
                         ev: seq<Event>)
    requires ApplyStep(w, w', unreadable, plan, backup, out, ev) && out.ok && DistinctPaths(plan, backup)
    requires plan.confFile !in w.files
    ensures plan.confFile !in w'.files
  {
    AppliedFiles(w, w', unreadable, plan, backup, out, ev);
    if plan.dropIn {
      assert SameAt(w.files, w'.files, plan.confFile);
    }
  }

  lemma ConfAfterRemove(w: World, w': World, unreadable: set<string>, plan: Plan, backup: string, out: Outcome,
                        ev: seq<Event>)
    requires RemoveStep(w, w', unreadable, plan, backup, out, ev) && out.ok && DistinctPaths(plan, backup)
    ensures plan.confFile in w'.files <==> plan.confFile in w.files
    ensures plan.confFile in w.files ==>
              w'.files[plan.confFile] == w.files[plan.confFile]
                  || w'.files[plan.confFile] == Cleaned(w.files[plan.confFile], plan)
  {
    if plan.confFile in w.files && !AlreadyRemoved(w.files, plan) {
      var stripped := w.files[plan.confFile := Cleaned(w.files[plan.confFile], plan)];
      PointFromSame(w'.files, if ManagedGone(ev, plan) then stripped - {plan.managedPath} else stripped,
                    backup, plan.confFile);
    }
  }

  lemma ConfByStep(s: Setting, paths: Paths, y: Sys, a: Act, y': Sys)
    requires !a.Restart? && Fair(s, paths, y, a) && Step(s, y, a, y')
    ensures ConfAfter(PlanFor(s, a), a, y.w.files, y'.w.files)
  {
    var plan := PlanFor(s, a);
    if !a.out.ok {
      Untouched(s, y, a, y', plan.confFile);
    } else if a.Remove? {
      ConfAfterRemove(y.w, y'.w, s.unreadable, plan, a.backup, a.out, a.ev);
    } else if !a.skipped {
      if plan.confFile in y.w.files {
        ConfAfterApply(y.w, y'.w, s.unreadable, plan, a.backup, a.out, a.ev);
      } else {
        NoConfAfterApply(y.w, y'.w, s.unreadable, plan, a.backup, a.out, a.ev);
      }
    }
  }

  /** Where each id's config file is, which targets keep to that place, and which contents will do there. */
  datatype Site = Site(confs: string -> string, placed: Target -> bool, good: (string, string) -> bool)

  /** A good content fits every request for its place, and stays good under edits and cleaning. */
  ghost predicate Closed(s: Setting, site: Site) {
    && (forall t, c, conf :: s.admits(t, c) && site.placed(t) && site.good(t.id, conf) ==> s.fits(t, c, conf))
    && (forall t, c, conf ::
          s.admits(t, c) && site.placed(t) && site.good(t.id, conf) && s.plans(t, Some(c)).inject(conf).Ok?
          ==> site.good(t.id, s.plans(t, Some(c)).inject(conf).value))
    && (forall t, conf :: site.placed(t) && site.good(t.id, conf) ==> site.good(t.id, Cleaned(conf, s.plans(t, None))))
  }

  /** Every call is about one of the ids, at its place. */
  ghost predicate AtHome(s: Setting, site: Site, ids: set<string>, acts: seq<Act>) {
    forall i :: 0 <= i < |acts| && !acts[i].Restart? ==>
      acts[i].t.id in ids && site.placed(acts[i].t) && PlanFor(s, acts[i]).confFile == site.confs(acts[i].t.id)
  }

  /** The config files that are there are good. */
  ghost predicate AllGood(site: Site, ids: set<string>, f: Files) {
    forall id :: id in ids && site.confs(id) in f ==> site.good(id, f[site.confs(id)])
  }

  ghost predicate Housed(site: Site, ids: set<string>, paths: Paths) {
    forall id :: id in ids ==> site.confs(id) in paths(id)
  }

  /** The setting without its condition on config files. */
  function Loose(s: Setting): (r: Setting) {
    s.(fits := (t, c, conf) => true)
  }

  lemma GoodAfter(s: Setting, site: Site, ids: set<string>, paths: Paths, y: Sys, a: Act, y': Sys, id: string)
    requires Separate(paths) && Closed(s, site) && Housed(site, ids, paths) && AtHome(s, site, ids, [a])
    requires Fair(Loose(s), paths, y, a) && Step(s, y, a, y') && AllGood(site, ids, y.w.files)
    requires id in ids && site.confs(id) in y'.w.files
    ensures site.good(id, y'.w.files[site.confs(id)])
  {
    if !a.Restart? {
      assert [a][0] == a;
      var plan := PlanFor(s, a);
      if id == a.t.id {
        assert Step(Loose(s), y, a, y');
        ConfByStep(Loose(s), paths, y, a, y');
      } else {
        assert paths(id) !! paths(a.t.id) && site.confs(id) in paths(id);
        Untouched(s, y, a, y', site.confs(id));
      }
    }
  }

  /** With good config files at the start, every call of the run meets one that it fits. */
  lemma {:induction false} StartSuffices(s: Setting, site: Site, ids: set<string>, paths: Paths, y: Sys, acts: seq<Act>,
                                         ys: seq<Sys>)
    requires Separate(paths) && Closed(s, site) && Housed(site, ids, paths) && AtHome(s, site, ids, acts)
    requires AllGood(site, ids, y.w.files) && Trace(Loose(s), paths, y, acts, ys)
    ensures Trace(s, paths, y, acts, ys)
    decreases |acts|
  {
    if acts != [] {
      var a, y' := acts[0], ys[0];
      assert Step(s, y, a, y') && Fair(s, paths, y, a);
      assert AtHome(s, site, ids, [a]);
      forall id | id in ids && site.confs(id) in y'.w.files ensures site.good(id, y'.w.files[site.confs(id)]) {
        GoodAfter(s, site, ids, paths, y, a, y', id);
      }
      assert forall i :: 0 <= i < |acts| - 1 ==> acts[1..][i] == acts[i + 1];
      StartSuffices(s, site, ids, paths, y', acts[1..], ys[1..]);
    }
  }
}
