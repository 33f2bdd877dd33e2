/** What single calls promise, carried to runs of calls: rollback, reload discipline, no-op, round trip. */
module Transactions {
  import opened Text
  import opened ManagedBlocks
  import opened ConfigApply
  import opened ConfigRemove

  // ---------- one call ----------

  /** A failed apply whose rollback steps succeeded leaves every path but the backup as it was, exactly
      unless it rolled back over a managed file that exists but cannot be read. */
  lemma RollbackExactly(w: World, w': World, unreadable: set<string>, plan: Plan, backup: string, out: Outcome,
                        ev: seq<Event>)
    requires ApplyStep(w, w', unreadable, plan, backup, out, ev) && !out.ok && Undone(ev)
    ensures (forall p :: p != backup ==> SameAt(w.files, w'.files, p))
            <==> !(RolledBack(ev) && HiddenManaged(w.files, unreadable, plan))
  {
    if SameBut(w'.files, w.files, backup) {
      forall p | p != backup ensures SameAt(w.files, w'.files, p) {
        PointFromSame(w'.files, w.files, backup, p);
      }
    } else if forall p :: p != backup ==> SameAt(w.files, w'.files, p) {
      SameFromPoints(w'.files, w.files, backup);
    }
  }

  /** A failed removal whose rollback steps succeeded always leaves every path but the backup as it was. */
  lemma RemovalRollback(w: World, w': World, unreadable: set<string>, plan: Plan, backup: string, out: Outcome,
                        ev: seq<Event>, p: string)
    requires RemoveStep(w, w', unreadable, plan, backup, out, ev) && !out.ok && Undone(ev) && p != backup
    ensures SameAt(w.files, w'.files, p)
  {
    PointFromSame(w'.files, w.files, backup, p);
  }

  /** The edit is a fixpoint of itself on this file. */
  predicate SettlesOn(plan: Plan, conf: string) {
    plan.inject(conf).Ok? ==> plan.inject(plan.inject(conf).value) == plan.inject(conf)
  }

  /** The files after a successful apply, path by path. */
  lemma AppliedFiles(w: World, w': World, unreadable: set<string>, plan: Plan, backup: string, out: Outcome,
                     ev: seq<Event>)
    requires ApplyStep(w, w', unreadable, plan, backup, out, ev) && out.ok && DistinctPaths(plan, backup)
    ensures Plannable(w.files, unreadable, plan)
    ensures plan.managedPath in w'.files && w'.files[plan.managedPath] == plan.managedData
    ensures !plan.dropIn ==>
              plan.confFile in w'.files && w'.files[plan.confFile] == Edited(w.files, unreadable, plan).value
    ensures forall p :: p != backup && p != plan.managedPath && (plan.dropIn || p != plan.confFile) ==>
              SameAt(w.files, w'.files, p)
  {
    if out.changed {
      var planned := Planned(w.files, unreadable, plan);
      PointFromSame(w'.files, planned, backup, plan.managedPath);
      PointFromSame(w'.files, planned, backup, plan.confFile);
      forall p | p != backup && p != plan.managedPath && (plan.dropIn || p != plan.confFile)
          ensures SameAt(w.files, w'.files, p) {
        PointFromSame(w'.files, planned, backup, p);
        assert SameAt(w.files, planned, p);
      }
    }
  }

  /** After a successful apply, if the edit settles, the files are what the plan asks for. */
  lemma AppliedIsUpToDate(w: World, w': World, unreadable: set<string>, plan: Plan, backup: string, out: Outcome,
                          ev: seq<Event>)
    requires ApplyStep(w, w', unreadable, plan, backup, out, ev) && out.ok && DistinctPaths(plan, backup)
    requires plan.managedPath !in unreadable
    requires !plan.dropIn && plan.confFile in w.files ==> SettlesOn(plan, w.files[plan.confFile])
    ensures Plannable(w'.files, unreadable, plan) && UpToDate(w'.files, unreadable, plan)
  {
    AppliedFiles(w, w', unreadable, plan, backup, out, ev);
  }

  /** Applying the same plan twice: the second call answers ok and unchanged, and does nothing at all. */
  lemma ApplyTwice(w: World, w1: World, w2: World, unreadable: set<string>, plan: Plan, b1: string, b2: string,
                   out1: Outcome, out2: Outcome, ev1: seq<Event>, ev2: seq<Event>)
    requires DistinctPaths(plan, b1) && plan.managedPath !in unreadable
    requires !plan.dropIn && plan.confFile in w.files ==> SettlesOn(plan, w.files[plan.confFile])
    requires ApplyStep(w, w1, unreadable, plan, b1, out1, ev1) && out1.ok
    requires ApplyStep(w1, w2, unreadable, plan, b2, out2, ev2)
    ensures out2.ok && !out2.changed && ev2 == [] && w2 == w1
  {
    AppliedIsUpToDate(w, w1, unreadable, plan, b1, out1, ev1);
    Units(w1.trace);
  }

  /** A dry run reports a change exactly when an apply in that state would do something. */
  lemma DryRunForetells(w: World, wd: World, wa: World, unreadable: set<string>, plan: Plan, backup: string,
                        dry: Outcome, out: Outcome, ev: seq<Event>)
    requires Plannable(w.files, unreadable, plan)
    requires DryRunStep(w, wd, unreadable, plan, dry)
    requires ApplyStep(w, wa, unreadable, plan, backup, out, ev)
    ensures dry.changed <==> ev != []
    ensures dry.changed <==> !(out.ok && !out.changed)
    ensures wd.files == w.files && wd.live == w.live
  {
  }

  /** A removal's plan concerns the same files and blocks; its data and edit may differ, since no ranges are
      fetched for it. */
  predicate SamePlaces(plan: Plan, rplan: Plan) {
    && rplan.managedPath == plan.managedPath && rplan.confFile == plan.confFile
    && rplan.marks == plan.marks && rplan.extraMarks == plan.extraMarks
  }

  /** The deletion, if it was tried, succeeded. */
  predicate DeletionsOk(ev: seq<Event>) {
    forall i :: 0 <= i < |ev| && ev[i].Deleted? ==> ev[i].ok
  }

  /** A removal that answers ok has no managed file left behind, unless its deletion was tried and failed. */
  lemma RemovalIsComplete(w: World, w': World, unreadable: set<string>, plan: Plan, backup: string, out: Outcome,
                          ev: seq<Event>)
    requires RemoveStep(w, w', unreadable, plan, backup, out, ev) && out.ok && DeletionsOk(ev)
    requires backup != plan.managedPath
    ensures plan.managedPath !in w'.files
    ensures plan.confFile in w.files && out.changed ==> ManagedGone(ev, plan)
  {
    if plan.confFile in w.files && !AlreadyRemoved(w.files, plan) {
      var last := ev[|ev| - 3..];
      assert last[2] == ev[|ev| - 1];
      PointFromSame(w'.files, Stripped(w.files, plan) - {plan.managedPath}, backup, plan.managedPath);
    }
  }

  /** After a good reload the deletion is tried; nothing but a failed step keeps a removal from succeeding. */
  lemma RemovalFinishes(w: World, w': World, unreadable: set<string>, plan: Plan, backup: string, out: Outcome,
                        ev: seq<Event>)
    requires RemoveStep(w, w', unreadable, plan, backup, out, ev) && AllOk(ev)
    requires plan.confFile in w.files ==> plan.confFile !in unreadable
    requires backup != plan.managedPath
    ensures out.ok && plan.managedPath !in w'.files
    ensures out.changed <==> plan.confFile in w.files && !AlreadyRemoved(w.files, plan)
    ensures out.changed ==> |ev| >= 3 && ev[|ev| - 3..] == [Validated(w'.live, true), Reloaded(w'.live, true),
                                                             Deleted(plan.managedPath, false, true)]
  {
    RemovalIsComplete(w, w', unreadable, plan, backup, out, ev);
  }

  /** Apply, then remove, from a state without the managed file. */
  ghost predicate RoundTrip(w: World, w1: World, w2: World, unreadable: set<string>, plan: Plan, rplan: Plan,
                            b1: string, b2: string, out1: Outcome, out2: Outcome, ev1: seq<Event>, ev2: seq<Event>) {
    && DistinctPaths(plan, b1) && DistinctPaths(plan, b2) && !plan.dropIn && SamePlaces(plan, rplan)
    && plan.managedPath !in w.files && plan.confFile in w.files
    && ApplyStep(w, w1, unreadable, plan, b1, out1, ev1) && out1.ok
    && RemoveStep(w1, w2, unreadable, rplan, b2, out2, ev2) && out2.ok
    && DeletionsOk(ev2)
  }

  /** After the round trip every path but the two backups and the config file is as before, the managed
      file is gone, and the config file holds its edit, cleaned. */
  lemma ApplyThenRemove(w: World, w1: World, w2: World, unreadable: set<string>, plan: Plan, rplan: Plan, b1: string,
                        b2: string, out1: Outcome, out2: Outcome, ev1: seq<Event>, ev2: seq<Event>, p: string)
    requires RoundTrip(w, w1, w2, unreadable, plan, rplan, b1, b2, out1, out2, ev1, ev2)
    requires p != b1 && p != b2
    ensures plan.inject(w.files[plan.confFile]).Ok?
    ensures p != plan.confFile ==> SameAt(w.files, w2.files, p)
    ensures plan.confFile in w2.files
    ensures w2.files[plan.confFile] == Cleaned(plan.inject(w.files[plan.confFile]).value, rplan)
  {
    AppliedFiles(w, w1, unreadable, plan, b1, out1, ev1);
    RemovalIsComplete(w1, w2, unreadable, rplan, b2, out2, ev2);
    var bare := Stripped(w1.files, rplan) - {plan.managedPath};
    PointFromSame(w2.files, bare, b2, p);
    PointFromSame(w2.files, bare, b2, plan.confFile);
    assert SameAt(bare, w2.files, plan.confFile);
    if p != plan.confFile && p != plan.managedPath {
      assert SameAt(w.files, w1.files, p) && SameAt(w1.files, bare, p);
    }
  }

  /** The round trip restores the state exactly when cleaning undoes the edit. */
  lemma RoundTripExactly(w: World, w1: World, w2: World, unreadable: set<string>, plan: Plan, rplan: Plan, b1: string,
                         b2: string, out1: Outcome, out2: Outcome, ev1: seq<Event>, ev2: seq<Event>)
    requires RoundTrip(w, w1, w2, unreadable, plan, rplan, b1, b2, out1, out2, ev1, ev2)
    ensures plan.inject(w.files[plan.confFile]).Ok?
    ensures (forall p :: p != b1 && p != b2 ==> SameAt(w.files, w2.files, p))
            <==> Cleaned(plan.inject(w.files[plan.confFile]).value, rplan) == w.files[plan.confFile]
  {
    forall p | p != b1 && p != b2
      ensures p != plan.confFile ==> SameAt(w.files, w2.files, p)
    {
      ApplyThenRemove(w, w1, w2, unreadable, plan, rplan, b1, b2, out1, out2, ev1, ev2, p);
    }
    ApplyThenRemove(w, w1, w2, unreadable, plan, rplan, b1, b2, out1, out2, ev1, ev2, plan.confFile);
    if forall p :: p != b1 && p != b2 ==> SameAt(w.files, w2.files, p) {
      assert SameAt(w.files, w2.files, plan.confFile);
    }
  }

  // ---------- runs of calls ----------

  /** One call made, with its answer, its events and the world after it. */
  datatype Call = Call(apply: bool, plan: Plan, backup: string, out: Outcome, ev: seq<Event>, to: World)

  ghost predicate Made(w: World, unreadable: set<string>, c: Call) {
    && DistinctPaths(c.plan, c.backup)
    && if c.apply then ApplyStep(w, c.to, unreadable, c.plan, c.backup, c.out, c.ev)
       else RemoveStep(w, c.to, unreadable, c.plan, c.backup, c.out, c.ev)
  }

  /** Calls made one after the other. */
  ghost predicate Run(w: World, unreadable: set<string>, run: seq<Call>)
    decreases |run|
  {
    run == [] || (Made(w, unreadable, run[0]) && Run(run[0].to, unreadable, run[1..]))
  }

  /** The world before the i-th call. */
  ghost function At(w: World, run: seq<Call>, i: nat): World
    requires i <= |run|
  {
    if i == 0 then w else run[i - 1].to
  }

  /** The rollback of the call, if any, succeeded, and its managed file could be read. */
  ghost predicate Sane(w: World, unreadable: set<string>, c: Call) {
    Undone(c.ev) && !HiddenManaged(w.files, unreadable, c.plan)
  }

  ghost predicate AllSane(w: World, unreadable: set<string>, run: seq<Call>)
    decreases |run|
  {
    run == [] || (Sane(w, unreadable, run[0]) && AllSane(run[0].to, unreadable, run[1..]))
  }

  /** Files the call may leave running: accepted by the checker, or with config and managed file as at its start. */
  ghost predicate Vouched(w: World, c: Call, live: Files) {
    || Validated(live, true) in c.ev
    || (SameAt(w.files, live, c.plan.confFile) && SameAt(w.files, live, c.plan.managedPath))
  }

  lemma {:induction false} LiveFrom(live: Files, ev: seq<Event>)
    ensures LiveAfter(live, ev) == live || exists i :: 0 <= i < |ev| && ev[i] == Reloaded(LiveAfter(live, ev), true)
  {
    if ev != [] && !(ev[|ev| - 1].Reloaded? && ev[|ev| - 1].ok) {
      LiveFrom(live, ev[..|ev| - 1]);
    }
  }

  lemma DisciplinedAt(start: Files, ev: seq<Event>, plan: Plan, i: nat)
    requires Disciplined(start, ev, plan) && i < |ev| && ev[i].Reloaded?
    ensures Validated(ev[i].seen, true) in ev
            || (SameAt(start, ev[i].seen, plan.confFile) && SameAt(start, ev[i].seen, plan.managedPath))
  {
    assert JustAccepted(ev, i) || (SameAt(start, ev[i].seen, plan.confFile)
                                   && SameAt(start, ev[i].seen, plan.managedPath));
  }

  /** After one call the service still runs what it ran, or files that this call vouches for. */
  lemma LiveAfterCall(w: World, unreadable: set<string>, c: Call)
    requires Made(w, unreadable, c) && Sane(w, unreadable, c)
    ensures c.to.live == w.live || Vouched(w, c, c.to.live)
  {
    assert Disciplined(w.files, c.ev, c.plan);
    assert c.to.live == LiveAfter(w.live, c.ev);
    LiveFrom(w.live, c.ev);
    if c.to.live != w.live {
      var i :| 0 <= i < |c.ev| && c.ev[i] == Reloaded(c.to.live, true);
      DisciplinedAt(w.files, c.ev, c.plan, i);
    }
  }

  /** Reload discipline over runs: whatever the answers, the service runs the files it ran at the start, or
      files that some call of the run vouches for. */
  lemma {:induction false} LiveOverRun(w: World, unreadable: set<string>, run: seq<Call>)
    requires Run(w, unreadable, run) && AllSane(w, unreadable, run)
    ensures var live := At(w, run, |run|).live;
            live == w.live || exists i :: 0 <= i < |run| && Vouched(At(w, run, i), run[i], live)
    decreases |run|
  {
    if run != [] {
      var rest := run[1..];
      var w1 := run[0].to;
      LiveAfterCall(w, unreadable, run[0]);
      LiveOverRun(w1, unreadable, rest);
      var live := At(w, run, |run|).live;
      assert At(w1, rest, |rest|) == At(w, run, |run|);
      if live == w1.live {
        assert live == w.live || Vouched(At(w, run, 0), run[0], live);
      } else {
        var i :| 0 <= i < |rest| && Vouched(At(w1, rest, i), rest[i], live);
        assert At(w, run, i + 1) == At(w1, rest, i) && run[i + 1] == rest[i];
      }
    }
  }

  /** A run of failed calls leaves every path that is no backup of the run as it was. */
  lemma {:induction false} FailuresLeaveNoTrace(w: World, unreadable: set<string>, run: seq<Call>, p: string)
    requires Run(w, unreadable, run) && AllSane(w, unreadable, run)
    requires forall i :: 0 <= i < |run| ==> !run[i].out.ok && run[i].backup != p
    ensures SameAt(w.files, At(w, run, |run|).files, p)
    decreases |run|
  {
    if run != [] {
      var c := run[0];
      if c.apply {
        RollbackExactly(w, c.to, unreadable, c.plan, c.backup, c.out, c.ev);
      } else {
        RemovalRollback(w, c.to, unreadable, c.plan, c.backup, c.out, c.ev, p);
      }
      assert SameAt(w.files, c.to.files, p);
      FailuresLeaveNoTrace(c.to, unreadable, run[1..], p);
      assert At(c.to, run[1..], |run| - 1) == At(w, run, |run|);
    }
  }
}
