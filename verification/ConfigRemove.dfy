/** Removal: strip the blocks, validate, reload, and only then delete the managed file; restore on failure. */
module ConfigRemove {
  import opened Text
  import opened ManagedBlocks
  import opened ConfigApply

  /** The config file without the plan's blocks, one key after the other. */
  method StripAll(conf: string, plan: Plan) returns (r: string)
    ensures r == Cleaned(conf, plan)
  {
    r := StripManaged(conf, plan.marks);
    var i := 0;
    while i < |plan.extraMarks|
      invariant 0 <= i <= |plan.extraMarks|
      invariant StripKeys(r, plan.extraMarks[i..]) == Cleaned(conf, plan)
    {
      r := StripManaged(r, plan.extraMarks[i]);
      i := i + 1;
    }
  }

  /** What removal works on: a config file that can be read and has something to strip or delete. */
  ghost predicate Removable(w: World, unreadable: set<string>, plan: Plan, orig: string) {
    Readable(w.files, unreadable, plan.confFile) == Some(orig) && !AlreadyRemoved(w.files, plan)
  }

  /** The files with the stripped config file. */
  ghost function Stripped(files: Files, plan: Plan): Files
    requires plan.confFile in files
  {
    files[plan.confFile := Cleaned(files[plan.confFile], plan)]
  }

  /** A failed removal: the config file was written back, or never written. */
  lemma EndsKept(w: World, unreadable: set<string>, plan: Plan, backup: string, orig: string, out: Outcome,
                 ev: seq<Event>, files': Files)
    requires Removable(w, unreadable, plan, orig) && !out.ok && !out.changed && Hindered(ev, backup)
    requires Undone(ev) ==> SameBut(files', w.files, backup)
    requires Undone(ev) ==> Disciplined(w.files, ev, plan)
    requires BackedUp(w.files, files', plan, backup, ev) && BackupFirst(ev, plan, backup) && EndsReloading(ev, files')
    ensures RemoveStep(w, After(w, ev, files'), unreadable, plan, backup, out, ev)
  {
  }

  /** Writing the original back gives the files of the start, the backup apart. */
  lemma WrittenBack(files: Files, plan: Plan, backup: string, at: Files)
    requires DistinctPaths(plan, backup) && plan.confFile in files && SameBut(at, Stripped(files, plan), backup)
    ensures SameBut(at[plan.confFile := files[plan.confFile]], files, backup)
    ensures SameAt(files, at, plan.managedPath)
  {
    var back := at[plan.confFile := files[plan.confFile]];
    forall p | p != backup ensures SameAt(files, back, p) {
      PointFromSame(at, Stripped(files, plan), backup, p);
    }
    SameFromPoints(back, files, backup);
    PointFromSame(at, Stripped(files, plan), backup, plan.managedPath);
  }

  /** Validation refused the stripped file. */
  lemma EndsInvalid(w: World, unreadable: set<string>, plan: Plan, backup: string, orig: string, out: Outcome,
                    fw: seq<Event>, u: Event, at: Files, files': Files)
    requires Removable(w, unreadable, plan, orig) && DistinctPaths(plan, backup) && !out.ok && !out.changed
    requires Forward(fw) && BackupFirst(fw, plan, backup) && IsUndo(u, plan.confFile)
    requires SameBut(at, Stripped(w.files, plan), backup) && BackedUp(w.files, at, plan, backup, fw)
    requires files' == if u.ok then at[plan.confFile := orig] else at
    ensures var ev := fw + [Validated(at, false)] + [u];
            RemoveStep(w, After(w, ev, files'), unreadable, plan, backup, out, ev)
  {
    var ev := fw + [Validated(at, false)] + [u];
    assert ev[|fw|] == Validated(at, false) && ev[|fw| + 1] == u && Hinders(ev[|fw|], backup);
    WrittenBack(w.files, plan, backup, at);
    BackupKept(w.files, at, files', plan, backup, fw, [Validated(at, false)] + [u]);
    BackupFirstMore(fw, [Validated(at, false)] + [u], plan, backup);
    Assoc(fw, [Validated(at, false)], [u]);
    assert forall i :: 0 <= i < |fw| ==> ev[i] == fw[i];
    EndsKept(w, unreadable, plan, backup, orig, out, ev, files');
  }

  /** The reload failed; the original was written back and reloaded, whatever the answer. */
  lemma EndsUnloaded(w: World, unreadable: set<string>, plan: Plan, backup: string, orig: string, out: Outcome,
                     fw: seq<Event>, u: Event, at: Files, files': Files, again: bool)
    requires Removable(w, unreadable, plan, orig) && DistinctPaths(plan, backup) && !out.ok && !out.changed
    requires Forward(fw) && BackupFirst(fw, plan, backup) && IsUndo(u, plan.confFile)
    requires SameBut(at, Stripped(w.files, plan), backup) && BackedUp(w.files, at, plan, backup, fw)
    requires files' == if u.ok then at[plan.confFile := orig] else at
    ensures var ev := fw + [Validated(at, true), Reloaded(at, false)] + [u] + [Reloaded(files', again)];
            RemoveStep(w, After(w, ev, files'), unreadable, plan, backup, out, ev)
  {
    var mid := [Validated(at, true), Reloaded(at, false)];
    var ev := fw + mid + [u] + [Reloaded(files', again)];
    assert ev[|fw|] == mid[0] && ev[|fw| + 1] == mid[1] && ev[|fw| + 2] == u && Hinders(ev[|fw| + 1], backup);
    WrittenBack(w.files, plan, backup, at);
    BackupKept(w.files, at, files', plan, backup, fw, mid + [u] + [Reloaded(files', again)]);
    BackupFirstMore(fw, mid + [u] + [Reloaded(files', again)], plan, backup);
    assert ev == fw + (mid + [u] + [Reloaded(files', again)]);
    ReloadsAre(fw, mid, [u], Reloaded(files', again), ev);
    EndsKept(w, unreadable, plan, backup, orig, out, ev, files');
  }

  /** Deleting the managed file keeps what the backup and the other paths hold. */
  lemma DeletedManaged(files: Files, plan: Plan, backup: string, at: Files)
    requires DistinctPaths(plan, backup) && SameBut(at, files, backup)
    ensures SameBut(at - {plan.managedPath}, files - {plan.managedPath}, backup)
    ensures SameAt(at, at - {plan.managedPath}, backup)
  {
    var m := plan.managedPath;
    assert (at - {m}) - {backup} == (at - {backup}) - {m};
    assert (files - {m}) - {backup} == (files - {backup}) - {m};
  }

  lemma EndsRemoved(w: World, unreadable: set<string>, plan: Plan, backup: string, orig: string, out: Outcome,
                    fw: seq<Event>, at: Files, gone: bool)
    requires Removable(w, unreadable, plan, orig) && DistinctPaths(plan, backup) && out.ok && out.changed
    requires Forward(fw) && BackupFirst(fw, plan, backup) && !Hindered(fw, backup)
    requires SameBut(at, Stripped(w.files, plan), backup) && BackedUp(w.files, at, plan, backup, fw)
    ensures var ev := fw + [Validated(at, true), Reloaded(at, true)] + [Deleted(plan.managedPath, false, gone)];
            RemoveStep(w, After(w, ev, if gone then at - {plan.managedPath} else at), unreadable, plan, backup, out, ev)
  {
    var m := plan.managedPath;
    var files' := if gone then at - {m} else at;
    var tail := [Validated(at, true), Reloaded(at, true), Deleted(m, false, gone)];
    var ev := fw + [Validated(at, true), Reloaded(at, true)] + [Deleted(m, false, gone)];
    RemovedTail(fw, at, m, gone, backup);
    DeletedManaged(Stripped(w.files, plan), plan, backup, at);
    BackupKept(w.files, at, files', plan, backup, fw, tail);
    BackupFirstMore(fw, tail, plan, backup);
    RemovedDisciplined(w.files, fw, tail, plan);
    LastReload(w.live, fw, at, Deleted(m, false, gone));
  }

  /** The last three events of a removal: none of them hinders or undoes anything. */
  lemma RemovedTail(fw: seq<Event>, at: Files, m: string, gone: bool, backup: string)
    requires Forward(fw) && !Hindered(fw, backup)
    ensures var tail := [Validated(at, true), Reloaded(at, true), Deleted(m, false, gone)];
            var ev := fw + [Validated(at, true), Reloaded(at, true)] + [Deleted(m, false, gone)];
            ev == fw + tail && ev[|ev| - 3..] == tail && !Hindered(ev, backup) && !RolledBack(ev)
  {
    var tail := [Validated(at, true), Reloaded(at, true), Deleted(m, false, gone)];
    var ev := fw + tail;
    assert ev == fw + [Validated(at, true), Reloaded(at, true)] + [Deleted(m, false, gone)];
    HinderedMore(fw, tail, backup);
    assert forall i :: 0 <= i < |ev| ==> ev[i] == if i < |fw| then fw[i] else tail[i - |fw|];
  }

  lemma RemovedDisciplined(start: Files, fw: seq<Event>, tail: seq<Event>, plan: Plan)
    requires Forward(fw) && |tail| == 3 && tail[0].Validated? && tail[0].ok && tail[1].Reloaded? && tail[2].Deleted?
    requires tail[1].seen == tail[0].seen
    ensures Disciplined(start, fw + tail, plan)
  {
    var ev := fw + tail;
    assert forall i :: 0 <= i < |ev| ==> ev[i] == if i < |fw| then fw[i] else tail[i - |fw|];
    assert JustAccepted(ev, |fw| + 1);
  }

  /** The last successful reload decides what is live. */
  lemma LastReload(live: Files, fw: seq<Event>, at: Files, last: Event)
    requires !last.Reloaded?
    ensures LiveAfter(live, fw + [Validated(at, true), Reloaded(at, true)] + [last]) == at
  {
    var mid := fw + [Validated(at, true), Reloaded(at, true)];
    assert (mid + [last])[..|mid|] == mid && mid[|mid| - 1] == Reloaded(at, true);
  }

  method RemoveConfig(tr: Transport, plan: Plan, backup: string) returns (out: Outcome, ghost ev: seq<Event>)
    requires DistinctPaths(plan, backup)
    modifies tr
    ensures RemoveStep(old(tr.Now()), tr.Now(), tr.unreadable, plan, backup, out, ev)
  {
    ghost var w := tr.Now();
    ev := [];
    Units(w.trace);
    if !tr.Exists(plan.confFile) {
      var gone := tr.Remove(plan.managedPath, false);
      PushAfter(w, [], w.files, Deleted(plan.managedPath, false, gone), tr.files);
      ev := [Deleted(plan.managedPath, false, gone)];
      Units(ev);
      return Outcome(true, false, "nothing to remove"), ev;
    }
    var conf := tr.ReadFile(plan.confFile);
    if conf.None? {
      return Outcome(false, false, "reading"), ev;
    }
    var orig := conf.value;
    var stripped := StripAll(orig, plan);
    if stripped == orig && !tr.Exists(plan.managedPath) {
      return Outcome(true, false, "already removed"), ev;
    }
    var ok;
    ok, ev := WriteConf(tr, plan, backup, orig, stripped, w, []);
    if !ok {
      out := Outcome(false, false, "writing");
      EndsKept(w, tr.unreadable, plan, backup, orig, out, ev, tr.files);
      return;
    }
    out, ev := UnloadAndDelete(tr, plan, backup, orig, w, ev);
  }

  /** Validation, reload, and the deletion of the managed file. */
  method UnloadAndDelete(tr: Transport, plan: Plan, backup: string, orig: string, ghost w: World, ghost fw: seq<Event>)
    returns (out: Outcome, ghost ev: seq<Event>)
    requires DistinctPaths(plan, backup) && Removable(w, tr.unreadable, plan, orig)
    requires tr.Now() == After(w, fw, tr.files) && Forward(fw) && BackupFirst(fw, plan, backup)
    requires BackedUp(w.files, tr.files, plan, backup, fw) && !Hindered(fw, backup)
    requires SameBut(tr.files, Stripped(w.files, plan), backup)
    modifies tr
    ensures RemoveStep(w, tr.Now(), tr.unreadable, plan, backup, out, ev)
  {
    ghost var at := tr.files;
    var ok := tr.Validate();
    PushAfter(w, fw, at, Validated(at, ok), at);
    ev := fw + [Validated(at, ok)];
    if !ok {
      var back := tr.WriteFile(plan.confFile, orig, true);
      PushAfter(w, ev, at, Wrote(plan.confFile, true, back), tr.files);
      out := Outcome(false, false, "validation failed after removal, restored");
      EndsInvalid(w, tr.unreadable, plan, backup, orig, out, fw, Wrote(plan.confFile, true, back), at, tr.files);
      ev := ev + [Wrote(plan.confFile, true, back)];
      return;
    }
    ok := tr.Reload();
    PushAfter(w, ev, at, Reloaded(at, ok), at);
    ev := ev + [Reloaded(at, ok)];
    assert ev == fw + [Validated(at, true), Reloaded(at, ok)];
    if !ok {
      var back := tr.WriteFile(plan.confFile, orig, true);
      ghost var u := Wrote(plan.confFile, true, back);
      PushAfter(w, ev, at, u, tr.files);
      ghost var f := tr.files;
      var again := tr.Reload();
      PushAfter(w, ev + [u], f, Reloaded(f, again), f);
      out := Outcome(false, false, "reload failed during removal, restored prior config");
      EndsUnloaded(w, tr.unreadable, plan, backup, orig, out, fw, u, at, f, again);
      ev := ev + [u] + [Reloaded(f, again)];
      return;
    }
    var gone := tr.Remove(plan.managedPath, false);
    PushAfter(w, ev, at, Deleted(plan.managedPath, false, gone), tr.files);
    ev := ev + [Deleted(plan.managedPath, false, gone)];
    out := Outcome(true, true, "removed");
    EndsRemoved(w, tr.unreadable, plan, backup, orig, out, fw, at, gone);
  }

  // ---------- dry run ----------

  /** dryRunConfig: what it reports, and that it only asks the checker. */
  ghost predicate DryRunStep(w: World, w': World, unreadable: set<string>, plan: Plan, out: Outcome) {
    && w'.files == w.files && w'.live == w.live
    && (if Plannable(w.files, unreadable, plan)
        then w'.trace == w.trace + [Validated(w.files, out.ok)] && out.changed == !UpToDate(w.files, unreadable, plan)
        else w' == w && !out.ok && !out.changed)
  }

  method DryRunConfig(tr: Transport, plan: Plan) returns (out: Outcome)
    modifies tr
    ensures DryRunStep(old(tr.Now()), tr.Now(), tr.unreadable, plan, out)
  {
    var changed := tr.ReadFile(plan.managedPath) != Some(plan.managedData);
    if !plan.dropIn {
      var conf := tr.ReadFile(plan.confFile);
      if conf.None? {
        return Outcome(false, false, "reading");
      }
      var edited := plan.inject(conf.value);
      if edited.Err? {
        return Outcome(false, false, edited.message);
      }
      changed := changed || edited.value != conf.value;
    }
    var ok := tr.Validate();
    out := Outcome(ok, changed, "dry-run");
  }
}
