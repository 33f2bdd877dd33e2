/** The safe-apply transaction: stage, validate, reload, and restore on failure. */
module ConfigApply {
  import opened Text
  import opened ManagedBlocks

  type Files = map<string, string>

  /** What happens on the transport. `undo` marks the steps of a rollback; validate and reload see files. */
  datatype Event =
    | MadeDir(ok: bool)
    | Wrote(path: string, undo: bool, ok: bool)
    | Deleted(path: string, undo: bool, ok: bool)
    | Validated(seen: Files, ok: bool)
    | Reloaded(seen: Files, ok: bool)

  datatype Outcome = Outcome(ok: bool, changed: bool, message: string)

  /** How a config engine applies: the managed file, and the edit of the config file unless it is a drop-in. */
  datatype Plan = Plan(
    managedPath: string, managedData: string,
    dropIn: bool, confFile: string, inject: string -> Result<string>,
    marks: Marks, extraMarks: seq<Marks>)

  // ---------- the transport ----------

  /** Files with arbitrary answers to writes, deletions, validation and reload. */
  class Transport {
    var files: Files
    const unreadable: set<string>
    ghost var trace: seq<Event>
    ghost var live: Files

    constructor (files: Files, unreadable: set<string>)
      ensures this.files == files && this.unreadable == unreadable && trace == [] && live == files
    {
      this.files := files;
      this.unreadable := unreadable;
      trace := [];
      live := files;
    }

    ghost function Now(): World
      reads this
    {
      World(files, trace, live)
    }

    predicate Exists(p: string)
      reads this
    {
      p in files
    }

    function ReadFile(p: string): (r: Option<string>)
      reads this
    {
      Readable(files, unreadable, p)
    }

    method MkdirAll(p: string) returns (ok: bool)
      modifies this
      ensures Now() == Push(old(Now()), MadeDir(ok), old(files))
    {
      ok := *;
      trace := trace + [MadeDir(ok)];
    }

    method WriteFile(p: string, data: string, ghost undo: bool) returns (ok: bool)
      modifies this
      ensures Now() == Push(old(Now()), Wrote(p, undo, ok), if ok then old(files)[p := data] else old(files))
    {
      ok := *;
      if ok {
        files := files[p := data];
      }
      trace := trace + [Wrote(p, undo, ok)];
    }

    method Remove(p: string, ghost undo: bool) returns (ok: bool)
      modifies this
      ensures Now() == Push(old(Now()), Deleted(p, undo, ok), if ok then old(files) - {p} else old(files))
    {
      ok := *;
      if ok {
        files := files - {p};
      }
      trace := trace + [Deleted(p, undo, ok)];
    }

    /** The engine's own checker, on the files as they are; false also when it could not run. */
    method Validate() returns (ok: bool)
      modifies this
      ensures Now() == Push(old(Now()), Validated(old(files), ok), old(files))
    {
      ok := *;
      trace := trace + [Validated(files, ok)];
    }

    /** On success the service runs the files as they are. */
    method Reload() returns (ok: bool)
      modifies this
      ensures Now() == Push(old(Now()), Reloaded(old(files), ok), old(files))
    {
      ok := *;
      trace := trace + [Reloaded(files, ok)];
      if ok {
        live := files;
      }
    }
  }

  datatype World = World(files: Files, trace: seq<Event>, live: Files)

  function Readable(files: Files, unreadable: set<string>, p: string): (r: Option<string>) {
    if p in files && p !in unreadable then Some(files[p]) else None
  }

  /** What the service runs after the events: what the last successful reload saw. */
  ghost function LiveAfter(live: Files, ev: seq<Event>): Files {
    if ev == [] then live
    else
      var last := ev[|ev| - 1];
      if last.Reloaded? && last.ok then last.seen else LiveAfter(live, ev[..|ev| - 1])
  }

  ghost function After(w: World, ev: seq<Event>, files: Files): World {
    World(files, w.trace + ev, LiveAfter(w.live, ev))
  }

  /** The world after one more event. */
  ghost function Push(w: World, e: Event, files: Files): World {
    World(files, w.trace + [e], if e.Reloaded? && e.ok then e.seen else w.live)
  }

  lemma PushAfter(w: World, ev: seq<Event>, files: Files, e: Event, files': Files)
    ensures Push(After(w, ev, files), e, files') == After(w, ev + [e], files')
  {
    assert (ev + [e])[..|ev|] == ev;
    Assoc(w.trace, ev, [e]);
  }

  // ---------- what a call promises ----------

  /** Equal files everywhere but at p. */
  ghost predicate SameBut(f: Files, f': Files, p: string) {
    f - {p} == f' - {p}
  }

  /** Equal at p: present in both with the same bytes, or absent in both. */
  predicate SameAt(f: Files, f': Files, p: string) {
    (p in f <==> p in f') && (p in f ==> f[p] == f'[p])
  }

  predicate HasUndo(e: Event) {
    (e.Wrote? || e.Deleted?) && e.undo
  }

  /** Every step of the rollback succeeded. */
  predicate Undone(ev: seq<Event>) {
    forall i :: 0 <= i < |ev| && HasUndo(ev[i]) ==> ev[i].ok
  }

  predicate RolledBack(ev: seq<Event>) {
    exists i :: 0 <= i < |ev| && HasUndo(ev[i])
  }

  predicate JustAccepted(ev: seq<Event>, i: nat)
    requires i < |ev| && ev[i].Reloaded?
  {
    i > 0 && ev[i - 1] == Validated(ev[i].seen, true)
  }

  /** Each reload sees files that the checker accepted just before, or config and managed file as at the start. */
  ghost predicate Disciplined(start: Files, ev: seq<Event>, plan: Plan) {
    forall i :: 0 <= i < |ev| && ev[i].Reloaded? ==>
      || JustAccepted(ev, i)
      || (SameAt(start, ev[i].seen, plan.confFile) && SameAt(start, ev[i].seen, plan.managedPath))
  }

  /** Before anything else the managed file's directory is made. */
  predicate DirFirst(ev: seq<Event>) {
    ev != [] && ev[0].MadeDir?
  }

  /** The forward write of a path. */
  predicate IsWrite(e: Event, p: string) {
    e.Wrote? && !e.undo && e.path == p
  }

  /** The config file is written only right after an attempt to back it up. */
  ghost predicate BackupFirst(ev: seq<Event>, plan: Plan, backup: string) {
    forall i :: 0 <= i < |ev| && IsWrite(ev[i], plan.confFile) ==> JustBackedUp(ev, i, backup)
  }

  predicate JustBackedUp(ev: seq<Event>, i: nat, backup: string)
    requires i < |ev|
  {
    i > 0 && IsWrite(ev[i - 1], backup)
  }

  /** If there was a reload, the last event is one, of these files. */
  ghost predicate EndsReloading(ev: seq<Event>, files: Files) {
    forall i :: 0 <= i < |ev| && ev[i].Reloaded? ==> ev[|ev| - 1].Reloaded? && ev[|ev| - 1].seen == files
  }

  predicate AllOk(ev: seq<Event>) {
    forall i :: 0 <= i < |ev| ==> ev[i].ok
  }

  /** A failure that is not ignored: of a forward step other than the backup and the deletion of the managed file. */
  predicate Hinders(e: Event, backup: string) {
    !e.ok && !HasUndo(e) && !e.Deleted? && e != Wrote(backup, false, false)
  }

  /** Which failures these are, kind by kind. */
  lemma HindersExactly(e: Event, backup: string)
    ensures Hinders(e, backup) <==>
            match e
            case MadeDir(ok) => !ok
            case Wrote(path, undo, ok) => !ok && !undo && path != backup
            case Deleted(_, _, _) => false
            case Validated(_, ok) => !ok
            case Reloaded(_, ok) => !ok
  {
  }

  predicate Hindered(ev: seq<Event>, backup: string) {
    exists i :: 0 <= i < |ev| && Hinders(ev[i], backup)
  }

  predicate DistinctPaths(plan: Plan, backup: string) {
    plan.confFile != plan.managedPath && backup != plan.confFile && backup != plan.managedPath
  }

  /** The edited config file; absent if it cannot be read or edited. */
  function Edited(files: Files, unreadable: set<string>, plan: Plan): (r: Option<string>) {
    match Readable(files, unreadable, plan.confFile)
    case None => None
    case Some(conf) => match plan.inject(conf) case Ok(c) => Some(c) case Err(_) => None
  }

  predicate Plannable(files: Files, unreadable: set<string>, plan: Plan) {
    plan.dropIn || Edited(files, unreadable, plan).Some?
  }

  /** Managed file and config file are already what the plan would write. */
  predicate UpToDate(files: Files, unreadable: set<string>, plan: Plan) {
    && Readable(files, unreadable, plan.managedPath) == Some(plan.managedData)
    && (plan.dropIn || (Edited(files, unreadable, plan).Some?
                        && Edited(files, unreadable, plan) == Readable(files, unreadable, plan.confFile)))
  }

  /** The files that the plan asks for, everywhere but at the backup. */
  function Planned(files: Files, unreadable: set<string>, plan: Plan): (r: Files)
    requires Plannable(files, unreadable, plan)
  {
    var f := files[plan.managedPath := plan.managedData];
    if plan.dropIn then f else f[plan.confFile := Edited(files, unreadable, plan).value]
  }

  /** One call of applyConfig, not dry: from w to w' with the events ev and the outcome. */
  ghost predicate ApplyStep(w: World, w': World, unreadable: set<string>, plan: Plan, backup: string, out: Outcome,
                            ev: seq<Event>) {
    && w' == After(w, ev, w'.files)
    && (out.ok && !out.changed <==> Plannable(w.files, unreadable, plan) && UpToDate(w.files, unreadable, plan))
    && (!Plannable(w.files, unreadable, plan) || UpToDate(w.files, unreadable, plan)
        ==> ev == [] && w'.files == w.files)
    && (Plannable(w.files, unreadable, plan) && !UpToDate(w.files, unreadable, plan) ==> DirFirst(ev))
    && (out.ok <==> Plannable(w.files, unreadable, plan) && !Hindered(ev, backup))
    && (out.ok && out.changed ==>
          && Plannable(w.files, unreadable, plan)
          && SameBut(w'.files, Planned(w.files, unreadable, plan), backup)
          && w'.live == w'.files
          && |ev| >= 2 && ev[|ev| - 2..] == [Validated(w'.files, true), Reloaded(w'.files, true)]
          && !RolledBack(ev))
    && (!out.ok ==> !out.changed)
    && (!out.ok && Undone(ev) ==>
          (SameBut(w'.files, w.files, backup)
           <==> !(RolledBack(ev) && plan.managedPath in w.files && plan.managedPath in unreadable)))
    && (Undone(ev) && !(plan.managedPath in w.files && plan.managedPath in unreadable)
        ==> Disciplined(w.files, ev, plan))
    && BackedUp(w.files, w'.files, plan, backup, ev) && BackupFirst(ev, plan, backup)
    && EndsReloading(ev, w'.files)
  }

  /** The backup holds the config file as it was, if it was written; else that path is as it was. */
  ghost predicate BackedUp(files: Files, files': Files, plan: Plan, backup: string, ev: seq<Event>) {
    if Wrote(backup, false, true) in ev
    then plan.confFile in files && backup in files' && files'[backup] == files[plan.confFile]
    else SameAt(files, files', backup)
  }

  function StripKeys(conf: string, keys: seq<Marks>): (r: string)
    decreases |keys|
  {
    if keys == [] then conf else StripKeys(Strip(conf, keys[0]), keys[1..])
  }

  /** The config file without the blocks of the plan. */
  function Cleaned(conf: string, plan: Plan): (r: string) {
    StripKeys(Strip(conf, plan.marks), plan.extraMarks)
  }

  predicate AlreadyRemoved(files: Files, plan: Plan) {
    plan.confFile in files && Cleaned(files[plan.confFile], plan) == files[plan.confFile] && plan.managedPath !in files
  }

  /** The deletion of the managed file is the last event and succeeded. */
  predicate ManagedGone(ev: seq<Event>, plan: Plan) {
    ev != [] && ev[|ev| - 1] == Deleted(plan.managedPath, false, true)
  }

  /** One call of removeConfig. */
  ghost predicate RemoveStep(w: World, w': World, unreadable: set<string>, plan: Plan, backup: string, out: Outcome,
                             ev: seq<Event>) {
    && w' == After(w, ev, w'.files)
    && (plan.confFile !in w.files ==>
          && out.ok && !out.changed
          && ev == [Deleted(plan.managedPath, false, ManagedGone(ev, plan))]
          && w'.files == (if ManagedGone(ev, plan) then w.files - {plan.managedPath} else w.files))
    && (plan.confFile in w.files && plan.confFile in unreadable ==> !out.ok && ev == [] && w'.files == w.files)
    && (AlreadyRemoved(w.files, plan) && plan.confFile !in unreadable
        ==> out.ok && !out.changed && ev == [] && w'.files == w.files)
    && (plan.confFile in w.files && plan.confFile !in unreadable && !AlreadyRemoved(w.files, plan) ==>
          && out.ok == out.changed
          && (out.ok <==> !Hindered(ev, backup))
          && (out.ok ==>
                && |ev| >= 3
                && ev[|ev| - 3..] == [Validated(w'.live, true), Reloaded(w'.live, true),
                                      Deleted(plan.managedPath, false, ManagedGone(ev, plan))])
          && (out.ok ==>
                var stripped := w.files[plan.confFile := Cleaned(w.files[plan.confFile], plan)];
                && SameBut(w'.files, if ManagedGone(ev, plan) then stripped - {plan.managedPath} else stripped, backup)
                && SameBut(w'.live, stripped, backup)
                && !RolledBack(ev)))
    && (!out.ok && Undone(ev) ==> SameBut(w'.files, w.files, backup))
    && (!out.ok ==> !out.changed)
    && (Undone(ev) ==> Disciplined(w.files, ev, plan))
    && BackedUp(w.files, w'.files, plan, backup, ev) && BackupFirst(ev, plan, backup)
    && (!out.ok ==> EndsReloading(ev, w'.files))
  }

  // ---------- the calls ----------

  predicate IsUndo(e: Event, p: string) {
    HasUndo(e) && e.path == p
  }

  method RestoreManaged(tr: Transport, plan: Plan, prior: Option<string>) returns (ghost e: Event)
    modifies tr
    ensures SameBut(tr.files, old(tr.files), plan.managedPath)
    ensures IsUndo(e, plan.managedPath) && tr.Now() == Push(old(tr.Now()), e, tr.files)
    ensures tr.files == if !e.ok then old(tr.files)
            else if prior.Some? then old(tr.files)[plan.managedPath := prior.value]
                else old(tr.files) - {plan.managedPath}
  {
    var ok;
    if prior.Some? {
      ok := tr.WriteFile(plan.managedPath, prior.value, true);
      e := Wrote(plan.managedPath, true, ok);
    } else {
      ok := tr.Remove(plan.managedPath, true);
      e := Deleted(plan.managedPath, true, ok);
    }
  }

  /** The events of a full rollback. */
  ghost predicate UndoEvents(undo: seq<Event>, plan: Plan) {
    if plan.dropIn then |undo| == 1 && IsUndo(undo[0], plan.managedPath)
    else |undo| == 2 && IsUndo(undo[0], plan.confFile) && IsUndo(undo[1], plan.managedPath)
  }

  /** The files after a full rollback. */
  function Restored(files: Files, plan: Plan, conf: string, prior: Option<string>): (r: Files) {
    var f := if plan.dropIn then files else files[plan.confFile := conf];
    if prior.Some? then f[plan.managedPath := prior.value] else f - {plan.managedPath}
  }

  /** The rollback after the config file was written. */
  method RestoreAll(tr: Transport, plan: Plan, conf: string, prior: Option<string>, ghost w: World,
                    ghost before: seq<Event>) returns (ghost undo: seq<Event>)
    requires tr.Now() == After(w, before, tr.files)
    modifies tr
    ensures UndoEvents(undo, plan) && tr.Now() == After(w, before + undo, tr.files)
    ensures Undone(undo) ==> tr.files == Restored(old(tr.files), plan, conf, prior)
    ensures forall p :: p != plan.confFile && p != plan.managedPath ==> SameAt(old(tr.files), tr.files, p)
  {
    undo := [];
    Units(before);
    if !plan.dropIn {
      var ok := tr.WriteFile(plan.confFile, conf, true);
      undo := [Wrote(plan.confFile, true, ok)];
      PushAfter(w, before, old(tr.files), undo[0], tr.files);
    }
    ghost var f := tr.files;
    ghost var d := RestoreManaged(tr, plan, prior);
    PushAfter(w, before + undo, f, d, tr.files);
    Assoc(before, undo, [d]);
    undo := undo + [d];
  }

  /** What the stages are given: the prior contents, the edit, and something to do. */
  ghost predicate Staged(w: World, unreadable: set<string>, plan: Plan, prior: Option<string>, orig: string,
                         new_: string) {
    && prior == Readable(w.files, unreadable, plan.managedPath)
    && (!plan.dropIn ==> Readable(w.files, unreadable, plan.confFile) == Some(orig) && plan.inject(orig) == Ok(new_))
    && !UpToDate(w.files, unreadable, plan)
  }

  // ---------- the ways a call can end ----------

  /** Forward steps: no rollback and no reload. */
  ghost predicate Forward(ev: seq<Event>) {
    forall i :: 0 <= i < |ev| ==> !ev[i].Reloaded? && !HasUndo(ev[i])
  }

  /** The managed file exists but cannot be read: the code takes it for absent. */
  predicate HiddenManaged(files: Files, unreadable: set<string>, plan: Plan) {
    plan.managedPath in files && plan.managedPath in unreadable
  }

  lemma EndsUntouched(w: World, unreadable: set<string>, plan: Plan, backup: string, prior: Option<string>,
                      orig: string, new_: string, out: Outcome, ev: seq<Event>)
    requires Staged(w, unreadable, plan, prior, orig, new_) && !out.ok && !out.changed
    requires DirFirst(ev) && Forward(ev) && BackupFirst(ev, plan, backup) && Hindered(ev, backup)
             && Wrote(backup, false, true) !in ev
    ensures ApplyStep(w, After(w, ev, w.files), unreadable, plan, backup, out, ev)
  {
  }

  /** Rolling back gives the files of the start, the backup apart, exactly when a managed file that was
      there could be read. */
  lemma RestoredExactly(files: Files, unreadable: set<string>, plan: Plan, backup: string, at: Files,
                        prior: Option<string>, orig: string)
    requires DistinctPaths(plan, backup)
    requires prior == Readable(files, unreadable, plan.managedPath)
    requires !plan.dropIn ==> Readable(files, unreadable, plan.confFile) == Some(orig)
    requires forall p :: p != backup && p != plan.managedPath && (plan.dropIn || p != plan.confFile) ==>
               SameAt(files, at, p)
    ensures SameBut(Restored(at, plan, orig, prior), files, backup) <==> !HiddenManaged(files, unreadable, plan)
    ensures !HiddenManaged(files, unreadable, plan) ==> SameAt(files, Restored(at, plan, orig, prior), plan.managedPath)
    ensures SameAt(files, at, plan.confFile) || !plan.dropIn
            ==> SameAt(files, Restored(at, plan, orig, prior), plan.confFile)
  {
    var r := Restored(at, plan, orig, prior);
    if !HiddenManaged(files, unreadable, plan) {
      forall p | p != backup ensures SameAt(files, r, p) {
        if p != plan.managedPath && (plan.dropIn || p != plan.confFile) {
          assert SameAt(files, at, p);
        }
      }
      SameFromPoints(r, files, backup);
    } else {
      assert plan.managedPath in files - {backup} && plan.managedPath !in r;
    }
  }

  lemma SameFromPoints(f: Files, f': Files, b: string)
    requires forall p :: p != b ==> SameAt(f', f, p)
    ensures SameBut(f, f', b)
  {
    forall p ensures p in f - {b} <==> p in f' - {b} {
      assert p != b ==> SameAt(f', f, p);
    }
    forall p | p in f - {b} ensures (f - {b})[p] == (f' - {b})[p] {
      assert SameAt(f', f, p);
    }
  }

  /** The files between the forward writes and the rollback differ from the start at most at these paths. */
  ghost predicate TouchedOnly(files: Files, at: Files, plan: Plan, backup: string) {
    forall p :: p != backup && p != plan.managedPath && (plan.dropIn || p != plan.confFile) ==> SameAt(files, at, p)
  }

  /** A failure that was rolled back without a second reload. */
  lemma EndsRolledBack(w: World, unreadable: set<string>, plan: Plan, backup: string, prior: Option<string>,
                       orig: string, new_: string,
                       out: Outcome, fw: seq<Event>, undo: seq<Event>, at: Files, files': Files)
    requires Staged(w, unreadable, plan, prior, orig, new_) && DistinctPaths(plan, backup) && !out.ok && !out.changed
    requires DirFirst(fw) && Forward(fw) && BackupFirst(fw, plan, backup) && Hindered(fw, backup)
    requires undo != [] && forall i :: 0 <= i < |undo| ==> HasUndo(undo[i])
    requires TouchedOnly(w.files, at, plan, backup)
    requires Undone(undo) ==> files' == Restored(at, plan, orig, prior)
    requires BackedUp(w.files, at, plan, backup, fw) && SameAt(at, files', backup)
    ensures ApplyStep(w, After(w, fw + undo, files'), unreadable, plan, backup, out, fw + undo)
  {
    var ev := fw + undo;
    assert HasUndo(ev[|fw|]);
    BackupKept(w.files, at, files', plan, backup, fw, undo);
    BackupFirstMore(fw, undo, plan, backup);
    UndoneConcat(fw, undo);
    HinderedMore(fw, undo, backup);
    assert forall i :: 0 <= i < |ev| ==> !ev[i].Reloaded?;
    RestoredExactly(w.files, unreadable, plan, backup, at, prior, orig);
  }

  lemma HinderedMore(a: seq<Event>, b: seq<Event>, backup: string)
    ensures Hindered(a + b, backup) <==> Hindered(a, backup) || Hindered(b, backup)
  {
    if i :| 0 <= i < |a| && Hinders(a[i], backup) {
      assert Hinders((a + b)[i], backup);
    }
    if i :| 0 <= i < |b| && Hinders(b[i], backup) {
      assert Hinders((a + b)[|a| + i], backup);
    }
    if i :| 0 <= i < |a + b| && Hinders((a + b)[i], backup) {
      assert Hinders(if i < |a| then a[i] else b[i - |a|], backup);
    }
  }

  /** Validation refused the files. */
  lemma EndsInvalid(w: World, unreadable: set<string>, plan: Plan, backup: string, prior: Option<string>, orig: string,
                    new_: string, out: Outcome, fw: seq<Event>, undo: seq<Event>, at: Files, files': Files)
    requires Staged(w, unreadable, plan, prior, orig, new_) && DistinctPaths(plan, backup) && !out.ok && !out.changed
    requires DirFirst(fw) && Forward(fw) && BackupFirst(fw, plan, backup) && UndoEvents(undo, plan)
    requires TouchedOnly(w.files, at, plan, backup)
    requires Undone(undo) ==> files' == Restored(at, plan, orig, prior)
    requires BackedUp(w.files, at, plan, backup, fw) && SameAt(at, files', backup)
    ensures var ev := fw + [Validated(at, false)] + undo;
            ApplyStep(w, After(w, ev, files'), unreadable, plan, backup, out, ev)
  {
    var more := fw + [Validated(at, false)];
    assert more[|fw|] == Validated(at, false) && Hinders(more[|fw|], backup);
    BackupFirstMore(fw, [Validated(at, false)], plan, backup);
    BackupKept(w.files, at, at, plan, backup, fw, [Validated(at, false)]);
    EndsRolledBack(w, unreadable, plan, backup, prior, orig, new_, out, more, undo, at, files');
  }

  /** Later events that write no backup leave it as it is. */
  lemma BackupKept(files: Files, at: Files, files': Files, plan: Plan, backup: string, fw: seq<Event>, more: seq<Event>)
    requires BackedUp(files, at, plan, backup, fw) && SameAt(at, files', backup)
    requires Wrote(backup, false, true) !in more
    ensures BackedUp(files, files', plan, backup, fw + more)
  {
    assert Wrote(backup, false, true) in fw + more <==> Wrote(backup, false, true) in fw;
  }

  lemma BackupFirstMore(fw: seq<Event>, more: seq<Event>, plan: Plan, backup: string)
    requires BackupFirst(fw, plan, backup)
    requires forall i :: 0 <= i < |more| ==> !IsWrite(more[i], plan.confFile)
    ensures BackupFirst(fw + more, plan, backup)
  {
    var ev := fw + more;
    forall i | 0 <= i < |ev| && IsWrite(ev[i], plan.confFile) ensures JustBackedUp(ev, i, backup) {
      assert forall j :: |fw| <= j < |ev| ==> ev[j] == more[j - |fw|];
      assert ev[i] == fw[i] && JustBackedUp(fw, i, backup);
    }
  }

  lemma UndoneConcat(a: seq<Event>, b: seq<Event>)
    requires Forward(a)
    ensures Undone(a + b) <==> Undone(b)
  {
    if Undone(a + b) {
      forall i | 0 <= i < |b| && HasUndo(b[i]) ensures b[i].ok {
        assert (a + b)[|a| + i] == b[i];
      }
    }
  }

  /** A failed reload: rolled back, then reloaded again whatever the answer. */
  lemma EndsReloadFailed(w: World, unreadable: set<string>, plan: Plan, backup: string, prior: Option<string>,
                         orig: string, new_: string,
                         out: Outcome, fw: seq<Event>, undo: seq<Event>, at: Files, files': Files, again: bool)
    requires Staged(w, unreadable, plan, prior, orig, new_) && DistinctPaths(plan, backup) && !out.ok && !out.changed
    requires DirFirst(fw) && Forward(fw) && BackupFirst(fw, plan, backup) && UndoEvents(undo, plan)
    requires TouchedOnly(w.files, at, plan, backup)
    requires Undone(undo) ==> files' == Restored(at, plan, orig, prior)
    requires BackedUp(w.files, at, plan, backup, fw) && SameAt(at, files', backup)
    ensures var ev := fw + [Validated(at, true), Reloaded(at, false)] + undo + [Reloaded(files', again)];
            ApplyStep(w, After(w, ev, files'), unreadable, plan, backup, out, ev)
  {
    var mid := [Validated(at, true), Reloaded(at, false)];
    var last := Reloaded(files', again);
    var ev := fw + mid + undo + [last];
    assert ev == fw + (mid + undo + [last]);
    BackupKept(w.files, at, files', plan, backup, fw, mid + undo + [last]);
    BackupFirstMore(fw, mid + undo + [last], plan, backup);
    ReloadsAre(fw, mid, undo, last, ev);
    UndoneInside(fw, mid, undo, last, ev);
    FailedHinders(fw, mid, undo, last, ev, backup);
    RestoredExactly(w.files, unreadable, plan, backup, at, prior, orig);
    if Undone(ev) && !HiddenManaged(w.files, unreadable, plan) {
      DisciplinedAgain(w.files, plan, fw, at, undo, last, ev);
    }
  }

  /** Some step was a rollback; the rollback as a whole succeeded if its steps did. */
  lemma UndoneInside(fw: seq<Event>, mid: seq<Event>, undo: seq<Event>, last: Event, ev: seq<Event>)
    requires |mid| == 2 && undo != [] && HasUndo(undo[0]) && ev == fw + mid + undo + [last]
    ensures RolledBack(ev) && (Undone(ev) ==> Undone(undo))
  {
    var n := |fw| + 2;
    assert ev[n - 1] == mid[1] && ev[n] == undo[0];
    forall i | Undone(ev) && 0 <= i < |undo| && HasUndo(undo[i]) ensures undo[i].ok {
      assert ev[n + i] == undo[i];
    }
  }

  lemma FailedHinders(fw: seq<Event>, mid: seq<Event>, undo: seq<Event>, last: Event, ev: seq<Event>, backup: string)
    requires |mid| == 2 && mid[1].Reloaded? && !mid[1].ok && ev == fw + mid + undo + [last]
    ensures Hindered(ev, backup)
  {
    assert ev[|fw| + 1] == mid[1] && Hinders(ev[|fw| + 1], backup);
  }

  /** The first reload follows an accepting check; the second sees the restored files. */
  lemma DisciplinedAgain(start: Files, plan: Plan, fw: seq<Event>, at: Files, undo: seq<Event>, last: Event,
                         ev: seq<Event>)
    requires last.Reloaded? && ev == fw + [Validated(at, true), Reloaded(at, false)] + undo + [last]
    requires forall i :: 0 <= i < |ev| && ev[i].Reloaded? ==> i == |fw| + 1 || i == |ev| - 1
    requires SameAt(start, last.seen, plan.confFile) && SameAt(start, last.seen, plan.managedPath)
    ensures Disciplined(start, ev, plan)
  {
    var n := |fw|;
    assert ev[n] == Validated(at, true) && ev[n + 1] == Reloaded(at, false);
    assert JustAccepted(ev, n + 1);
  }

  /** The reloads of a failed reload's events are the second of the middle and the last. */
  lemma ReloadsAre(fw: seq<Event>, mid: seq<Event>, undo: seq<Event>, last: Event, ev: seq<Event>)
    requires Forward(fw) && |mid| == 2 && !mid[0].Reloaded? && (forall i :: 0 <= i < |undo| ==> HasUndo(undo[i]))
    requires ev == fw + mid + undo + [last]
    ensures forall i :: 0 <= i < |ev| && ev[i].Reloaded? ==> i == |fw| + 1 || i == |ev| - 1
  {
    forall i | 0 <= i < |fw| ensures !ev[i].Reloaded? {
      assert ev[i] == fw[i];
    }
    forall i | |fw| + 2 <= i < |ev| - 1 ensures !ev[i].Reloaded? {
      assert ev[i] == undo[i - |fw| - 2];
    }
  }

  /** Success. */
  lemma EndsApplied(w: World, unreadable: set<string>, plan: Plan, backup: string, prior: Option<string>, orig: string,
                    new_: string, out: Outcome, fw: seq<Event>, at: Files)
    requires Staged(w, unreadable, plan, prior, orig, new_) && DistinctPaths(plan, backup) && out.ok && out.changed
    requires DirFirst(fw) && Forward(fw) && BackupFirst(fw, plan, backup) && !Hindered(fw, backup)
    requires SameBut(at, Planned(w.files, unreadable, plan), backup)
    requires BackedUp(w.files, at, plan, backup, fw)
    ensures var ev := fw + [Validated(at, true), Reloaded(at, true)];
            ApplyStep(w, After(w, ev, at), unreadable, plan, backup, out, ev)
  {
    var ev := fw + [Validated(at, true), Reloaded(at, true)];
    BackupKept(w.files, at, at, plan, backup, fw, [Validated(at, true), Reloaded(at, true)]);
    BackupFirstMore(fw, [Validated(at, true), Reloaded(at, true)], plan, backup);
    assert ev[|fw|] == Validated(at, true) && ev[|fw| + 1] == Reloaded(at, true);
    assert ev[|ev| - 2..] == [Validated(at, true), Reloaded(at, true)];
    HinderedMore(fw, [Validated(at, true), Reloaded(at, true)], backup);
    assert forall i :: 0 <= i < |fw| ==> ev[i] == fw[i];
  }

  /** applyConfig without dry run. */
  method ApplyConfig(tr: Transport, plan: Plan, backup: string) returns (out: Outcome, ghost ev: seq<Event>)
    requires DistinctPaths(plan, backup)
    modifies tr
    ensures ApplyStep(old(tr.Now()), tr.Now(), tr.unreadable, plan, backup, out, ev)
  {
    ghost var w := tr.Now();
    ev := [];
    Units(w.trace);
    var prior := tr.ReadFile(plan.managedPath);
    var managedChanged := prior != Some(plan.managedData);
    var orig, new_ := "", "";
    var confChanged := false;
    if !plan.dropIn {
      var conf := tr.ReadFile(plan.confFile);
      if conf.None? {
        return Outcome(false, false, "reading"), ev;
      }
      orig := conf.value;
      var edited := plan.inject(orig);
      if edited.Err? {
        return Outcome(false, false, edited.message), ev;
      }
      new_ := edited.value;
      confChanged := orig != new_;
    }
    if !managedChanged && !confChanged {
      return Outcome(true, false, "already up to date"), ev;
    }
    out, ev := Stage(tr, plan, backup, prior, orig, new_);
  }

  /** Stages 1 to 4: write the managed file, write the config file, validate, reload. */
  method Stage(tr: Transport, plan: Plan, backup: string, prior: Option<string>, orig: string, new_: string)
      returns (out: Outcome, ghost ev: seq<Event>)
    requires DistinctPaths(plan, backup) && Staged(tr.Now(), tr.unreadable, plan, prior, orig, new_)
    modifies tr
    ensures ApplyStep(old(tr.Now()), tr.Now(), tr.unreadable, plan, backup, out, ev)
  {
    ghost var w := tr.Now();
    Units(w.trace);
    out := Outcome(false, false, "writing");
    var ok := tr.MkdirAll(plan.managedPath);
    PushAfter(w, [], w.files, MadeDir(ok), tr.files);
    Units([MadeDir(ok)]);
    ev := [MadeDir(ok)];
    if !ok {
      EndsUntouched(w, tr.unreadable, plan, backup, prior, orig, new_, out, ev);
      return;
    }
    ok := tr.WriteFile(plan.managedPath, plan.managedData, false);
    PushAfter(w, ev, w.files, Wrote(plan.managedPath, false, ok), tr.files);
    ev := ev + [Wrote(plan.managedPath, false, ok)];
    if !ok {
      EndsUntouched(w, tr.unreadable, plan, backup, prior, orig, new_, out, ev);
      return;
    }
    if !plan.dropIn {
      ok, ev := WriteConf(tr, plan, backup, orig, new_, w, ev);
      if !ok {
        out, ev := PutManagedBack(tr, plan, backup, prior, orig, new_, w, ev);
        return;
      }
    }
    out, ev := ValidateAndReload(tr, plan, backup, prior, orig, new_, w, ev);
  }

  /** The config file could not be written. */
  method PutManagedBack(tr: Transport, plan: Plan, backup: string, prior: Option<string>, orig: string, new_: string,
                        ghost w: World, ghost fw: seq<Event>)
    returns (out: Outcome, ghost ev: seq<Event>)
    requires DistinctPaths(plan, backup) && Staged(w, tr.unreadable, plan, prior, orig, new_) && !plan.dropIn
    requires tr.Now() == After(w, fw, tr.files) && DirFirst(fw) && Forward(fw) && BackupFirst(fw, plan, backup)
    requires Hindered(fw, backup) && BackedUp(w.files, tr.files, plan, backup, fw)
    requires SameBut(tr.files, w.files[plan.managedPath := plan.managedData], backup)
    modifies tr
    ensures ApplyStep(w, tr.Now(), tr.unreadable, plan, backup, out, ev)
  {
    ghost var at := tr.files;
    out := Outcome(false, false, "writing");
    ghost var d := RestoreManaged(tr, plan, prior);
    PushAfter(w, fw, at, d, tr.files);
    UnwrittenConf(w.files, plan, backup, at, orig);
    EndsRolledBack(w, tr.unreadable, plan, backup, prior, orig, new_, out, fw, [d], at, tr.files);
    ev := fw + [d];
  }

  /** Stage 2: the backup, whose failure is ignored, then the config file. */
  method WriteConf(tr: Transport, plan: Plan, backup: string, orig: string, new_: string, ghost w: World,
                   ghost before: seq<Event>) returns (ok: bool, ghost ev: seq<Event>)
    requires tr.Now() == After(w, before, tr.files) && Forward(before) && BackupFirst(before, plan, backup)
    requires DistinctPaths(plan, backup) && plan.confFile in w.files && orig == w.files[plan.confFile]
    requires SameAt(w.files, tr.files, backup) && Wrote(backup, false, true) !in before
    modifies tr
    ensures tr.Now() == After(w, ev, tr.files) && before <= ev && Forward(ev) && BackupFirst(ev, plan, backup)
    ensures ok ==> SameBut(tr.files, old(tr.files)[plan.confFile := new_], backup)
    ensures !ok ==> SameBut(tr.files, old(tr.files), backup)
    ensures Hindered(ev, backup) <==> Hindered(before, backup) || !ok
    ensures BackedUp(w.files, tr.files, plan, backup, ev)
  {
    var backed := tr.WriteFile(backup, orig, false);
    ghost var b := Wrote(backup, false, backed);
    PushAfter(w, before, old(tr.files), b, tr.files);
    ghost var f := tr.files;
    ok := tr.WriteFile(plan.confFile, new_, false);
    ghost var c := Wrote(plan.confFile, false, ok);
    PushAfter(w, before + [b], f, c, tr.files);
    ev := before + [b] + [c];
    TwoWrites(before, b, c, plan, backup);
    TwoFiles(old(tr.files), f, tr.files, plan, backup, orig, new_, backed, ok);
  }

  lemma TwoFiles(f0: Files, f1: Files, f2: Files, plan: Plan, backup: string, orig: string, new_: string, backed: bool,
                 ok: bool)
    requires DistinctPaths(plan, backup)
    requires f1 == if backed then f0[backup := orig] else f0
    requires f2 == if ok then f1[plan.confFile := new_] else f1
    ensures ok ==> SameBut(f2, f0[plan.confFile := new_], backup)
    ensures !ok ==> SameBut(f2, f0, backup)
    ensures if backed then backup in f2 && f2[backup] == orig else SameAt(f0, f2, backup)
  {
  }

  lemma TwoWrites(before: seq<Event>, b: Event, c: Event, plan: Plan, backup: string)
    requires Forward(before) && BackupFirst(before, plan, backup) && DistinctPaths(plan, backup)
    requires IsWrite(b, backup) && IsWrite(c, plan.confFile)
    ensures var ev := before + [b] + [c];
            && before <= ev && Forward(ev) && BackupFirst(ev, plan, backup)
            && (Hindered(ev, backup) <==> Hindered(before, backup) || !c.ok)
            && var done := Wrote(backup, false, true);
               (done in ev <==> done in before || b == done)
  {
    var ev := before + [b] + [c];
    assert ev[|before|] == b && ev[|before| + 1] == c;
    assert forall i :: 0 <= i < |before| ==> ev[i] == before[i];
    HinderedMore(before + [b], [c], backup);
    HinderedMore(before, [b], backup);
    assert [c][0] == c && [b][0] == b;
  }

  /** Stages 3 and 4. */
  method ValidateAndReload(tr: Transport, plan: Plan, backup: string, prior: Option<string>, orig: string, new_: string,
                           ghost w: World, ghost fw: seq<Event>)
    returns (out: Outcome, ghost ev: seq<Event>)
    requires DistinctPaths(plan, backup) && Staged(w, tr.unreadable, plan, prior, orig, new_)
    requires tr.Now() == After(w, fw, tr.files) && DirFirst(fw) && Forward(fw) && BackupFirst(fw, plan, backup)
    requires BackedUp(w.files, tr.files, plan, backup, fw) && !Hindered(fw, backup)
    requires SameBut(tr.files, Planned(w.files, tr.unreadable, plan), backup)
    modifies tr
    ensures ApplyStep(w, tr.Now(), tr.unreadable, plan, backup, out, ev)
  {
    ghost var at := tr.files;
    PlannedTouches(w.files, tr.unreadable, plan, backup, at);
    var ok := tr.Validate();
    PushAfter(w, fw, at, Validated(at, ok), at);
    ev := fw + [Validated(at, ok)];
    if !ok {
      ghost var undo := RestoreAll(tr, plan, orig, prior, w, ev);
      out := Outcome(false, false, "validation failed, rolled back");
      EndsInvalid(w, tr.unreadable, plan, backup, prior, orig, new_, out, fw, undo, at, tr.files);
      ev := ev + undo;
      return;
    }
    ok := tr.Reload();
    PushAfter(w, ev, at, Reloaded(at, ok), at);
    ev := ev + [Reloaded(at, ok)];
    assert ev == fw + [Validated(at, true), Reloaded(at, ok)];
    if !ok {
      ghost var undo := RestoreAll(tr, plan, orig, prior, w, ev);
      ghost var f := tr.files;
      var again := tr.Reload();
      PushAfter(w, ev + undo, f, Reloaded(f, again), f);
      out := Outcome(false, false, "reload failed, rolled back");
      EndsReloadFailed(w, tr.unreadable, plan, backup, prior, orig, new_, out, fw, undo, at, f, again);
      ev := ev + undo + [Reloaded(f, again)];
      return;
    }
    out := Outcome(true, true, "applied");
    EndsApplied(w, tr.unreadable, plan, backup, prior, orig, new_, out, fw, at);
  }

  /** With the config file not written, restoring it too would change nothing. */
  lemma UnwrittenConf(files: Files, plan: Plan, backup: string, at: Files, orig: string)
    requires DistinctPaths(plan, backup) && !plan.dropIn && plan.confFile in files && files[plan.confFile] == orig
    requires SameBut(at, files[plan.managedPath := plan.managedData], backup)
    ensures TouchedOnly(files, at, plan, backup) && at[plan.confFile := orig] == at
  {
    forall p | p != backup && p != plan.managedPath ensures SameAt(files, at, p) {
      PointFromSame(at, files[plan.managedPath := plan.managedData], backup, p);
    }
    assert SameAt(files, at, plan.confFile);
  }

  lemma PlannedTouches(files: Files, unreadable: set<string>, plan: Plan, backup: string, at: Files)
    requires Plannable(files, unreadable, plan) && SameBut(at, Planned(files, unreadable, plan), backup)
    ensures TouchedOnly(files, at, plan, backup)
  {
    var planned := Planned(files, unreadable, plan);
    forall p | p != backup && p != plan.managedPath && (plan.dropIn || p != plan.confFile)
        ensures SameAt(files, at, p) {
      PointFromSame(at, planned, backup, p);
    }
  }

  lemma PointFromSame(f: Files, f': Files, b: string, p: string)
    requires SameBut(f, f', b) && p != b
    ensures SameAt(f', f, p)
  {
    assert p in f <==> p in f - {b};
    assert p in f' <==> p in f' - {b};
    if p in f {
      assert (f - {b})[p] == (f' - {b})[p];
    }
  }
}
