/** The nftables engine on a host: stage, check, load, persist; and when the persisted file tells the truth. */
module NftHost {
  import opened Text
  import opened Targets
  import HAProxy
  import Nftables

  /** What nft is given: a ruleset that replaces a table, or a teardown that leaves no such table. */
  datatype Script = Ruleset(table: string, text: string) | Teardown(table: string)

  type Files = map<string, Script>

  /** The loaded tables: each by the text of the ruleset that defined it. */
  type Tables = map<string, string>

  datatype State = State(files: Files, tables: Tables)

  /** Whether nft ran, and if so whether it accepted. */
  datatype Run = Accepted | Rejected | Broken

  datatype Outcome = Outcome(ok: bool, changed: bool)

  const DIR := "/etc/ip-watch/nftables/"

  function RulesPath(id: string): (r: string) {
    DIR + id + ".nft"
  }

  /** What loading a script does to the tables; a load is atomic. */
  function Loaded(tables: Tables, s: Script): (r: Tables) {
    match s
    case Ruleset(table, text) => tables[table := text]
    case Teardown(table) => tables - {table}
  }

  /** What happens on the host: files are written and deleted, nft checks and loads a script. */
  datatype Event =
    | Wrote(path: string, s: Script, ok: bool)
    | Deleted(path: string, ok: bool)
    | Checked(s: Script, r: Run)
    | Loading(s: Script, r: Run)

  /** What an event does; a write that fails writes nothing, a check has no effect. */
  function Effect(s: State, e: Event): (r: State) {
    match e
    case Wrote(p, x, ok) => if ok then s.(files := s.files[p := x]) else s
    case Deleted(p, ok) => if ok then s.(files := s.files - {p}) else s
    case Checked(_, _) => s
    case Loading(x, r) => if r.Accepted? then s.(tables := Loaded(s.tables, x)) else s
  }

  function Replay(s: State, ev: seq<Event>): (r: State) {
    if ev == [] then s else Effect(Replay(s, ev[..|ev| - 1]), ev[|ev| - 1])
  }

  lemma ReplayMore(s: State, ev: seq<Event>, e: Event)
    ensures Replay(s, ev + [e]) == Effect(Replay(s, ev), e)
  {
    assert (ev + [e])[..|ev|] == ev;
  }

  predicate Succeeded(e: Event) {
    match e
    case Wrote(_, _, ok) => ok
    case Deleted(_, ok) => ok
    case Checked(_, r) => r.Accepted?
    case Loading(_, r) => r.Accepted?
  }

  predicate AllWell(ev: seq<Event>) {
    forall i :: 0 <= i < |ev| ==> Succeeded(ev[i])
  }

  class Host {
    var files: Files
    var tables: Tables
    ghost var log: seq<Event>

    ghost function Now(): State
      reads this
    {
      State(files, tables)
    }

    /** writeTemp and WriteFile: on failure nothing is written. */
    method Write(p: string, s: Script) returns (ok: bool)
      modifies this
      ensures log == old(log) + [Wrote(p, s, ok)] && Now() == Effect(old(Now()), Wrote(p, s, ok))
    {
      ok := *;
      if ok {
        files := files[p := s];
      }
      log := log + [Wrote(p, s, ok)];
    }

    method Remove(p: string) returns (ok: bool)
      modifies this
      ensures log == old(log) + [Deleted(p, ok)] && Now() == Effect(old(Now()), Deleted(p, ok))
    {
      ok := *;
      if ok {
        files := files - {p};
      }
      log := log + [Deleted(p, ok)];
    }

    /** nft -c -f: no effect. */
    method Check(p: string) returns (r: Run)
      requires p in files
      modifies this
      ensures log == old(log) + [Checked(old(files)[p], r)] && Now() == old(Now())
    {
      r := Answer();
      log := log + [Checked(files[p], r)];
    }

    /** nft -f: all or nothing. */
    method Load(p: string) returns (r: Run)
      requires p in files
      modifies this
      ensures log == old(log) + [Loading(old(files)[p], r)] && Now() == Effect(old(Now()), Loading(old(files)[p], r))
    {
      r := Answer();
      if r.Accepted? {
        tables := Loaded(tables, files[p]);
      }
      log := log + [Loading(files[p], r)];
    }

    /** Whatever nft answers. */
    method Answer() returns (r: Run) {
      if * {
        r := Accepted;
      } else if * {
        r := Rejected;
      } else {
        r := Broken;
      }
    }

    /** One more step of a call that began at s, with this log. */
    method Note(ghost s: State, ghost before: seq<Event>, ghost ev: seq<Event>, ghost e: Event)
        returns (ghost ev': seq<Event>)
      requires Now() == Effect(Replay(s, ev), e) && log == before + ev + [e]
      ensures ev' == ev + [e] && Now() == Replay(s, ev') && log == before + ev'
    {
      ReplayMore(s, ev, e);
      Assoc(before, ev, [e]);
      ev' := ev + [e];
    }

    method Apply(id: string, text: string, dryRun: bool, force: bool, readable: bool)
        returns (out: Outcome, ghost ev: seq<Event>)
      modifies this
      ensures log == old(log) + ev && Now() == Replay(old(Now()), ev)
      ensures ApplyLog(old(Now()), ev, id, text, dryRun, force, readable, out)
    {
      var ruleset := Ruleset(Nftables.TableName(id), text);
      var rulesPath := RulesPath(id);
      if dryRun {
        out, ev := DryRun(rulesPath + ".check", ruleset);
        return;
      }
      if !force {
        if rulesPath in files && readable && files[rulesPath] == ruleset {
          return Outcome(true, false), [];
        }
      }
      out, ev := Install(rulesPath + ".tmp", rulesPath, ruleset);
    }

    /** Stage, check, load, persist. */
    method Install(stagingPath: string, rulesPath: string, ruleset: Script) returns (out: Outcome, ghost ev: seq<Event>)
      modifies this
      ensures log == old(log) + ev && Now() == Replay(old(Now()), ev)
      ensures LoadLog(ev, stagingPath, rulesPath, ruleset, out)
    {
      ghost var s, before := Now(), log;
      Units(before);
      var staged := Write(stagingPath, ruleset);
      ev := Note(s, before, [], Wrote(stagingPath, ruleset, staged));
      if !staged {
        return Outcome(false, false), ev;
      }
      var r := Check(stagingPath);
      ev := Note(s, before, ev, Checked(ruleset, r));
      if !r.Accepted? {
        var gone := Remove(stagingPath);
        ev := Note(s, before, ev, Deleted(stagingPath, gone));
        return Outcome(false, false), ev;
      }
      out, ev := LoadAndPersist(stagingPath, rulesPath, ruleset, s, before, ev);
    }

    /** The staged ruleset was accepted. */
    method LoadAndPersist(stagingPath: string, rulesPath: string, ruleset: Script, ghost s: State,
                          ghost before: seq<Event>, ghost fw: seq<Event>) returns (out: Outcome, ghost ev: seq<Event>)
      requires stagingPath in files && files[stagingPath] == ruleset
      requires fw == [Wrote(stagingPath, ruleset, true), Checked(ruleset, Accepted)] && Now() == Replay(s, fw)
      requires log == before + fw
      modifies this
      ensures log == before + ev && Now() == Replay(s, ev)
      ensures LoadLog(ev, stagingPath, rulesPath, ruleset, out)
    {
      ev := fw;
      var r := Load(stagingPath);
      ev := Note(s, before, ev, Loading(ruleset, r));
      if !r.Accepted? {
        var gone := Remove(stagingPath);
        ev := Note(s, before, ev, Deleted(stagingPath, gone));
        return Outcome(false, false), ev;
      }
      var persisted := Write(rulesPath, ruleset);
      ev := Note(s, before, ev, Wrote(rulesPath, ruleset, persisted));
      var gone := Remove(stagingPath);
      ev := Note(s, before, ev, Deleted(stagingPath, gone));
      out := Outcome(persisted, persisted);
    }

    method DryRun(check: string, ruleset: Script) returns (out: Outcome, ghost ev: seq<Event>)
      modifies this
      ensures log == old(log) + ev && Now() == Replay(old(Now()), ev)
      ensures DryLog(ev, check, ruleset, out)
    {
      ghost var s, before := Now(), log;
      Units(before);
      var staged := Write(check, ruleset);
      ev := Note(s, before, [], Wrote(check, ruleset, staged));
      if !staged {
        return Outcome(false, false), ev;
      }
      var r := Check(check);
      ev := Note(s, before, ev, Checked(ruleset, r));
      var gone := Remove(check);
      ev := Note(s, before, ev, Deleted(check, gone));
      out := Outcome(r.Accepted?, true);
    }

    method RemoveTable(id: string) returns (out: Outcome, ghost ev: seq<Event>)
      modifies this
      ensures log == old(log) + ev && Now() == Replay(old(Now()), ev)
      ensures RemoveLog(ev, id, out)
    {
      var teardown := Teardown(Nftables.TableName(id));
      var removePath := RulesPath(id) + ".remove";
      ghost var s, before := Now(), log;
      Units(before);
      var staged := Write(removePath, teardown);
      ev := Note(s, before, [], Wrote(removePath, teardown, staged));
      if !staged {
        return Outcome(false, false), ev;
      }
      var r := Load(removePath);
      ev := Note(s, before, ev, Loading(teardown, r));
      var gone := Remove(removePath);
      ev := Note(s, before, ev, Deleted(removePath, gone));
      if !r.Accepted? {
        return Outcome(false, false), ev;
      }
      var deleted := Remove(RulesPath(id));
      ev := Note(s, before, ev, Deleted(RulesPath(id), deleted));
      out := Outcome(true, true);
    }
  }

  // ---------- what a call does ----------

  /** Whether nft loaded the script, whether the rules file followed, and whether the staged file is gone. */
  datatype How = How(loaded: bool, followed: bool, cleaned: bool)

  function HowOf(ev: seq<Event>, load: Event, follow: Event, clean: Event): (how: How) {
    How(load in ev, follow in ev, clean in ev)
  }

  function ApplyHow(ev: seq<Event>, id: string, text: string, dryRun: bool): (how: How) {
    var ruleset, rules := Ruleset(Nftables.TableName(id), text), RulesPath(id);
    HowOf(ev, Loading(ruleset, Accepted), Wrote(rules, ruleset, true),
          Deleted(rules + if dryRun then ".check" else ".tmp", true))
  }

  function RemoveHow(ev: seq<Event>, id: string): (how: How) {
    HowOf(ev, Loading(Teardown(Nftables.TableName(id)), Accepted), Deleted(RulesPath(id), true),
          Deleted(RulesPath(id) + ".remove", true))
  }

  // The logs that a call may leave, step by step as the answers come.

  predicate DryLog(ev: seq<Event>, check: string, ruleset: Script, out: Outcome) {
    || (ev == [Wrote(check, ruleset, false)] && out == Outcome(false, false))
    || (&& |ev| == 3 && ev[0] == Wrote(check, ruleset, true)
        && ev[1].Checked? && ev[1].s == ruleset && ev[2].Deleted? && ev[2].path == check
        && out == Outcome(ev[1].r.Accepted?, true))
  }

  predicate LoadLog(ev: seq<Event>, staging: string, rules: string, ruleset: Script, out: Outcome) {
    || (ev == [Wrote(staging, ruleset, false)] && out == Outcome(false, false))
    || (&& |ev| > 2 && ev[0] == Wrote(staging, ruleset, true) && ev[1].Checked? && ev[1].s == ruleset
        && ev[|ev| - 1].Deleted? && ev[|ev| - 1].path == staging
        && if !ev[1].r.Accepted? then |ev| == 3 && out == Outcome(false, false)
           else
             && |ev| > 3 && ev[2].Loading? && ev[2].s == ruleset
             && if !ev[2].r.Accepted? then |ev| == 4 && out == Outcome(false, false)
                else |ev| == 5 && ev[3] in [Wrote(rules, ruleset, true), Wrote(rules, ruleset, false)]
                     && out == Outcome(ev[3].ok, ev[3].ok))
  }

  predicate ApplyLog(s: State, ev: seq<Event>, id: string, text: string, dryRun: bool, force: bool, readable: bool,
                     out: Outcome) {
    var ruleset, rules := Ruleset(Nftables.TableName(id), text), RulesPath(id);
    if dryRun then DryLog(ev, rules + ".check", ruleset, out)
    else if !force && readable && Recorded(s, id, text) then ev == [] && out == Outcome(true, false)
    else LoadLog(ev, rules + ".tmp", rules, ruleset, out)
  }

  predicate RemoveLog(ev: seq<Event>, id: string, out: Outcome) {
    var teardown, rules := Teardown(Nftables.TableName(id)), RulesPath(id);
    || (ev == [Wrote(rules + ".remove", teardown, false)] && out == Outcome(false, false))
    || (&& |ev| > 2 && ev[0] == Wrote(rules + ".remove", teardown, true) && ev[1].Loading? && ev[1].s == teardown
        && ev[2].Deleted? && ev[2].path == rules + ".remove"
        && if !ev[1].r.Accepted? then |ev| == 3 && out == Outcome(false, false)
           else |ev| == 4 && ev[3].Deleted? && ev[3].path == rules && out == Outcome(true, true))
  }

  // ---------- what the logs promise ----------

  lemma ReplayTo(s: State, ev: seq<Event>, n: nat)
    requires n < |ev|
    ensures Replay(s, ev[..n + 1]) == Effect(Replay(s, ev[..n]), ev[n])
  {
    assert ev[..n + 1] == ev[..n] + [ev[n]];
    ReplayMore(s, ev[..n], ev[n]);
  }

  lemma ReplayThree(s: State, ev: seq<Event>)
    requires |ev| >= 3
    ensures Replay(s, ev[..3]) == Effect(Effect(Effect(s, ev[0]), ev[1]), ev[2])
  {
    ReplayTo(s, ev, 0);
    ReplayTo(s, ev, 1);
    ReplayTo(s, ev, 2);
  }

  lemma ReplayUpTo(s: State, ev: seq<Event>)
    requires 1 <= |ev| <= 5
    ensures |ev| == 1 ==> Replay(s, ev) == Effect(s, ev[0])
    ensures |ev| == 3 ==> Replay(s, ev) == Effect(Effect(Effect(s, ev[0]), ev[1]), ev[2])
    ensures |ev| == 4 ==> Replay(s, ev) == Effect(Effect(Effect(Effect(s, ev[0]), ev[1]), ev[2]), ev[3])
    ensures |ev| == 5 ==> Replay(s, ev) == Effect(Effect(Effect(Effect(Effect(s, ev[0]), ev[1]), ev[2]), ev[3]), ev[4])
  {
    assert ev[..|ev|] == ev;
    ReplayTo(s, ev, 0);
    if |ev| >= 3 {
      ReplayThree(s, ev);
    }
    if |ev| >= 4 {
      ReplayTo(s, ev, 3);
    }
    if |ev| == 5 {
      ReplayTo(s, ev, 4);
    }
  }

  predicate JustAccepted(ev: seq<Event>, i: nat)
    requires i < |ev| && ev[i].Loading?
  {
    i > 0 && ev[i - 1] == Checked(ev[i].s, Accepted)
  }

  /** A step failed that is not a mere clean-up. */
  predicate Failed(ev: seq<Event>) {
    exists i :: 0 <= i < |ev| && !ev[i].Deleted? && !Succeeded(ev[i])
  }

  /** Nothing is loaded that was not just checked and accepted; the answer is a failure exactly if a step
      failed; a success has loaded and persisted the ruleset. */
  lemma ApplyProgress(s: State, ev: seq<Event>, id: string, text: string, force: bool, readable: bool, out: Outcome)
    requires ApplyLog(s, ev, id, text, false, force, readable, out)
    ensures var ruleset := Ruleset(Nftables.TableName(id), text);
            && (forall i :: 0 <= i < |ev| && ev[i].Loading? ==> ev[i].s == ruleset && JustAccepted(ev, i))
            && (out.ok <==> !Failed(ev))
            && (out.changed <==> Loading(ruleset, Accepted) in ev && Wrote(RulesPath(id), ruleset, true) in ev)
  {
    PathsDiffer(id);
    if ev != [] {
      assert Succeeded(ev[0]) || Failed(ev);
      assert |ev| == 3 ==> Failed(ev) by { assert |ev| == 3 ==> !Succeeded(ev[1]); }
      assert |ev| == 4 ==> Failed(ev) by { assert |ev| == 4 ==> !Succeeded(ev[2]); }
      assert |ev| == 5 && !out.ok ==> Failed(ev) by { assert |ev| == 5 ==> Succeeded(ev[3]) == out.ok; }
    }
  }

  /** Nothing is given up without a failure: an apply that has something to do, and no step of which fails,
      loads and persists the ruleset and leaves no staged file. */
  lemma ApplyCompletes(s: State, ev: seq<Event>, id: string, text: string, force: bool, readable: bool, out: Outcome)
    requires ApplyLog(s, ev, id, text, false, force, readable, out) && AllWell(ev)
    requires force || !readable || !Recorded(s, id, text)
    ensures var s' := Replay(s, ev);
            && out == Outcome(true, true)
            && s'.tables == s.tables[Nftables.TableName(id) := text]
            && Recorded(s', id, text) && RulesPath(id) + ".tmp" !in s'.files
  {
    PathsDiffer(id);
    assert Succeeded(ev[0]);
    assert Succeeded(ev[1]) && Succeeded(ev[2]) && Succeeded(ev[3]) && Succeeded(ev[4]);
    ReplayUpTo(s, ev);
  }

  /** A dry run answers what the checker said of this ruleset, and loads nothing. */
  lemma DryRunAsks(s: State, ev: seq<Event>, id: string, text: string, force: bool, readable: bool, out: Outcome)
    requires ApplyLog(s, ev, id, text, true, force, readable, out)
    ensures var ruleset := Ruleset(Nftables.TableName(id), text);
            && (out.ok <==> Checked(ruleset, Accepted) in ev)
            && (AllWell(ev) ==> out == Outcome(true, true) && RulesPath(id) + ".check" !in Replay(s, ev).files)
    ensures Replay(s, ev).tables == s.tables
  {
    ReplayUpTo(s, ev);
    if AllWell(ev) {
      assert Succeeded(ev[0]) && Succeeded(ev[1]) && Succeeded(ev[2]);
    }
  }

  /** The same for a removal: no step failing, the table and its rules file are gone. */
  lemma RemovalCompletes(s: State, ev: seq<Event>, id: string, out: Outcome)
    requires RemoveLog(ev, id, out)
    ensures out.ok == out.changed && (out.ok <==> !Failed(ev))
    ensures var s' := Replay(s, ev);
            AllWell(ev) ==>
              && out.ok && s'.tables == s.tables - {Nftables.TableName(id)}
              && RulesPath(id) !in s'.files && RulesPath(id) + ".remove" !in s'.files
  {
    PathsDiffer(id);
    ReplayUpTo(s, ev);
    if AllWell(ev) {
      assert Succeeded(ev[0]);
      assert Succeeded(ev[1]) && Succeeded(ev[2]) && Succeeded(ev[3]);
    }
  }

  lemma DryRelates(s: State, ev: seq<Event>, check: string, ruleset: Script, out: Outcome)
    requires DryLog(ev, check, ruleset, out)
    ensures var s' := Replay(s, ev);
            && s'.tables == s.tables && SameBut(s'.files, s.files, check) && Loading(ruleset, Accepted) !in ev
            && (Deleted(check, true) in ev ==> check !in s'.files)
  {
    ReplayUpTo(s, ev);
  }

  /** A ruleset that was accepted and loaded. */
  lemma LoadedRelates(s: State, ev: seq<Event>, staging: string, rules: string, ruleset: Script)
    requires |ev| == 5 && staging != rules
    requires ev[0] == Wrote(staging, ruleset, true) && ev[1] == Checked(ruleset, Accepted)
    requires ev[2] == Loading(ruleset, Accepted) && ev[3].Wrote? && ev[3].path == rules && ev[3].s == ruleset
    requires ev[4].Deleted? && ev[4].path == staging
    ensures var s' := Replay(s, ev);
            && s'.tables == Loaded(s.tables, ruleset)
            && SameBut(s'.files, if ev[3].ok then s.files[rules := ruleset] else s.files, staging)
            && (ev[4].ok ==> staging !in s'.files)
  {
    ReplayUpTo(s, ev);
  }

  lemma LoadRelates(s: State, ev: seq<Event>, staging: string, rules: string, ruleset: Script, out: Outcome)
    requires LoadLog(ev, staging, rules, ruleset, out) && staging != rules
    ensures var how := HowOf(ev, Loading(ruleset, Accepted), Wrote(rules, ruleset, true), Deleted(staging, true));
            var s' := Replay(s, ev);
            && s'.tables == (if how.loaded then Loaded(s.tables, ruleset) else s.tables)
            && SameBut(s'.files, if how.loaded && how.followed then s.files[rules := ruleset] else s.files, staging)
            && (how.cleaned ==> staging !in s'.files)
            && out == Outcome(how.loaded && how.followed, how.loaded && how.followed)
  {
    if |ev| == 5 {
      LoadedRelates(s, ev, staging, rules, ruleset);
    } else {
      ReplayUpTo(s, ev);
    }
  }

  /** What a log does to files and tables. */
  lemma ApplyRelates(s: State, ev: seq<Event>, id: string, text: string, dryRun: bool, force: bool, readable: bool,
                     out: Outcome)
    requires ApplyLog(s, ev, id, text, dryRun, force, readable, out)
    ensures ApplyStep(s, Replay(s, ev), id, text, dryRun, force, readable, out, ApplyHow(ev, id, text, dryRun))
  {
    var ruleset, rules := Ruleset(Nftables.TableName(id), text), RulesPath(id);
    PathsDiffer(id);
    if dryRun {
      DryRelates(s, ev, rules + ".check", ruleset, out);
    } else if force || !readable || !Recorded(s, id, text) {
      LoadRelates(s, ev, rules + ".tmp", rules, ruleset, out);
    }
  }

  lemma RemoveRelates(s: State, ev: seq<Event>, id: string, out: Outcome)
    requires RemoveLog(ev, id, out)
    ensures RemoveStep(s, Replay(s, ev), id, out, RemoveHow(ev, id))
  {
    PathsDiffer(id);
    ReplayUpTo(s, ev);
  }

  /** Equal files everywhere but at p. */
  ghost predicate SameBut(f: Files, f': Files, p: string) {
    f - {p} == f' - {p}
  }

  /** The persisted file says that this ruleset is loaded. */
  predicate Recorded(s: State, id: string, text: string) {
    RulesPath(id) in s.files && s.files[RulesPath(id)] == Ruleset(Nftables.TableName(id), text)
  }

  ghost predicate ApplyStep(s: State, s': State, id: string, text: string, dryRun: bool, force: bool, readable: bool,
                            out: Outcome, how: How) {
    var table, rulesPath := Nftables.TableName(id), RulesPath(id);
    if dryRun then s'.tables == s.tables && SameBut(s'.files, s.files, rulesPath + ".check") && !how.loaded
      && (how.cleaned ==> rulesPath + ".check" !in s'.files)
    else if !force && readable && Recorded(s, id, text) then s' == s && out == Outcome(true, false) && !how.loaded
    else
      && s'.tables == (if how.loaded then s.tables[table := text] else s.tables)
      && SameBut(s'.files,
                 if how.loaded && how.followed then s.files[rulesPath := Ruleset(table, text)] else s.files,
                 rulesPath + ".tmp")
      && (how.cleaned ==> rulesPath + ".tmp" !in s'.files)
      && out == Outcome(how.loaded && how.followed, how.loaded && how.followed)
  }

  ghost predicate RemoveStep(s: State, s': State, id: string, out: Outcome, how: How) {
    var table, rulesPath := Nftables.TableName(id), RulesPath(id);
    && s'.tables == (if how.loaded then s.tables - {table} else s.tables)
    && SameBut(s'.files, if how.loaded && how.followed then s.files - {rulesPath} else s.files, rulesPath + ".remove")
    && (how.cleaned ==> rulesPath + ".remove" !in s'.files)
    && out == Outcome(how.loaded, how.loaded)
  }

  lemma PathsDiffer(id: string)
    ensures RulesPath(id) + ".check" != RulesPath(id)
    ensures RulesPath(id) + ".tmp" != RulesPath(id)
    ensures RulesPath(id) + ".remove" != RulesPath(id)
  {
    assert |RulesPath(id) + ".tmp"| > |RulesPath(id)|;
    assert |RulesPath(id) + ".check"| > |RulesPath(id)|;
    assert |RulesPath(id) + ".remove"| > |RulesPath(id)|;
  }

  /** No staged file is any target's rules file. */
  lemma StagingIsNoRules(id: string, other: string, suffix: string)
    requires suffix == ".tmp" || suffix == ".check" || suffix == ".remove"
    ensures RulesPath(id) + suffix != RulesPath(other)
  {
    var a, b := RulesPath(id) + suffix, RulesPath(other);
    assert a[|a| - 1] == suffix[|suffix| - 1] && b[|b| - 1] == 't';
  }

  // ---------- the file mirrors the kernel ----------

  /** The rules file is there exactly if the table is loaded, and it is the loaded ruleset. */
  predicate Mirrors(s: State, id: string) {
    var table, rulesPath := Nftables.TableName(id), RulesPath(id);
    && (rulesPath in s.files <==> table in s.tables)
    && (rulesPath in s.files ==> s.files[rulesPath] == Ruleset(table, s.tables[table]))
  }

  lemma AtOther(f: Files, f': Files, p: string, q: string)
    requires SameBut(f, f', p) && p != q
    ensures (q in f <==> q in f') && (q in f ==> f[q] == f'[q])
  {
    assert q in f <==> q in f - {p};
    assert q in f' <==> q in f' - {p};
    if q in f {
      assert (f - {p})[q] == (f' - {p})[q];
    }
  }

  /** From a truthful file, an apply leaves a truthful file exactly unless it loaded the ruleset, could not
      persist it, and the file did not say the same before. */
  lemma ApplyMirrorsExactly(s: State, s': State, id: string, text: string, dryRun: bool, force: bool, readable: bool,
                            out: Outcome, how: How)
    requires ApplyStep(s, s', id, text, dryRun, force, readable, out, how) && Mirrors(s, id)
    ensures Mirrors(s', id) <==> (how.loaded ==> how.followed || Recorded(s, id, text))
  {
    var rulesPath := RulesPath(id);
    PathsDiffer(id);
    if dryRun {
      AtOther(s'.files, s.files, rulesPath + ".check", rulesPath);
    } else if !(!force && readable && Recorded(s, id, text)) {
      var f := if how.loaded && how.followed then s.files[rulesPath := Ruleset(Nftables.TableName(id), text)]
          else s.files;
      AtOther(s'.files, f, rulesPath + ".tmp", rulesPath);
    }
  }

  /** From a truthful file, a removal leaves a truthful file exactly unless it tore the table down and could
      not delete a file that was there, an error that the code ignores. */
  lemma RemoveMirrorsExactly(s: State, s': State, id: string, out: Outcome, how: How)
    requires RemoveStep(s, s', id, out, how) && Mirrors(s, id)
    ensures Mirrors(s', id) <==> (how.loaded ==> how.followed || RulesPath(id) !in s.files)
  {
    var rulesPath := RulesPath(id);
    PathsDiffer(id);
    AtOther(s'.files, if how.loaded && how.followed then s.files - {rulesPath} else s.files,
            rulesPath + ".remove", rulesPath);
  }

  // ---------- runs over many targets ----------

  datatype Call =
    | DoApply(id: string, text: string, dryRun: bool, force: bool, readable: bool, out: Outcome, how: How)
    | DoRemove(id: string, out: Outcome, how: How)

  ghost predicate Step(s: State, c: Call, s': State) {
    match c
    case DoApply(id, text, dryRun, force, readable, out, how) =>
        ApplyStep(s, s', id, text, dryRun, force, readable, out, how)
    case DoRemove(id, out, how) => RemoveStep(s, s', id, out, how)
  }

  /** The states after each call. */
  ghost predicate Trace(s: State, calls: seq<Call>, states: seq<State>)
    decreases |calls|
  {
    |states| == |calls| && (calls != [] ==> Step(s, calls[0], states[0]) && Trace(states[0], calls[1..], states[1..]))
  }

  /** Whenever a script was loaded, the rules file followed. */
  predicate FilesFollow(calls: seq<Call>) {
    forall i :: 0 <= i < |calls| && calls[i].how.loaded ==> calls[i].how.followed
  }

  /** The ids in use give different tables. */
  predicate Separate(ids: set<string>) {
    forall a, b :: a in ids && b in ids && a != b ==> Nftables.TableName(a) != Nftables.TableName(b)
  }

  lemma OtherUntouched(s: State, c: Call, s': State, id: string)
    requires Step(s, c, s') && id != c.id && Nftables.TableName(id) != Nftables.TableName(c.id)
    requires Mirrors(s, id)
    ensures Mirrors(s', id)
  {
    OtherFileKept(s, c, s', id);
  }

  lemma StepMirrors(s: State, c: Call, s': State, id: string)
    requires Step(s, c, s') && Mirrors(s, id)
    requires c.how.loaded ==> c.how.followed
    requires id != c.id ==> Nftables.TableName(id) != Nftables.TableName(c.id)
    ensures Mirrors(s', id)
  {
    if c.id != id {
      OtherUntouched(s, c, s', id);
    } else if c.DoApply? {
      ApplyMirrorsExactly(s, s', id, c.text, c.dryRun, c.force, c.readable, c.out, c.how);
    } else {
      RemoveMirrorsExactly(s, s', id, c.out, c.how);
    }
  }

  /** Over any run of calls for separate targets, whatever nft answers, as long as the rules files follow
      the loads: every rules file mirrors the kernel, at every point. */
  lemma {:induction false} FileMirrorsKernel(s: State, calls: seq<Call>, states: seq<State>, ids: set<string>,
                                             id: string)
    requires Trace(s, calls, states) && FilesFollow(calls) && Separate(ids)
    requires id in ids && forall i :: 0 <= i < |calls| ==> calls[i].id in ids
    requires Mirrors(s, id)
    ensures forall k :: 0 <= k < |states| ==> Mirrors(states[k], id)
    decreases |calls|
  {
    if calls != [] {
      assert calls[0].id in ids;
      StepMirrors(s, calls[0], states[0], id);
      assert forall i :: 0 <= i < |calls| - 1 ==> calls[1..][i] == calls[i + 1];
      FileMirrorsKernel(states[0], calls[1..], states[1..], ids, id);
      forall k | 0 <= k < |states| ensures Mirrors(states[k], id) {
        if k > 0 {
          assert states[k] == states[1..][k - 1];
        }
      }
    }
  }

  /** Where the file is truthful, answering "up to date" is sound: the ruleset is loaded. */
  lemma NoOpIsSound(s: State, s': State, id: string, text: string, readable: bool, out: Outcome, how: How)
    requires ApplyStep(s, s', id, text, false, false, readable, out, how) && Mirrors(s, id)
             && out == Outcome(true, false)
    ensures Nftables.TableName(id) in s'.tables && s'.tables[Nftables.TableName(id)] == text && s' == s
  {
  }

  /** A file that survived a removal makes the next unforced apply answer "up to date" with no table loaded. */
  lemma StaleFileDeceives(s: State, s1: State, s2: State, id: string, text: string, out1: Outcome, out2: Outcome,
                          how1: How, how2: How)
    requires Mirrors(s, id) && Recorded(s, id, text)
    requires RemoveStep(s, s1, id, out1, how1) && how1.loaded && !how1.followed
    requires ApplyStep(s1, s2, id, text, false, false, true, out2, how2)
    ensures out1.ok && out2 == Outcome(true, false) && Nftables.TableName(id) !in s2.tables
  {
    PathsDiffer(id);
    AtOther(s1.files, s.files, RulesPath(id) + ".remove", RulesPath(id));
  }

  /** Different ids have different rules files, also where they share a table. */
  lemma RulesPathsDiffer(a: string, b: string)
    requires a != b
    ensures RulesPath(a) != RulesPath(b)
  {
    var p, q := RulesPath(a), RulesPath(b);
    assert p[|DIR|..|p| - 4] == a && q[|DIR|..|q| - 4] == b;
  }

  /** A call for one id leaves the rules file of every other id as it is. */
  lemma OtherFileKept(s: State, c: Call, s': State, id: string)
    requires Step(s, c, s') && id != c.id
    ensures RulesPath(id) in s'.files <==> RulesPath(id) in s.files
    ensures RulesPath(id) in s.files ==> s'.files[RulesPath(id)] == s.files[RulesPath(id)]
  {
    var rulesPath, mine := RulesPath(c.id), RulesPath(id);
    RulesPathsDiffer(id, c.id);
    StagingIsNoRules(c.id, id, ".tmp");
    StagingIsNoRules(c.id, id, ".check");
    StagingIsNoRules(c.id, id, ".remove");
    if c.DoRemove? {
      AtOther(s'.files, if c.how.loaded && c.how.followed then s.files - {rulesPath} else s.files,
              rulesPath + ".remove", mine);
    } else if c.dryRun {
      AtOther(s'.files, s.files, rulesPath + ".check", mine);
    } else if !(!c.force && c.readable && Recorded(s, c.id, c.text)) {
      var f := if c.how.loaded && c.how.followed then s.files[rulesPath := Ruleset(Nftables.TableName(c.id), c.text)]
          else s.files;
      AtOther(s'.files, f, rulesPath + ".tmp", mine);
    }
  }

  /** Two ids that share a table: removing one target leaves the other's present rules file truthful exactly
      if the table was not torn down. */
  lemma SharedRemovalExactly(s: State, s': State, a: string, b: string, out: Outcome, how: How)
    requires a != b && Nftables.TableName(a) == Nftables.TableName(b)
    requires Mirrors(s, a) && RulesPath(a) in s.files && RemoveStep(s, s', b, out, how)
    ensures Mirrors(s', a) <==> !how.loaded
  {
    OtherFileKept(s, DoRemove(b, out, how), s', a);
  }

  /** And applying one leaves the other's rules file truthful exactly unless a ruleset was loaded that the
      file does not record. */
  lemma SharedApplyExactly(s: State, s': State, a: string, b: string, text: string, dryRun: bool, force: bool,
                           readable: bool, out: Outcome, how: How)
    requires a != b && Nftables.TableName(a) == Nftables.TableName(b)
    requires Mirrors(s, a) && ApplyStep(s, s', b, text, dryRun, force, readable, out, how)
    ensures Mirrors(s', a) <==> !how.loaded || Recorded(s, a, text)
  {
    OtherFileKept(s, DoApply(b, text, dryRun, force, readable, out, how), s', a);
  }

  /** Two targets never disturb each other exactly if they do not share a table: if they do, some removal of
      one makes the other's rules file claim a table that is gone. */
  lemma SeparateExactly(a: string, b: string, text: string)
    requires a != b
    ensures Nftables.TableName(a) != Nftables.TableName(b)
            <==> forall s, s', out, how ::
                   Mirrors(s, a) && Recorded(s, a, text) && RemoveStep(s, s', b, out, how) ==> Mirrors(s', a)
  {
    if Nftables.TableName(a) != Nftables.TableName(b) {
      forall s, s', out, how | Mirrors(s, a) && Recorded(s, a, text) && RemoveStep(s, s', b, out, how)
          ensures Mirrors(s', a) {
        OtherUntouched(s, DoRemove(b, out, how), s', a);
      }
    } else {
      var table := Nftables.TableName(a);
      var s := State(map[RulesPath(a) := Ruleset(table, text)], map[table := text]);
      var s' := State(s.files - {RulesPath(b)}, s.tables - {table});
      var how := How(true, true, true);
      RulesPathsDiffer(a, b);
      PathsDiffer(b);
      StagingIsNoRules(b, a, ".remove");
      assert RemoveStep(s, s', b, Outcome(true, true), how);
      SharedRemovalExactly(s, s', a, b, Outcome(true, true), how);
    }
  }

  /** Two targets share a table exactly if a hyphen of the one is an underscore of the other, and they are
      otherwise equal. */
  lemma TablesSharedExactly(a: string, b: string)
    requires ValidId(a) && ValidId(b)
    ensures Nftables.TableName(a) == Nftables.TableName(b)
            <==> |a| == |b| && forall i :: 0 <= i < |a| ==> a[i] == b[i] || (a[i] in "-_" && b[i] in "-_")
  {
    var x, y := HAProxy.Sanitize(a), HAProxy.Sanitize(b);
    assert Nftables.TableName(a)[8..] == x && Nftables.TableName(b)[8..] == y;
    forall i | 0 <= i < |a| && |a| == |b| ensures x[i] == y[i] <==> a[i] == b[i] || (a[i] in "-_" && b[i] in "-_") {
      assert (IsIdChar(a[i]) || a[i] == '-') && (IsIdChar(b[i]) || b[i] == '-');
    }
  }

  /** For instance: ids that differ in a dash and an underscore. */
  lemma SharedTableDeceives(s: State, s': State, text: string, out: Outcome, how: How)
    requires Mirrors(s, "a-b") && Recorded(s, "a-b", text)
    requires RemoveStep(s, s', "a_b", out, how) && how.loaded
    ensures Recorded(s', "a-b", text) && !Mirrors(s', "a-b")
  {
    assert Nftables.TableName("a-b") == Nftables.TableName("a_b");
    assert "a-b"[1] != "a_b"[1];
    SharedRemovalExactly(s, s', "a-b", "a_b", out, how);
    OtherFileKept(s, DoRemove("a_b", out, how), s', "a-b");
  }
}
