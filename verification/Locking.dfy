/** The two-level lock: a gate per process, then a lock on a file, taken by any number of threads. */
module Locking {
  import opened Text

  /** Who asks: Guard takes the gate only; GuardConfig and the applier take the file lock as well. */
  datatype Kind = Guard | GuardConfig(unsafe: bool) | Apply(dryRun: bool, unsafe: bool)

  /** A request for the lock, with the state directory that holds the lock file, if one is configured. */
  datatype Request = Request(kind: Kind, dir: Option<string>)

  /** Where a thread is: outside, waiting for the gate, past it, doing its work, or about to give the gate back. */
  datatype Phase =
    | Idle
    | Waiting(r: Request)
    | Gated(r: Request)
    | Working(r: Request, locked: bool)
    | Leaving(r: Request)

  /** Threads are numbered. The owner of each gate and of each lock file, if any. */
  datatype State = State(phases: seq<Phase>, gates: map<nat, nat>, files: map<string, nat>)

  /** May go on without the file lock. */
  predicate Tolerant(k: Kind) {
    match k
    case Guard => true
    case GuardConfig(unsafe) => unsafe
    case Apply(dryRun, unsafe) => dryRun || unsafe
  }

  // ---------- the steps ----------

  datatype Action = Ask(r: Request) | TakeGate | TakeFile | FileUnavailable | Finish | GiveBack

  /** Thread t of process p can do this now. Flock blocks while another thread owns the file; opening or
      locking the file may also fail at any time, and does without a directory. */
  predicate Enabled(s: State, t: nat, p: nat, a: Action)
    requires t < |s.phases|
  {
    var ph := s.phases[t];
    match a
    case Ask(_) => ph.Idle?
    case TakeGate => ph.Waiting? && p !in s.gates
    case TakeFile => ph.Gated? && ph.r.dir.Some? && ph.r.dir.value !in s.files
    case FileUnavailable => ph.Gated?
    case Finish => ph.Working?
    case GiveBack => ph.Leaving?
  }

  function Do(s: State, t: nat, p: nat, a: Action): (s': State)
    requires t < |s.phases| && Enabled(s, t, p, a)
  {
    var ph := s.phases[t];
    match a
    case Ask(r) => s.(phases := s.phases[t := Waiting(r)])
    case TakeGate => s.(phases := s.phases[t := if ph.r.kind.Guard? then Working(ph.r, false) else Gated(ph.r)],
                        gates := s.gates[p := t])
    case TakeFile => s.(phases := s.phases[t := Working(ph.r, true)], files := s.files[ph.r.dir.value := t])
    case FileUnavailable =>
        s.(phases := s.phases[t := if Tolerant(ph.r.kind) then Working(ph.r, false) else Leaving(ph.r)])
    case Finish =>
      s.(phases := s.phases[t := Leaving(ph.r)],
         files := if ph.locked && ph.r.dir.Some? then s.files - {ph.r.dir.value} else s.files)
    case GiveBack => s.(phases := s.phases[t := Idle], gates := s.gates - {p})
  }

  /** A step of some thread; procs says which process each thread belongs to. */
  datatype Step = Step(t: nat, a: Action)

  predicate Can(s: State, procs: seq<nat>, x: Step) {
    x.t < |s.phases| && |procs| == |s.phases| && Enabled(s, x.t, procs[x.t], x.a)
  }

  function After(s: State, procs: seq<nat>, x: Step): (s': State)
    requires Can(s, procs, x)
  {
    Do(s, x.t, procs[x.t], x.a)
  }

  /** Runs of the system. */
  predicate Run(s: State, procs: seq<nat>, xs: seq<Step>)
    decreases |xs|
  {
    xs == [] || (Can(s, procs, xs[0]) && Run(After(s, procs, xs[0]), procs, xs[1..]))
  }

  function End(s: State, procs: seq<nat>, xs: seq<Step>): (s': State)
    requires Run(s, procs, xs)
    decreases |xs|
  {
    if xs == [] then s else End(After(s, procs, xs[0]), procs, xs[1..])
  }

  // ---------- what every step keeps ----------

  predicate HasGate(ph: Phase) {
    ph.Gated? || ph.Working? || ph.Leaving?
  }

  predicate HasFile(ph: Phase) {
    ph.Working? && ph.locked
  }

  predicate GatesRight(s: State, procs: seq<nat>)
    requires |procs| == |s.phases|
  {
    && (forall t :: 0 <= t < |s.phases| && HasGate(s.phases[t]) ==> procs[t] in s.gates && s.gates[procs[t]] == t)
    && (forall p :: p in s.gates ==> s.gates[p] < |s.phases| && procs[s.gates[p]] == p && HasGate(s.phases[s.gates[p]]))
  }

  predicate FilesRight(s: State) {
    && (forall t :: 0 <= t < |s.phases| && HasFile(s.phases[t]) ==>
          s.phases[t].r.dir.Some? && s.phases[t].r.dir.value in s.files && s.files[s.phases[t].r.dir.value] == t)
    && (forall d :: d in s.files ==>
          && s.files[d] < |s.phases| && HasFile(s.phases[s.files[d]])
          && s.phases[s.files[d]].r.dir == Some(d))
  }

  /** Only a request that may do without works without the file lock; a Guard never gets past the gate to the file. */
  predicate PhaseRight(ph: Phase) {
    && (ph.Working? && !ph.locked ==> Tolerant(ph.r.kind))
    && (ph.Working? && ph.locked ==> !ph.r.kind.Guard?)
    && (ph.Gated? ==> !ph.r.kind.Guard?)
  }

  predicate Inv(s: State, procs: seq<nat>) {
    && |procs| == |s.phases| && GatesRight(s, procs) && FilesRight(s)
    && forall t :: 0 <= t < |s.phases| ==> PhaseRight(s.phases[t])
  }

  lemma StepKeepsGates(s: State, procs: seq<nat>, x: Step)
    requires Inv(s, procs) && Can(s, procs, x)
    ensures GatesRight(After(s, procs, x), procs)
  {
  }

  lemma StepKeepsFiles(s: State, procs: seq<nat>, x: Step)
    requires Inv(s, procs) && Can(s, procs, x)
    ensures FilesRight(After(s, procs, x))
  {
    match x.a {
      case TakeFile =>
      case Finish =>
      case _ => SameFiles(s, x.t, After(s, procs, x));
    }
  }

  lemma SameFiles(s: State, t: nat, s': State)
    requires FilesRight(s) && t < |s.phases| && s'.files == s.files
    requires |s'.phases| == |s.phases| && s'.phases == s.phases[t := s'.phases[t]]
    requires !HasFile(s.phases[t]) && !HasFile(s'.phases[t])
    ensures FilesRight(s')
  {
  }

  lemma StepKeepsInv(s: State, procs: seq<nat>, x: Step)
    requires Inv(s, procs) && Can(s, procs, x)
    ensures Inv(After(s, procs, x), procs)
  {
    StepKeepsGates(s, procs, x);
    StepKeepsFiles(s, procs, x);
  }

  /** Nobody has asked for anything. */
  predicate Initial(s: State) {
    s.gates == map[] && s.files == map[] && forall t :: 0 <= t < |s.phases| ==> s.phases[t].Idle?
  }

  lemma {:induction false} RunKeepsInv(s: State, procs: seq<nat>, xs: seq<Step>)
    requires Inv(s, procs) && Run(s, procs, xs)
    ensures Inv(End(s, procs, xs), procs)
    decreases |xs|
  {
    if xs != [] {
      StepKeepsInv(s, procs, xs[0]);
      RunKeepsInv(After(s, procs, xs[0]), procs, xs[1..]);
    }
  }

  // ---------- exclusion ----------

  /** Within a process, at most one thread is past the gate, whatever it asked for. */
  lemma ProcessExclusion(s: State, procs: seq<nat>, xs: seq<Step>, t: nat, u: nat)
    requires Initial(s) && |procs| == |s.phases| && Run(s, procs, xs)
    requires var e := End(s, procs, xs);
             t < |e.phases| && u < |e.phases| && t < |procs| && u < |procs| && procs[t] == procs[u]
                 && HasGate(e.phases[t]) && HasGate(e.phases[u])
    ensures t == u
  {
    RunKeepsInv(s, procs, xs);
  }

  /** When the file lock cannot be had, exactly these requests go on: a plain Guard, a change of configuration
      or an apply with lock_unsafe, and a dry run; the others give the gate back. */
  lemma GoesOnWithout(s: State, procs: seq<nat>, x: Step)
    requires Can(s, procs, x) && x.a.FileUnavailable?
    ensures var k, ph := s.phases[x.t].r.kind, After(s, procs, x).phases[x.t];
            && (ph.Working? || ph.Leaving?)
            && (ph.Working? <==> k == Guard || k == GuardConfig(true)
                                 || k == Apply(true, false) || k == Apply(false, true) || k == Apply(true, true))
  {
  }

  /** These are the others. */
  lemma StrictKinds(k: Kind)
    ensures !Tolerant(k) <==> k == GuardConfig(false) || k == Apply(false, false)
  {
  }

  /** Host-wide, among changes of configuration without lock_unsafe and applies that are neither dry runs nor
      lock_unsafe, for one state directory, at most one is at work, in whatever processes they are. */
  lemma HostExclusion(s: State, procs: seq<nat>, xs: seq<Step>, t: nat, u: nat)
    requires Initial(s) && |procs| == |s.phases| && Run(s, procs, xs)
    requires var e := End(s, procs, xs);
             && t < |e.phases| && u < |e.phases| && e.phases[t].Working? && e.phases[u].Working?
             && (e.phases[t].r.kind == GuardConfig(false) || e.phases[t].r.kind == Apply(false, false))
             && (e.phases[u].r.kind == GuardConfig(false) || e.phases[u].r.kind == Apply(false, false))
             && e.phases[t].r.dir == e.phases[u].r.dir
    ensures t == u
  {
    RunKeepsInv(s, procs, xs);
    var e := End(s, procs, xs);
    StrictKinds(e.phases[t].r.kind);
    StrictKinds(e.phases[u].r.kind);
    assert PhaseRight(e.phases[t]) && PhaseRight(e.phases[u]);
    assert HasFile(e.phases[t]) && HasFile(e.phases[u]);
  }

  /** Such a request never works without the file lock: without a state directory it never works at all. */
  lemma FailsClosed(s: State, procs: seq<nat>, xs: seq<Step>, t: nat)
    requires Initial(s) && |procs| == |s.phases| && Run(s, procs, xs)
    requires var e := End(s, procs, xs);
             && t < |e.phases| && e.phases[t].Working?
             && (e.phases[t].r.kind == GuardConfig(false) || e.phases[t].r.kind == Apply(false, false))
    ensures var e := End(s, procs, xs);
            e.phases[t].r.dir.Some? && e.phases[t].r.dir.value in e.files && e.files[e.phases[t].r.dir.value] == t
  {
    RunKeepsInv(s, procs, xs);
    var e := End(s, procs, xs);
    StrictKinds(e.phases[t].r.kind);
    assert PhaseRight(e.phases[t]) && HasFile(e.phases[t]);
  }

  /** A thread that is outside, by success or by refusal, owns neither a gate nor a file. */
  lemma OutsideOwnsNothing(s: State, procs: seq<nat>, xs: seq<Step>, t: nat)
    requires Initial(s) && |procs| == |s.phases| && Run(s, procs, xs)
    requires t < |End(s, procs, xs).phases| && End(s, procs, xs).phases[t].Idle?
    ensures t !in End(s, procs, xs).gates.Values && t !in End(s, procs, xs).files.Values
  {
    RunKeepsInv(s, procs, xs);
  }

  // ---------- progress ----------

  /** No thread can move, but to ask for something new. */
  ghost predicate Stuck(s: State, procs: seq<nat>) {
    forall x :: Can(s, procs, x) ==> x.a.Ask?
  }

  /** The file lock itself causes no deadlock: a thread that waits for a file waits for one that is at work
      and can finish; otherwise it can take the file now. */
  lemma FileWaitEnds(s: State, procs: seq<nat>, t: nat)
    requires Inv(s, procs) && t < |s.phases| && s.phases[t].Gated? && s.phases[t].r.dir.Some?
    ensures var d := s.phases[t].r.dir.value;
            if d in s.files then s.files[d] != t && Can(s, procs, Step(s.files[d], Finish))
            else Can(s, procs, Step(t, TakeFile))
  {
  }

  /** No deadlock: while some thread is not outside, some thread can move, and not by a file lock failing
      that could have been taken. */
  lemma NoDeadlock(s: State, procs: seq<nat>, t: nat) returns (x: Step)
    requires Inv(s, procs) && t < |s.phases| && !s.phases[t].Idle?
    ensures Can(s, procs, x) && !x.a.Ask?
    ensures x.a.FileUnavailable? ==> s.phases[x.t].r.dir.None?
  {
    if u: nat :| u < |s.phases| && s.phases[u].Leaving? {
      x := Step(u, GiveBack);
    } else if u: nat :| u < |s.phases| && s.phases[u].Gated? {
      if s.phases[u].r.dir.None? {
        x := Step(u, FileUnavailable);
      } else {
        FileWaitEnds(s, procs, u);
        var d := s.phases[u].r.dir.value;
        x := if d in s.files then Step(s.files[d], Finish) else Step(u, TakeFile);
      }
    } else if u: nat :| u < |s.phases| && s.phases[u].Working? {
      x := Step(u, Finish);
    } else {
      x := Step(t, TakeGate);
    }
  }

  /** How many steps a thread is from being outside, at most. */
  function Rank(ph: Phase): (n: nat) {
    match ph
    case Idle => 0
    case Waiting(_) => 4
    case Gated(_) => 3
    case Working(_, _) => 2
    case Leaving(_) => 1
  }

  function Ranks(phases: seq<Phase>): (n: nat) {
    if phases == [] then 0 else Rank(phases[0]) + Ranks(phases[1..])
  }

  lemma {:induction false} RanksUpdate(phases: seq<Phase>, t: nat, ph: Phase)
    requires t < |phases|
    ensures Ranks(phases[t := ph]) + Rank(phases[t]) == Ranks(phases) + Rank(ph)
  {
    if t > 0 {
      RanksUpdate(phases[1..], t - 1, ph);
      assert phases[t := ph][1..] == phases[1..][t - 1 := ph];
    } else {
      assert phases[0 := ph][1..] == phases[1..];
    }
  }

  lemma StepDescends(s: State, procs: seq<nat>, x: Step)
    requires Can(s, procs, x) && !x.a.Ask?
    ensures Ranks(After(s, procs, x).phases) < Ranks(s.phases)
  {
    RanksUpdate(s.phases, x.t, After(s, procs, x).phases[x.t]);
  }

  /** Without new requests every run comes to its end, after at most four steps for each thread. */
  lemma {:induction false} RunsEnd(s: State, procs: seq<nat>, xs: seq<Step>)
    requires Run(s, procs, xs) && forall i :: 0 <= i < |xs| ==> !xs[i].a.Ask?
    ensures |xs| <= Ranks(s.phases)
    decreases |xs|
  {
    if xs != [] {
      StepDescends(s, procs, xs[0]);
      assert forall i :: 0 <= i < |xs| - 1 ==> xs[1..][i] == xs[i + 1];
      RunsEnd(After(s, procs, xs[0]), procs, xs[1..]);
    }
  }

  /** And where it ends, everybody is outside and every gate and file is free. */
  lemma EndsFree(s: State, procs: seq<nat>, xs: seq<Step>)
    requires Initial(s) && |procs| == |s.phases| && Run(s, procs, xs) && Stuck(End(s, procs, xs), procs)
    ensures var e := End(s, procs, xs);
            e.gates == map[] && e.files == map[] && forall t :: 0 <= t < |e.phases| ==> e.phases[t].Idle?
  {
    RunKeepsInv(s, procs, xs);
    var e := End(s, procs, xs);
    forall t | 0 <= t < |e.phases| ensures e.phases[t].Idle? {
      if !e.phases[t].Idle? {
        var x := NoDeadlock(e, procs, t);
      }
    }
    assert e.gates.Keys == {};
    assert e.files.Keys == {};
  }
}
