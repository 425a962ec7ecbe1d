/** Savers of one process, interleaved step by step with each other and with the
    poller (internal/config/store.go, internal/watcher/watcher.go). */
module Savers {
  import opened Text
  import opened Config
  import opened Validation
  import opened Store

  type Pid = int

  /** One call of Save: its mutation, its clock and its actor. */
  datatype Attempt = Attempt(mutate: File -> Option<File>, now: Time, actor: string)

  ghost function Outcome(a: Attempt, base: File): Option<File> {
    SaveOn(base, a.mutate, a.now, a.actor)
  }

  datatype Phase =
    | Idle
    | Locked(a: Attempt)
    | Drafted(c: Commit, f: File)
    | Written(c: Commit, f: File)
    | Renamed(f: File)
    | Published

  /** An attempt and the file it found in memory. */
  datatype Commit = Commit(a: Attempt, base: File)

  /** The one poller: it reads the file, later compares hashes, later publishes. */
  datatype Poller = Resting | HasRead(text: string) | Decided(text: string)

  /** `files` lists what the disk has held: the loaded file, then the result of
      each rename; `commits` the attempts behind them. */
  datatype System = System(
    lock: Option<Pid>,
    phases: map<Pid, Phase>,
    disk: string,
    tmp: Option<string>,
    current: File,
    hash: string,
    poller: Poller,
    commits: seq<Commit>,
    files: seq<File>)

  datatype Step =
    | Begin(p: Pid, a: Attempt)
    | Draft(p: Pid)
    | WriteTmp(p: Pid)
    | Rename(p: Pid)
    | Publish(p: Pid)
    | Unlock(p: Pid)
    | Abort(p: Pid, leftover: Option<string>)
    | PollRead
    | PollCompare
    | PollPublish

  predicate IsPoll(step: Step) {
    step.PollRead? || step.PollCompare? || step.PollPublish?
  }

  ghost function PhaseOf(s: System, p: Pid): Phase {
    if p in s.phases then s.phases[p] else Idle
  }

  ghost function Goto(s: System, p: Pid, ph: Phase): System {
    s.(phases := s.phases[p := ph])
  }

  ghost function Release(s: System, p: Pid): System {
    s.(lock := None, phases := s.phases[p := Idle])
  }

  ghost function DoPoll(w: World, s: System, step: Step): System
    requires IsPoll(step)
  {
    match step
    case PollRead => if s.poller.Resting? then s.(poller := HasRead(s.disk)) else s
    case PollCompare =>
      if s.poller.HasRead?
      then s.(poller := if w.hash(s.poller.text) == s.hash then Resting else Decided(s.poller.text)) else s
    case PollPublish =>
      if s.poller.Decided? then
        var r := Read(w, s.poller.text);
        if r.Some? then s.(current := r.value, hash := w.hash(s.poller.text), poller := Resting)
        else s.(poller := Resting)
      else s
  }

  /** One step; a step that is not enabled does nothing. */
  ghost function Do(w: World, s: System, step: Step): System {
    match step
    case Begin(p, a) =>
      if PhaseOf(s, p).Idle? && s.lock.None? then Goto(s.(lock := Some(p)), p, Locked(a)) else s
    case Draft(p) =>
      if PhaseOf(s, p).Locked? then
        var a := PhaseOf(s, p).a;
        var r := Outcome(a, s.current);
        if r.Some? then Goto(s, p, Drafted(Commit(a, s.current), r.value)) else Release(s, p)
      else s
    case WriteTmp(p) =>
      if PhaseOf(s, p).Drafted? then
        var ph := PhaseOf(s, p);
        Goto(s.(tmp := Some(w.render(ph.f))), p, Written(ph.c, ph.f))
      else s
    case Rename(p) =>
      if PhaseOf(s, p).Written? && s.tmp.Some? then
        var ph := PhaseOf(s, p);
        Goto(s.(disk := s.tmp.value, tmp := None, commits := s.commits + [ph.c], files := s.files + [ph.f]),
             p, Renamed(ph.f))
      else s
    case Publish(p) =>
      if PhaseOf(s, p).Renamed? then
        var f := PhaseOf(s, p).f;
        Goto(s.(current := f, hash := w.hash(w.render(f))), p, Published)
      else s
    case Unlock(p) =>
      if PhaseOf(s, p).Published? then Release(s, p) else s
    case Abort(p, leftover) =>
      var ph := PhaseOf(s, p);
      if ph.Locked? || ph.Drafted? || ph.Written? then Release(s.(tmp := leftover), p) else s
    case _ => DoPoll(w, s, step)
  }

  ghost function Run(w: World, s: System, steps: seq<Step>): System {
    if steps == [] then s else Do(w, Run(w, s, steps[..|steps| - 1]), steps[|steps| - 1])
  }

  /** A store that has just loaded a readable text. */
  ghost predicate Init(w: World, s: System) {
    s.lock.None? && s.phases == map[] && s.commits == [] && s.files == [s.current] && s.poller.Resting?
    && Read(w, s.disk) == Some(s.current) && s.hash == w.hash(s.disk)
  }

  ghost function Last(s: System): File
    requires s.files != []
  {
    s.files[|s.files| - 1]
  }

  ghost function HolderPhase(s: System): Phase {
    if s.lock.None? then Idle else PhaseOf(s, s.lock.value)
  }

  // ----- what holds whatever the poller does

  /** Only the lock holder is at work. */
  ghost predicate Exclusive(s: System) {
    forall p :: !PhaseOf(s, p).Idle? <==> s.lock == Some(p)
  }

  /** The disk holds the text of the last commit, each commit is the outcome of its
      attempt on the file it found, and the temporary file is the holder's. */
  ghost predicate OnDisk(w: World, s: System) {
    |s.files| == |s.commits| + 1
    && (forall i :: 0 <= i < |s.commits| ==> Outcome(s.commits[i].a, s.commits[i].base) == Some(s.files[i + 1]))
    && (s.commits != [] ==> s.disk == w.render(Last(s)))
    && match HolderPhase(s)
       case Drafted(c, f) => Outcome(c.a, c.base) == Some(f)
       case Written(c, f) => Outcome(c.a, c.base) == Some(f) && s.tmp == Some(w.render(f))
       case Renamed(f) => f == Last(s) && s.disk == w.render(f)
       case _ => true
  }

  /** Everything on disk, published or read by the poller passed validation. */
  ghost predicate Sound(w: World, s: System) {
    (forall i :: 0 <= i < |s.files| ==> Good(s.files[i])) && Good(s.current) && Read(w, s.disk).Some?
    && (!s.poller.Resting? ==> Read(w, s.poller.text).Some?)
  }

  lemma StepExclusive(w: World, s: System, step: Step)
    requires Exclusive(s)
    ensures Exclusive(Do(w, s, step))
  {
    var s' := Do(w, s, step);
    if IsPoll(step) {
      assert s'.phases == s.phases && s'.lock == s.lock;
      assert forall q :: PhaseOf(s', q) == PhaseOf(s, q);
    } else {
      assert forall q :: q != step.p ==> PhaseOf(s', q) == PhaseOf(s, q);
    }
  }

  lemma StepOnDisk(w: World, s: System, step: Step)
    requires Exclusive(s) && OnDisk(w, s)
    ensures OnDisk(w, Do(w, s, step))
  {
    var s' := Do(w, s, step);
    if IsPoll(step) {
      assert HolderPhase(s') == HolderPhase(s);
    } else if step.Rename? && PhaseOf(s, step.p).Written? && s.tmp.Some? {
      assert s.lock == Some(step.p);
      forall i | 0 <= i < |s'.commits|
        ensures Outcome(s'.commits[i].a, s'.commits[i].base) == Some(s'.files[i + 1])
      {
        if i < |s.commits| {
          assert s'.commits[i] == s.commits[i] && s'.files[i + 1] == s.files[i + 1];
        }
      }
    }
  }

  lemma OutcomeIsGood(a: Attempt, base: File)
    ensures Outcome(a, base).Some? ==> Good(Outcome(a, base).value)
  {
    var d := a.mutate(CloneOf(base));
    if d.Some? {
      FinishIsGood(d.value, a.now, a.actor);
    }
  }

  lemma RenameSound(w: World, s: System, p: Pid)
    requires Lawful(w) && OnDisk(w, s) && Sound(w, s)
    requires PhaseOf(s, p).Written? && s.tmp.Some? && s.lock == Some(p)
    ensures Sound(w, Do(w, s, Rename(p)))
  {
    var c, f := PhaseOf(s, p).c, PhaseOf(s, p).f;
    OutcomeIsGood(c.a, c.base);
    PrintedIsReadable(w, f);
    var s' := Do(w, s, Rename(p));
    assert s'.files == s.files + [f] && s'.disk == w.render(f) && s'.current == s.current;
  }

  lemma PublishSound(w: World, s: System, p: Pid)
    requires OnDisk(w, s) && Sound(w, s) && PhaseOf(s, p).Renamed? && s.lock == Some(p)
    ensures Sound(w, Do(w, s, Publish(p)))
  {
    var s' := Do(w, s, Publish(p));
    assert s'.files == s.files && s'.disk == s.disk && s'.current == Last(s);
  }

  lemma PollSound(w: World, s: System, step: Step)
    requires Sound(w, s) && IsPoll(step)
    ensures Sound(w, Do(w, s, step))
  {
    var s' := Do(w, s, step);
    if s.poller.Decided? {
      ReadIsGood(w, s.poller.text);
    }
    assert s'.files == s.files && s'.disk == s.disk;
  }

  lemma StepSound(w: World, s: System, step: Step)
    requires Lawful(w) && Exclusive(s) && OnDisk(w, s) && Sound(w, s)
    ensures Sound(w, Do(w, s, step))
  {
    if step.Rename? && PhaseOf(s, step.p).Written? && s.tmp.Some? {
      assert s.lock == Some(step.p);
      RenameSound(w, s, step.p);
    } else if step.Publish? && PhaseOf(s, step.p).Renamed? {
      assert s.lock == Some(step.p);
      PublishSound(w, s, step.p);
    } else if IsPoll(step) {
      PollSound(w, s, step);
    } else {
      var s' := Do(w, s, step);
      assert s'.files == s.files && s'.disk == s.disk && s'.current == s.current && s'.poller == s.poller;
    }
  }

  /** In every interleaving of savers and poller steps: one lock holder at a time, the
      disk readable and holding the last commit's text, everything published
      accepted. */
  lemma {:induction false} InterleavingsSafe(w: World, s: System, steps: seq<Step>)
    requires Lawful(w) && Init(w, s)
    ensures var e := Run(w, s, steps); Exclusive(e) && OnDisk(w, e) && Sound(w, e)
  {
    if steps == [] {
      ReadIsGood(w, s.disk);
    } else {
      InterleavingsSafe(w, s, steps[..|steps| - 1]);
      var before := Run(w, s, steps[..|steps| - 1]);
      StepExclusive(w, before, steps[|steps| - 1]);
      StepOnDisk(w, before, steps[|steps| - 1]);
      StepSound(w, before, steps[|steps| - 1]);
    }
  }

  // ----- what a late poll can spoil

  /** Memory shows a file: as saved, or as reading it back with the environment's
      peer settings filled in gives it. */
  ghost predicate Shows(w: World, f: File, shown: File) {
    shown == f || Read(w, w.render(f)) == Some(shown)
  }

  /** Every commit found its predecessor in memory, so does the save in progress, and
      except between rename and publish memory shows the last commit. */
  ghost predicate InStep(w: World, s: System) {
    |s.files| == |s.commits| + 1
    && (forall i :: 0 <= i < |s.commits| ==> Shows(w, s.files[i], s.commits[i].base))
    && var ph := HolderPhase(s);
       (ph.Drafted? || ph.Written? ==> Shows(w, Last(s), ph.c.base))
       && (!ph.Renamed? ==> Shows(w, Last(s), s.current) && s.hash == w.hash(s.disk))
  }

  /** The poller is about to publish a text that is not on disk any more, while no
      saver is between its rename and its own publish. */
  ghost predicate StalePoll(s: System) {
    s.poller.Decided? && s.poller.text != s.disk && !HolderPhase(s).Renamed?
  }

  /** No poll publishes a text that a rename has replaced since it was read. */
  ghost predicate NoStalePoll(w: World, s: System, steps: seq<Step>) {
    forall n :: 0 <= n < |steps| && steps[n].PollPublish? ==> !StalePoll(Run(w, s, steps[..n]))
  }

  lemma RenameInStep(w: World, s: System, p: Pid)
    requires InStep(w, s) && s.lock == Some(p) && PhaseOf(s, p).Written? && s.tmp.Some?
    ensures InStep(w, Do(w, s, Rename(p)))
  {
    var s' := Do(w, s, Rename(p));
    forall i | 0 <= i < |s'.commits| ensures Shows(w, s'.files[i], s'.commits[i].base) {
      if i < |s.commits| {
        assert s'.files[i] == s.files[i] && s'.commits[i] == s.commits[i];
      }
    }
  }

  lemma PollInStep(w: World, s: System, step: Step)
    requires OnDisk(w, s) && InStep(w, s) && IsPoll(step) && (step.PollPublish? ==> !StalePoll(s))
    requires s.commits == [] ==> Read(w, s.disk) == Some(Last(s))
    ensures InStep(w, Do(w, s, step))
  {
    var s' := Do(w, s, step);
    assert HolderPhase(s') == HolderPhase(s) && s'.files == s.files && s'.commits == s.commits && s'.disk == s.disk;
  }

  lemma StepInStep(w: World, s: System, step: Step)
    requires Exclusive(s) && OnDisk(w, s) && InStep(w, s) && (step.PollPublish? ==> !StalePoll(s))
    requires s.commits == [] ==> Read(w, s.disk) == Some(Last(s))
    ensures InStep(w, Do(w, s, step))
  {
    if IsPoll(step) {
      PollInStep(w, s, step);
    } else if step.Rename? && PhaseOf(s, step.p).Written? && s.tmp.Some? {
      RenameInStep(w, s, step.p);
    } else {
      var s' := Do(w, s, step);
      assert s'.files == s.files && s'.commits == s.commits && s'.disk == s.disk;
    }
  }

  /** Until the first commit the disk holds what was loaded. */
  lemma OnlyRenamesCommit(w: World, s: System, step: Step)
    ensures var s' := Do(w, s, step);
            || (s'.files == s.files && s'.commits == s.commits && s'.disk == s.disk)
            || (s'.commits != [] && |s'.files| == |s.files| + 1 && s'.files[..|s.files|] == s.files)
  {
  }

  lemma {:induction false} UncommittedDisk(w: World, s: System, steps: seq<Step>)
    requires Init(w, s)
    ensures var e := Run(w, s, steps);
            |e.files| > 0 && e.files[0] == s.current
            && (e.commits == [] ==> e.disk == s.disk && e.files == s.files)
  {
    if steps != [] {
      UncommittedDisk(w, s, steps[..|steps| - 1]);
      OnlyRenamesCommit(w, Run(w, s, steps[..|steps| - 1]), steps[|steps| - 1]);
    }
  }

  /** The stale publish itself breaks step at once. */
  lemma StalePollBreaks(w: World, s: System)
    requires Lawful(w) && StalePoll(s) && Read(w, s.poller.text).Some?
    ensures !InStep(w, Do(w, s, PollPublish))
  {
    var s' := Do(w, s, PollPublish);
    assert HolderPhase(s') == HolderPhase(s) && s'.disk == s.disk && s'.hash == w.hash(s.poller.text);
  }

  lemma RunPrefix(w: World, s: System, steps: seq<Step>, n: nat)
    requires n < |steps|
    ensures Run(w, s, steps[..n + 1]) == Do(w, Run(w, s, steps[..n]), steps[n])
  {
    assert steps[..n + 1][..n] == steps[..n];
  }

  lemma {:induction false} FreshPollsStayInStep(w: World, s: System, steps: seq<Step>)
    requires Lawful(w) && Init(w, s) && NoStalePoll(w, s, steps)
    ensures InStep(w, Run(w, s, steps))
  {
    if steps != [] {
      var n := |steps| - 1;
      assert NoStalePoll(w, s, steps[..n]) by {
        forall m | 0 <= m < n && steps[..n][m].PollPublish? ensures !StalePoll(Run(w, s, steps[..n][..m])) {
          assert steps[..n][..m] == steps[..m];
        }
      }
      FreshPollsStayInStep(w, s, steps[..n]);
      InterleavingsSafe(w, s, steps[..n]);
      UncommittedDisk(w, s, steps[..n]);
      StepInStep(w, Run(w, s, steps[..n]), steps[n]);
    }
  }

  /** The exact condition: memory stays in step with the disk at every moment of a run
      if and only if no poll publishes a text that was renamed away after the poll
      read it (save while a saver is about to publish anyway). */
  lemma InStepIffNoStalePoll(w: World, s: System, steps: seq<Step>)
    requires Lawful(w) && Init(w, s)
    ensures (forall n :: 0 <= n <= |steps| ==> InStep(w, Run(w, s, steps[..n]))) <==> NoStalePoll(w, s, steps)
  {
    if NoStalePoll(w, s, steps) {
      forall n | 0 <= n <= |steps| ensures InStep(w, Run(w, s, steps[..n])) {
        forall m | 0 <= m < n && steps[..n][m].PollPublish? ensures !StalePoll(Run(w, s, steps[..n][..m])) {
          assert steps[..n][..m] == steps[..m];
        }
        FreshPollsStayInStep(w, s, steps[..n]);
      }
    } else {
      var n :| 0 <= n < |steps| && steps[n].PollPublish? && StalePoll(Run(w, s, steps[..n]));
      InterleavingsSafe(w, s, steps[..n]);
      StalePollBreaks(w, Run(w, s, steps[..n]));
      RunPrefix(w, s, steps, n);
    }
  }

  // ----- no lost update

  /** The environment supplies nothing that a published file may lack. */
  predicate NoSeeds(env: Env) {
    env.sharedKey == "" && env.initial == []
  }

  lemma ReadBackUnchanged(w: World, f: File)
    requires Lawful(w) && Good(f) && NoSeeds(w.env)
    ensures Read(w, w.render(f)) == Some(f)
  {
    assert f.peers.listen != "" by {
      assert Normalised(f).peers == f.peers;
    }
    assert Seeded(f, w.env) == f;
  }

  /** The attempts applied one after the other, with nothing in between. */
  ghost function Serial(base: File, commits: seq<Commit>): Option<File> {
    if commits == [] then Some(base)
    else
      var r := Serial(base, commits[..|commits| - 1]);
      if r.None? then None else Outcome(commits[|commits| - 1].a, r.value)
  }

  ghost predicate Chained(commits: seq<Commit>, files: seq<File>) {
    |files| == |commits| + 1
    && forall i :: 0 <= i < |commits| ==> Outcome(commits[i].a, files[i]) == Some(files[i + 1])
  }

  lemma {:induction false} ChainIsSerial(commits: seq<Commit>, files: seq<File>)
    requires Chained(commits, files)
    ensures Serial(files[0], commits) == Some(files[|files| - 1])
  {
    if commits != [] {
      ChainIsSerial(commits[..|commits| - 1], files[..|files| - 1]);
    }
  }

  lemma InStepIsChained(w: World, s: System)
    requires Lawful(w) && NoSeeds(w.env) && OnDisk(w, s) && Sound(w, s) && InStep(w, s)
    ensures Chained(s.commits, s.files)
  {
    forall i | 0 <= i < |s.commits| ensures Outcome(s.commits[i].a, s.files[i]) == Some(s.files[i + 1]) {
      ReadBackUnchanged(w, s.files[i]);
      assert Shows(w, s.files[i], s.commits[i].base);
    }
  }

  /** No update is lost in a run without stale polls: every commit found in memory the
      file of the commit before it, when the lock is free memory shows the last
      commit and the disk holds its text; and when the environment adds nothing,
      the published file is the loaded one with every committed attempt applied
      in commit order. */
  lemma NoLostUpdate(w: World, s: System, steps: seq<Step>)
    requires Lawful(w) && Init(w, s) && NoStalePoll(w, s, steps)
    ensures var e := Run(w, s, steps);
            && |e.files| == |e.commits| + 1 && e.files[0] == s.current
            && (forall i :: 0 <= i < |e.commits| ==> Shows(w, e.files[i], e.commits[i].base))
            && (e.lock.None? ==> Shows(w, Last(e), e.current) && e.hash == w.hash(e.disk))
            && (e.commits != [] ==> e.disk == w.render(Last(e)))
            && (e.lock.None? && NoSeeds(w.env) ==> Serial(s.current, e.commits) == Some(e.current))
  {
    var e := Run(w, s, steps);
    InterleavingsSafe(w, s, steps);
    FreshPollsStayInStep(w, s, steps);
    UncommittedDisk(w, s, steps);
    if NoSeeds(w.env) && e.lock.None? {
      InStepIsChained(w, e);
      ChainIsSerial(e.commits, e.files);
      ReadBackUnchanged(w, Last(e));
    }
  }

  // ----- the losing run

  /** One save by one saver, undisturbed. */
  function SaveSteps(p: Pid, a: Attempt): seq<Step> {
    [Begin(p, a), Draft(p), WriteTmp(p), Rename(p), Publish(p), Unlock(p)]
  }

  lemma {:induction false} RunConcat(w: World, s: System, a: seq<Step>, b: seq<Step>)
    ensures Run(w, s, a + b) == Run(w, Run(w, s, a), b)
  {
    if b == [] {
      assert a + b == a;
    } else {
      assert (a + b)[..|a + b| - 1] == a + b[..|b| - 1];
      RunConcat(w, s, a, b[..|b| - 1]);
    }
  }

  lemma RunTwo(w: World, s: System, x: Step, y: Step)
    ensures Run(w, s, [x, y]) == Do(w, Do(w, s, x), y)
    ensures Run(w, s, [x]) == Do(w, s, x)
  {
    assert [x, y][..1] == [x] && [x][..0] == [];
    assert Run(w, s, [x][..0]) == s;
  }

  /** What an undisturbed save does to a system whose lock is free. */
  lemma SaveRuns(w: World, s: System, p: Pid, a: Attempt)
    requires s.lock.None? && PhaseOf(s, p).Idle? && Outcome(a, s.current).Some?
    ensures var e := Run(w, s, SaveSteps(p, a));
            var f := Outcome(a, s.current).value;
            && e.lock.None? && PhaseOf(e, p).Idle? && e.current == f && e.disk == w.render(f)
            && e.hash == w.hash(w.render(f)) && e.poller == s.poller
            && e.commits == s.commits + [Commit(a, s.current)] && e.files == s.files + [f]
  {
    var s2 := Do(w, Do(w, s, Begin(p, a)), Draft(p));
    var s4 := Do(w, Do(w, s2, WriteTmp(p)), Rename(p));
    RunTwo(w, s, Begin(p, a), Draft(p));
    RunTwo(w, s2, WriteTmp(p), Rename(p));
    RunTwo(w, s4, Publish(p), Unlock(p));
    RunConcat(w, s, [Begin(p, a), Draft(p)], [WriteTmp(p), Rename(p)]);
    RunConcat(w, s, [Begin(p, a), Draft(p)] + [WriteTmp(p), Rename(p)], [Publish(p), Unlock(p)]);
    assert [Begin(p, a), Draft(p)] + [WriteTmp(p), Rename(p)] + [Publish(p), Unlock(p)] == SaveSteps(p, a);
  }

  /** The steps of a poll that a whole save interrupts. */
  function PollAroundSave(p: Pid, a: Attempt): seq<Step> {
    [PollRead] + SaveSteps(p, a) + [PollCompare, PollPublish]
  }

  /** The poll's tail on a system that a save has moved on. */
  lemma PollTail(w: World, s: System, first: System)
    requires Lawful(w) && s.poller == HasRead(first.disk) && s.hash == w.hash(s.disk) && s.disk != first.disk
    requires Read(w, first.disk) == Some(first.current)
    ensures Run(w, s, [PollCompare, PollPublish])
         == s.(current := first.current, hash := w.hash(first.disk), poller := Resting)
  {
    RunTwo(w, s, PollCompare, PollPublish);
  }

  lemma ReadThenSave(w: World, s: System, p: Pid, a: Attempt)
    requires s.poller.Resting?
    ensures Run(w, s, [PollRead] + SaveSteps(p, a)) == Run(w, s.(poller := HasRead(s.disk)), SaveSteps(p, a))
  {
    RunTwo(w, s, PollRead, PollRead);
    RunConcat(w, s, [PollRead], SaveSteps(p, a));
  }

  /** What the poll and the save in the middle of it leave. */
  ghost predicate Reverted(w: World, s: System, e: System, p: Pid, f: File) {
    e.lock.None? && PhaseOf(e, p).Idle? && e.current == s.current && e.disk == w.render(f)
  }

  lemma TailReverts(w: World, s: System, s2: System, p: Pid, f: File)
    requires Lawful(w) && Init(w, s) && s2.poller == HasRead(s.disk)
    requires s2.lock.None? && PhaseOf(s2, p).Idle? && s2.disk == w.render(f) && s2.hash == w.hash(s2.disk)
    requires w.render(f) != s.disk
    ensures Reverted(w, s, Run(w, s2, [PollCompare, PollPublish]), p, f)
  {
    PollTail(w, s2, s);
  }

  lemma PollReverts(w: World, s: System, p: Pid, a: Attempt, f: File)
    requires Lawful(w) && Init(w, s) && Outcome(a, s.current) == Some(f) && w.render(f) != s.disk
    ensures Reverted(w, s, Run(w, s, PollAroundSave(p, a)), p, f)
  {
    var s1 := s.(poller := HasRead(s.disk));
    var s2 := Run(w, s1, SaveSteps(p, a));
    ReadThenSave(w, s, p, a);
    SaveRuns(w, s1, p, a);
    TailReverts(w, s, s2, p, f);
    RunConcat(w, s, [PollRead] + SaveSteps(p, a), [PollCompare, PollPublish]);
  }

  /** A poll reads, a save commits, the poll goes on: the published file is the old one
      again although the new text is on disk, and the next save builds on the
      old file, so its text replaces the committed one. */
  lemma StalePollLosesUpdate(w: World, s: System, p: Pid, a: Attempt, b: Attempt)
    requires Lawful(w) && Init(w, s)
    requires Outcome(a, s.current).Some? && Outcome(b, s.current).Some?
    requires w.render(Outcome(a, s.current).value) != s.disk
    ensures var e := Run(w, s, PollAroundSave(p, a));
            var e' := Run(w, s, PollAroundSave(p, a) + SaveSteps(p, b));
            && e.current == s.current && e.disk == w.render(Outcome(a, s.current).value)
            && e'.current == Outcome(b, s.current).value && e'.disk == w.render(e'.current)
  {
    PollReverts(w, s, p, a, Outcome(a, s.current).value);
    SaveRuns(w, Run(w, s, PollAroundSave(p, a)), p, b);
    RunConcat(w, s, PollAroundSave(p, a), SaveSteps(p, b));
  }
}
