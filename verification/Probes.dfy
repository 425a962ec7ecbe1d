/** Probes in flight while the zone table is rebuilt
    (internal/unbound/proxy/proxy.go). */
module Probes {
  import opened Text
  import opened Config
  import opened Pinger
  import opened Selection
  import opened Proxy

  type Id = nat

  datatype Entry = Entry(name: string, upstream: string, interval: int, records: seq<LatencyRecord>)

  /** What an upstream said when asked for a name. */
  datatype Reply = Reply(name: string, upstream: string, answer: seq<LatencyRecord>)

  /** A probe asks for the name and upstream its entry had when it started. */
  datatype Phase = Asking | Answered(answer: seq<LatencyRecord>) | Done

  datatype Probe = Probe(id: Id, name: string, upstream: string, phase: Phase)

  /** `heap` holds every entry ever made, `zones` the current table, `probes` every
      probe ever started and `replies` every upstream reply so far. */
  datatype System = System(
    heap: seq<Entry>,
    zones: map<string, Id>,
    probes: seq<Probe>,
    replies: set<Reply>)

  /** A probe may start for any entry ever made: the pass that starts it took its
      list of entries earlier. Probes of one entry may overlap. */
  datatype Step =
    | Rebuild(cur: Option<File>)
    | StartProbe(id: Id)
    | AnswerProbe(p: nat, answer: seq<LatencyRecord>)
    | FinishProbe(p: nat, rtts: seq<int>, order: seq<int>, best: int)
    | FailProbe(p: nat)

  predicate Matches(e: Entry, z: Zone) {
    z.upstreams != [] && e.upstream == ProbeUpstream(z) && e.interval == Interval(z)
  }

  /** The table built from a prefix of the configured zones, with the heap so far. */
  function Table(s: System, zs: seq<Zone>): (seq<Entry>, map<string, Id>) {
    if zs == [] then (s.heap, map[])
    else
      var n := |zs| - 1;
      var (heap, zones) := Table(s, zs[..n]);
      var z := zs[n];
      var name := Fqdn(z.name);
      if !Wanted(z) then (heap, zones)
      else if name in s.zones && s.zones[name] < |s.heap| && Matches(s.heap[s.zones[name]], z) then
        (heap, zones[name := s.zones[name]])
      else (heap + [Entry(name, ProbeUpstream(z), Interval(z), [])], zones[name := |heap|])
  }

  /** The pings of an answer: one goroutine per address, in some order. */
  ghost predicate Pinged(answer: seq<LatencyRecord>, rtts: seq<int>, order: seq<int>, best: int) {
    |rtts| == |Addresses(answer)| && IsOrder(order, |rtts|) && IsBest(rtts, best)
  }

  ghost function Selected(answer: seq<LatencyRecord>, rtts: seq<int>, order: seq<int>, best: int): seq<LatencyRecord>
    requires Pinged(answer, rtts, order, best)
  {
    Stored(answer, Completed(map[], Addresses(answer), rtts, order), best)
  }

  /** One step; a step that is not enabled does nothing. */
  ghost function Do(s: System, step: Step): System {
    match step
    case Rebuild(None) => s.(zones := map[])
    case Rebuild(Some(f)) =>
      var (heap, zones) := Table(s, f.zones);
      s.(heap := heap, zones := zones)
    case StartProbe(id) =>
      if id < |s.heap|
      then s.(probes := s.probes + [Probe(id, s.heap[id].name, s.heap[id].upstream, Asking)]) else s
    case AnswerProbe(p, answer) =>
      if p < |s.probes| && s.probes[p].phase.Asking? then
        s.(probes := s.probes[p := s.probes[p].(phase := Answered(answer))],
           replies := s.replies + {Reply(s.probes[p].name, s.probes[p].upstream, answer)})
      else s
    case FinishProbe(p, rtts, order, best) =>
      if p < |s.probes| && s.probes[p].phase.Answered? && s.probes[p].id < |s.heap|
         && Pinged(s.probes[p].phase.answer, rtts, order, best) then
        var id, answer := s.probes[p].id, s.probes[p].phase.answer;
        s.(heap := s.heap[id := s.heap[id].(records := Selected(answer, rtts, order, best))],
           probes := s.probes[p := s.probes[p].(phase := Done)])
      else s
    case FailProbe(p) =>
      if p < |s.probes| then s.(probes := s.probes[p := s.probes[p].(phase := Done)]) else s
  }

  ghost function Run(s: System, steps: seq<Step>): System
    decreases |steps|
  {
    if steps == [] then s else Run(Do(s, steps[0]), steps[1..])
  }

  /** The records that the table leads to. */
  ghost function Visible(s: System): map<string, seq<LatencyRecord>> {
    map n | n in s.zones && s.zones[n] < |s.heap| :: s.heap[s.zones[n]].records
  }

  // ----- the table is the one the server rebuilds

  /** The table after a rebuild meets the server's contract: an entry exactly for each
      wanted zone, with its settings; the same entry as before when those did not
      change, otherwise a new and empty one. */
  lemma {:induction false} TableIsRebuilt(s: System, zs: seq<Zone>)
    requires Filed(s)
    ensures var (heap, zones) := Table(s, zs);
            && |s.heap| <= |heap| && heap[..|s.heap|] == s.heap
            && (forall i :: |s.heap| <= i < |heap| ==> heap[i].records == [])
            && (forall n :: n in zones <==> Ruling(zs, n).Some?)
            && (forall n :: n in zones ==>
                  && zones[n] < |heap| && heap[zones[n]].name == n
                  && Matches(heap[zones[n]], Ruling(zs, n).value)
                  && (if n in s.zones && Matches(s.heap[s.zones[n]], Ruling(zs, n).value)
                      then zones[n] == s.zones[n] else zones[n] >= |s.heap|))
  {
    if zs != [] {
      TableIsRebuilt(s, zs[..|zs| - 1]);
    }
  }

  // ----- provenance

  /** Every name in the table leads to an entry of that name. */
  ghost predicate Filed(s: System) {
    forall n :: n in s.zones ==> s.zones[n] < |s.heap| && s.heap[s.zones[n]].name == n
  }

  /** The records are what pinging some reply selected, and the reply was to this
      entry's name through this entry's upstream. */
  ghost predicate CameFrom(e: Entry, replies: set<Reply>) {
    e.records == []
    || exists answer, rtts, order, best ::
         Reply(e.name, e.upstream, answer) in replies
         && Pinged(answer, rtts, order, best) && e.records == Selected(answer, rtts, order, best)
  }

  /** A probe still asks for what its entry says, and its answer was a reply to that. */
  ghost predicate Faithful(s: System, p: Probe) {
    p.id < |s.heap| && p.name == s.heap[p.id].name && p.upstream == s.heap[p.id].upstream
    && (p.phase.Answered? ==> Reply(p.name, p.upstream, p.phase.answer) in s.replies)
  }

  ghost predicate Inv(s: System) {
    Filed(s)
    && (forall i :: 0 <= i < |s.heap| ==> CameFrom(s.heap[i], s.replies))
    && (forall i :: 0 <= i < |s.probes| ==> Faithful(s, s.probes[i]))
  }

  lemma RebuildInv(s: System, f: File)
    requires Inv(s)
    ensures Inv(Do(s, Rebuild(Some(f))))
  {
    var s' := Do(s, Rebuild(Some(f)));
    TableIsRebuilt(s, f.zones);
    forall i | 0 <= i < |s'.heap| ensures CameFrom(s'.heap[i], s'.replies) {
      if i < |s.heap| {
        assert s'.heap[i] == s'.heap[..|s.heap|][i];
        assert CameFrom(s.heap[i], s.replies);
      }
    }
    forall i | 0 <= i < |s'.probes| ensures Faithful(s', s'.probes[i]) {
      assert Faithful(s, s.probes[i]);
      assert s'.heap[s.probes[i].id] == s'.heap[..|s.heap|][s.probes[i].id];
    }
  }

  lemma AnswerInv(s: System, p: nat, answer: seq<LatencyRecord>)
    requires Inv(s) && p < |s.probes| && s.probes[p].phase.Asking?
    ensures Inv(Do(s, AnswerProbe(p, answer)))
  {
    var s' := Do(s, AnswerProbe(p, answer));
    assert s.replies <= s'.replies;
    forall i | 0 <= i < |s'.heap| ensures CameFrom(s'.heap[i], s'.replies) {
      assert CameFrom(s.heap[i], s.replies);
    }
    forall i | 0 <= i < |s'.probes| ensures Faithful(s', s'.probes[i]) {
      assert Faithful(s, s.probes[i]);
    }
  }

  lemma FinishInv(s: System, p: nat, rtts: seq<int>, order: seq<int>, best: int)
    requires Inv(s) && p < |s.probes| && s.probes[p].phase.Answered?
    requires Pinged(s.probes[p].phase.answer, rtts, order, best)
    ensures Inv(Do(s, FinishProbe(p, rtts, order, best)))
  {
    var s' := Do(s, FinishProbe(p, rtts, order, best));
    var probe := s.probes[p];
    assert Faithful(s, probe);
    forall i | 0 <= i < |s'.heap| ensures CameFrom(s'.heap[i], s'.replies) {
      if i == probe.id {
        assert Reply(s'.heap[i].name, s'.heap[i].upstream, probe.phase.answer) in s'.replies;
      } else {
        assert CameFrom(s.heap[i], s.replies);
      }
    }
    forall i | 0 <= i < |s'.probes| ensures Faithful(s', s'.probes[i]) {
      assert Faithful(s, s.probes[i]);
    }
  }

  lemma StepInv(s: System, step: Step)
    requires Inv(s)
    ensures Inv(Do(s, step))
  {
    match step
    case Rebuild(None) =>
    case Rebuild(Some(f)) => RebuildInv(s, f);
    case StartProbe(id) =>
      var s' := Do(s, step);
      forall i | 0 <= i < |s'.probes| ensures Faithful(s', s'.probes[i]) {
        assert i < |s.probes| ==> Faithful(s, s.probes[i]);
      }
    case AnswerProbe(p, answer) =>
      if p < |s.probes| && s.probes[p].phase.Asking? { AnswerInv(s, p, answer); }
    case FinishProbe(p, rtts, order, best) =>
      if p < |s.probes| && s.probes[p].phase.Answered? && Pinged(s.probes[p].phase.answer, rtts, order, best) {
        FinishInv(s, p, rtts, order, best);
      }
    case FailProbe(p) =>
      var s' := Do(s, step);
      forall i | 0 <= i < |s'.probes| ensures Faithful(s', s'.probes[i]) {
        assert Faithful(s, s.probes[i]);
      }
  }

  /** A server that has just started. */
  lemma EmptyMeetsInv()
    ensures Inv(System([], map[], [], {}))
  {
  }

  /** Over every interleaving of rebuilds, probe starts, replies and finishes: a probe
      in flight asks for the name and upstream its entry still has, and the
      records cached under a name are the selection from a reply to that name
      through the upstream its entry is configured with. */
  lemma {:induction false} CacheProvenance(s: System, steps: seq<Step>)
    requires Inv(s)
    ensures Inv(Run(s, steps))
    decreases |steps|
  {
    if steps != [] {
      StepInv(s, steps[0]);
      CacheProvenance(Do(s, steps[0]), steps[1..]);
    }
  }

  // ----- stale probes

  ghost predicate InTable(s: System, id: Id) {
    exists n :: n in s.zones && s.zones[n] == id
  }

  /** Equal but for the records of entries outside the table and for probes of such
      entries. */
  ghost predicate Alike(s: System, t: System) {
    s.zones == t.zones && |s.heap| == |t.heap| && |s.probes| == |t.probes|
    && (forall i :: 0 <= i < |s.heap| ==> AlikeEntries(s, i, s.heap[i], t.heap[i]))
    && (forall i :: 0 <= i < |s.probes| ==> AlikeProbes(s, s.probes[i], t.probes[i]))
  }

  ghost predicate AlikeEntries(s: System, i: Id, a: Entry, b: Entry) {
    a == b || (!InTable(s, i) && a == b.(records := a.records))
  }

  ghost predicate AlikeProbes(s: System, a: Probe, b: Probe) {
    a == b || (!InTable(s, a.id) && a == b.(phase := a.phase))
  }

  lemma AlikeVisible(s: System, t: System)
    requires Alike(s, t)
    ensures Visible(s) == Visible(t)
  {
    forall n | n in s.zones && s.zones[n] < |s.heap|
      ensures s.heap[s.zones[n]].records == t.heap[s.zones[n]].records
    {
      assert InTable(s, s.zones[n]);
      assert AlikeEntries(s, s.zones[n], s.heap[s.zones[n]], t.heap[s.zones[n]]);
    }
  }

  /** Like systems build the same table and like heaps. */
  lemma {:induction false} TableAlike(s: System, t: System, zs: seq<Zone>)
    requires Alike(s, t)
    ensures Table(s, zs).1 == Table(t, zs).1
    ensures |Table(s, zs).0| == |Table(t, zs).0| >= |s.heap|
    ensures forall i :: 0 <= i < |s.heap| ==> Table(s, zs).0[i] == s.heap[i] && Table(t, zs).0[i] == t.heap[i]
    ensures forall i :: |s.heap| <= i < |Table(s, zs).0| ==> Table(s, zs).0[i] == Table(t, zs).0[i]
  {
    if zs != [] {
      TableAlike(s, t, zs[..|zs| - 1]);
    }
  }

  /** An entry that left the table never returns to it. */
  lemma LeftForGood(s: System, f: File, id: Id)
    requires Filed(s) && id < |s.heap| && !InTable(s, id)
    ensures !InTable(Do(s, Rebuild(Some(f))), id)
  {
    TableIsRebuilt(s, f.zones);
  }

  lemma RebuildAlike(s: System, t: System, f: File)
    requires Inv(s) && Alike(s, t)
    ensures Alike(Do(s, Rebuild(Some(f))), Do(t, Rebuild(Some(f))))
  {
    var s', t' := Do(s, Rebuild(Some(f))), Do(t, Rebuild(Some(f)));
    TableAlike(s, t, f.zones);
    forall i | 0 <= i < |s'.heap| ensures AlikeEntries(s', i, s'.heap[i], t'.heap[i]) {
      if i < |s.heap| {
        assert AlikeEntries(s, i, s.heap[i], t.heap[i]);
        if !InTable(s, i) { LeftForGood(s, f, i); }
      }
    }
    forall i | 0 <= i < |s'.probes| ensures AlikeProbes(s', s'.probes[i], t'.probes[i]) {
      assert AlikeProbes(s, s.probes[i], t.probes[i]) && Faithful(s, s.probes[i]);
      if !InTable(s, s.probes[i].id) { LeftForGood(s, f, s.probes[i].id); }
    }
  }

  /** A step that leaves the table alone keeps systems alike if it keeps entries and
      probes alike one by one. */
  lemma SameTableAlike(s: System, t: System, s': System, t': System)
    requires Alike(s, t) && s'.zones == s.zones && t'.zones == t.zones
    requires |s'.heap| == |t'.heap| && |s'.probes| == |t'.probes|
    requires forall i :: 0 <= i < |s'.heap| ==> AlikeEntries(s, i, s'.heap[i], t'.heap[i])
    requires forall i :: 0 <= i < |s'.probes| ==> AlikeProbes(s, s'.probes[i], t'.probes[i])
    ensures Alike(s', t')
  {
    assert forall i :: InTable(s', i) <==> InTable(s, i);
    forall i | 0 <= i < |s'.heap| ensures AlikeEntries(s', i, s'.heap[i], t'.heap[i]) {
      assert AlikeEntries(s, i, s'.heap[i], t'.heap[i]);
    }
    forall i | 0 <= i < |s'.probes| ensures AlikeProbes(s', s'.probes[i], t'.probes[i]) {
      assert AlikeProbes(s, s'.probes[i], t'.probes[i]);
    }
  }

  lemma ProbeStepAlike(s: System, t: System, step: Step)
    requires Alike(s, t) && !step.Rebuild?
    ensures Alike(Do(s, step), Do(t, step))
  {
    var s', t' := Do(s, step), Do(t, step);
    if !step.StartProbe? && step.p < |s.probes| {
      assert AlikeProbes(s, s.probes[step.p], t.probes[step.p]);
    }
    forall i | 0 <= i < |s'.heap| ensures AlikeEntries(s, i, s'.heap[i], t'.heap[i]) {
      assert AlikeEntries(s, i, s.heap[i], t.heap[i]);
    }
    forall i | 0 <= i < |s'.probes| ensures AlikeProbes(s, s'.probes[i], t'.probes[i]) {
      if i < |s.probes| {
        assert AlikeProbes(s, s.probes[i], t.probes[i]);
      } else {
        assert AlikeEntries(s, step.id, s.heap[step.id], t.heap[step.id]);
      }
    }
    SameTableAlike(s, t, s', t');
  }

  lemma StepAlike(s: System, t: System, step: Step)
    requires Inv(s) && Alike(s, t)
    ensures Alike(Do(s, step), Do(t, step))
  {
    match step {
      case Rebuild(None) =>
        assert forall i :: !InTable(Do(s, step), i);
      case Rebuild(Some(f)) => RebuildAlike(s, t, f);
      case _ => ProbeStepAlike(s, t, step);
    }
  }

  lemma {:induction false} RunAlike(s: System, t: System, steps: seq<Step>)
    requires Inv(s) && Alike(s, t)
    ensures Alike(Run(s, steps), Run(t, steps))
    decreases |steps|
  {
    if steps != [] {
      StepAlike(s, t, steps[0]);
      StepInv(s, steps[0]);
      RunAlike(Do(s, steps[0]), Do(t, steps[0]), steps[1..]);
    }
  }

  /** A probe that finishes for an entry no longer in the table changes no records that the
      table leads to, neither at once nor after any further steps. */
  lemma StaleProbeIsInvisible(s: System, p: nat, rtts: seq<int>, order: seq<int>, best: int, steps: seq<Step>)
    requires Inv(s) && p < |s.probes| && !InTable(s, s.probes[p].id)
    ensures Visible(Run(Do(s, FinishProbe(p, rtts, order, best)), steps)) == Visible(Run(s, steps))
  {
    var t := Do(s, FinishProbe(p, rtts, order, best));
    assert forall i :: InTable(s, i) <==> InTable(t, i);
    assert Alike(s, t);
    RunAlike(s, t, steps);
    AlikeVisible(Run(s, steps), Run(t, steps));
  }

  /** An entry matches a zone exactly when upstream and interval are those the zone asks
      for. */
  lemma MatchesIff(e: Entry, z: Zone)
    ensures Matches(e, z) <==>
            && |z.upstreams| > 0
            && e.upstream == (if ':' in z.upstreams[0] then z.upstreams[0] else z.upstreams[0] + ":53")
            && e.interval == (if z.latencyTestFrequency > 0 then z.latencyTestFrequency else 5)
  {
  }
}
