/** Queries in flight, interleaved with probes and rebuilds: each looks its entry up under
    the lock and then reads the entry's records three times without it
    (internal/unbound/proxy/proxy.go). */
module Queries {
  import opened Text
  import opened Config
  import opened Selection
  import opened Proxy
  import Probes

  /** A query that holds an entry: before the first, second and third read of its records. */
  datatype Query =
    | Holding(id: Probes.Id, name: string, q: QType)
    | Checked(id: Probes.Id, name: string, q: QType)
    | Timed(id: Probes.Id, name: string, q: QType, ttl: nat)
    | Done(response: Response)

  datatype System = System(base: Probes.System, queries: seq<Query>, parses: string -> bool)

  datatype Step =
    | Base(step: Probes.Step)
    | Ask(name: string, q: QType)
    | Next(i: nat)

  function RecordsOf(base: Probes.System, id: Probes.Id): seq<LatencyRecord> {
    if id < |base.heap| then base.heap[id].records else []
  }

  /** A query's next read, which finds `rs`. */
  function Advance(u: Query, rs: seq<LatencyRecord>, parses: string -> bool): Query {
    match u
    case Holding(id, name, q) => if rs == [] then Done(Failure()) else Checked(id, name, q)
    case Checked(id, name, q) => Timed(id, name, q, TtlOf(rs))
    case Timed(id, name, q, ttl) => Done(Finished(AnswerSection(rs, name, q, parses, ttl)))
    case Done(_) => u
  }

  /** What a question finds in the table. */
  function Asked(base: Probes.System, name: string, q: QType): Query {
    var n := ToLower(name);
    if n in base.zones then Holding(base.zones[n], name, q) else Done(Failure())
  }

  ghost function Do(s: System, step: Step): System {
    match step
    case Base(b) => s.(base := Probes.Do(s.base, b))
    case Ask(name, q) => s.(queries := s.queries + [Asked(s.base, name, q)])
    case Next(i) =>
      if i < |s.queries| && !s.queries[i].Done?
      then s.(queries := s.queries[i := Advance(s.queries[i], RecordsOf(s.base, s.queries[i].id), s.parses)])
      else s
  }

  ghost function Run(s: System, steps: seq<Step>): System
    decreases |steps|
  {
    if steps == [] then s else Run(Do(s, steps[0]), steps[1..])
  }

  /** What the client of a query has got. */
  function Result(s: System, i: nat): Option<Response> {
    if i < |s.queries| && s.queries[i].Done? then Some(s.queries[i].response) else None
  }

  ghost predicate Inv(s: System) {
    Probes.Inv(s.base)
    && forall i :: 0 <= i < |s.queries| && !s.queries[i].Done? ==> s.queries[i].id < |s.base.heap|
  }

  /** No entry is ever discarded. */
  lemma BaseGrows(b: Probes.System, step: Probes.Step)
    requires Probes.Inv(b)
    ensures |b.heap| <= |Probes.Do(b, step).heap|
  {
    match step {
      case Rebuild(Some(f)) => Probes.TableIsRebuilt(b, f.zones);
      case _ =>
    }
  }

  lemma StepInv(s: System, step: Step)
    requires Inv(s)
    ensures Inv(Do(s, step))
  {
    match step
    case Base(b) =>
      Probes.StepInv(s.base, b);
      BaseGrows(s.base, b);
    case Ask(name, q) =>
    case Next(i) =>
  }

  lemma {:induction false} RunConcat(s: System, a: seq<Step>, b: seq<Step>)
    ensures Run(s, a + b) == Run(Run(s, a), b)
    decreases |a|
  {
    if a == [] {
      assert a + b == b;
    } else {
      assert (a + b)[1..] == a[1..] + b;
      RunConcat(Do(s, a[0]), a[1..], b);
    }
  }

  lemma RunOne(s: System, step: Step)
    ensures Run(s, [step]) == Do(s, step)
  {
    assert Run(Do(s, step), [step][1..]) == Do(s, step);
  }

  // ----- what an entry's records are after a run

  /** The selection that a step writes into an entry. */
  ghost function Wrote(s: System, step: Step, id: Probes.Id): Option<seq<LatencyRecord>> {
    match step
    case Base(FinishProbe(p, rtts, order, best)) =>
      if p < |s.base.probes| && s.base.probes[p].phase.Answered? && s.base.probes[p].id == id
         && Probes.Pinged(s.base.probes[p].phase.answer, rtts, order, best)
      then Some(Probes.Selected(s.base.probes[p].phase.answer, rtts, order, best)) else None
    case _ => None
  }

  /** The last finish of a probe of the entry in a run. */
  ghost function LastFinish(s: System, steps: seq<Step>, id: Probes.Id): Option<seq<LatencyRecord>>
    decreases |steps|
  {
    if steps == [] then None
    else
      var later := LastFinish(Do(s, steps[0]), steps[1..], id);
      if later.Some? then later else Wrote(s, steps[0], id)
  }

  function Or(o: Option<seq<LatencyRecord>>, rs: seq<LatencyRecord>): seq<LatencyRecord> {
    if o.Some? then o.value else rs
  }

  lemma StepRecords(s: System, step: Step, id: Probes.Id)
    requires Inv(s) && id < |s.base.heap|
    ensures id < |Do(s, step).base.heap|
    ensures RecordsOf(Do(s, step).base, id) == Or(Wrote(s, step, id), RecordsOf(s.base, id))
  {
    match step {
      case Base(Rebuild(Some(f))) => Probes.TableIsRebuilt(s.base, f.zones);
      case _ =>
    }
  }

  lemma {:induction false} RunRecords(s: System, steps: seq<Step>, id: Probes.Id)
    requires Inv(s) && id < |s.base.heap|
    ensures Inv(Run(s, steps)) && id < |Run(s, steps).base.heap|
    ensures RecordsOf(Run(s, steps).base, id) == Or(LastFinish(s, steps, id), RecordsOf(s.base, id))
    decreases |steps|
  {
    if steps != [] {
      StepInv(s, steps[0]);
      StepRecords(s, steps[0], id);
      RunRecords(Do(s, steps[0]), steps[1..], id);
    }
  }

  /** The steps leave the query where it is. */
  predicate Leave(steps: seq<Step>, i: nat) {
    forall k :: 0 <= k < |steps| ==> steps[k] != Next(i)
  }

  lemma {:induction false} QueryWaits(s: System, steps: seq<Step>, i: nat)
    requires i < |s.queries| && Leave(steps, i)
    ensures i < |Run(s, steps).queries| && Run(s, steps).queries[i] == s.queries[i] && Run(s, steps).parses == s.parses
    decreases |steps|
  {
    if steps != [] {
      QueryWaits(Do(s, steps[0]), steps[1..], i);
    }
  }

  // ----- one query among everything else

  /** After any steps of the others, the query's next read finds what the last finish of
      its entry left. */
  lemma WaitAndRead(s: System, steps: seq<Step>, i: nat)
    requires Inv(s) && i < |s.queries| && !s.queries[i].Done? && Leave(steps, i)
    ensures var e := Run(s, steps + [Next(i)]);
            var u := s.queries[i];
            && Inv(e) && i < |e.queries| && e.parses == s.parses
            && e.queries[i] == Advance(u, Or(LastFinish(s, steps, u.id), RecordsOf(s.base, u.id)), s.parses)
            && u.id < |e.base.heap|
            && RecordsOf(e.base, u.id) == Or(LastFinish(s, steps, u.id), RecordsOf(s.base, u.id))
  {
    var u := s.queries[i];
    RunRecords(s, steps, u.id);
    QueryWaits(s, steps, i);
    RunConcat(s, steps, [Next(i)]);
    RunOne(Run(s, steps), Next(i));
    StepInv(Run(s, steps), Next(i));
  }

  lemma {:induction false} DoneStays(s: System, steps: seq<Step>, i: nat)
    requires Result(s, i).Some?
    ensures Result(Run(s, steps), i) == Result(s, i)
    decreases |steps|
  {
    if steps != [] {
      DoneStays(Do(s, steps[0]), steps[1..], i);
    }
  }

  /** A query whose entry is found, with any steps of the others before each of its reads:
      its client gets the reply made of what the three reads find, and each of them
      finds what the last finish of a probe of that entry left. */
  lemma QueryGetsReply(s: System, name: string, q: QType, a: seq<Step>, b: seq<Step>, c: seq<Step>, i: nat,
                       s1: System, s2: System, s3: System, s4: System)
    requires Inv(s) && i == |s.queries| && Leave(a, i) && Leave(b, i) && Leave(c, i)
    requires ToLower(name) in s.base.zones && s1 == Do(s, Ask(name, q))
    requires s2 == Run(s1, a + [Next(i)]) && s3 == Run(s2, b + [Next(i)]) && s4 == Run(s3, c + [Next(i)])
    ensures var id := s.base.zones[ToLower(name)];
            var checked := Or(LastFinish(s1, a, id), RecordsOf(s.base, id));
            var timed := Or(LastFinish(s2, b, id), checked);
            var answered := Or(LastFinish(s3, c, id), timed);
            Result(s4, i) == Some(Reply(Some(Reads(checked, timed, answered)), name, q, s.parses))
  {
    StepInv(s, Ask(name, q));
    WaitAndRead(s1, a, i);
    if s2.queries[i].Done? {
      DoneStays(s2, b + [Next(i)], i);
      DoneStays(s3, c + [Next(i)], i);
    } else {
      WaitAndRead(s2, b, i);
      WaitAndRead(s3, c, i);
    }
  }

  // ----- the time to live of an answer

  /** No record with a time to live of its own runs out before `ttl`. */
  ghost predicate Lasts(rs: seq<LatencyRecord>, ttl: nat) {
    forall k :: 0 <= k < |rs| && rs[k].ttl > 0 ==> ttl <= rs[k].ttl
  }

  /** A query reads its time to live, other steps follow, and it answers. The answer comes
      from the records that the last finish in between left; none of these runs out
      before the answer exactly when there was no such finish or it brought no record
      below the time to live read before. */
  lemma TornTtlIff(s: System, steps: seq<Step>, i: nat, s1: System, e: System)
    requires Inv(s) && i < |s.queries| && s.queries[i].Checked? && Leave(steps, i)
    requires s1 == Do(s, Next(i)) && e == Run(s1, steps + [Next(i)])
    ensures var u, wrote := s.queries[i], LastFinish(s1, steps, s.queries[i].id);
            var ttl, last := TtlOf(RecordsOf(s.base, u.id)), Or(wrote, RecordsOf(s.base, u.id));
            && RecordsOf(e.base, u.id) == last
            && Result(e, i) == Some(Finished(AnswerSection(last, u.name, u.q, s.parses, ttl)))
            && (Lasts(last, ttl) <==> wrote.None? || Lasts(wrote.value, ttl))
            && (CommonTtl(last, ttl) <==> wrote.None? || TtlOf(wrote.value) == ttl)
  {
    var u := s.queries[i];
    StepInv(s, Next(i));
    WaitAndRead(s1, steps, i);
    TtlOfIsCommon(RecordsOf(s.base, u.id));
    CommonTtlIs(Or(LastFinish(s1, steps, u.id), RecordsOf(s.base, u.id)), TtlOf(RecordsOf(s.base, u.id)));
  }

  /** An alias with five seconds left. */
  function Alias(): LatencyRecord {
    LatencyRecord("", CNAME, "", 5, 0)
  }

  /** A probe of the entry that starts, is answered with the alias and finishes. */
  function Refresh(s: System, id: Probes.Id): seq<Step> {
    var p := |s.base.probes|;
    [Base(Probes.StartProbe(id)), Base(Probes.AnswerProbe(p, [Alias()])), Base(Probes.FinishProbe(p, [], [], 0))]
  }

  lemma AliasSelected()
    ensures Probes.Pinged([Alias()], [], [], 0) && Probes.Selected([Alias()], [], [], 0) == [Alias()]
  {
    var rs := [Alias()];
    assert rs[..0] == [];
    assert Addresses(rs) == [];
    assert TagAll(rs, map[]) == rs;
  }

  lemma RunThree(s: System, a: Step, b: Step, c: Step)
    ensures Run(s, [a, b, c]) == Do(Do(Do(s, a), b), c)
  {
    assert [a, b, c][1..] == [b, c] && [b, c][1..] == [c];
    RunOne(Do(Do(s, a), b), c);
    assert Run(Do(s, a), [b, c]) == Run(Do(Do(s, a), b), [c]);
  }

  lemma Refreshed(s: System, id: Probes.Id)
    requires id < |s.base.heap|
    ensures var e := Run(s, Refresh(s, id));
            e.queries == s.queries && e.parses == s.parses && RecordsOf(e.base, id) == [Alias()]
  {
    var p := |s.base.probes|;
    RunThree(s, Base(Probes.StartProbe(id)), Base(Probes.AnswerProbe(p, [Alias()])),
             Base(Probes.FinishProbe(p, [], [], 0)));
    AliasSelected();
  }

  lemma AliasAnswers(name: string, q: QType, parses: string -> bool, ttl: nat)
    ensures AnswerSection([Alias()], name, q, parses, ttl) == [Answer(name, CNAME, "", ttl)]
  {
    assert [Alias()][..0] == [];
  }

  /** The torn answer, from any state: a query that has read its time to live, a refresh of
      its entry, the answer. The client may keep the alias longer than it lasts. */
  lemma TornAnswer(s: System, i: nat, e: System)
    requires Inv(s) && i < |s.queries| && s.queries[i].Checked?
    requires e == Run(Do(s, Next(i)), Refresh(s, s.queries[i].id) + [Next(i)])
    ensures var u, ttl := s.queries[i], TtlOf(RecordsOf(s.base, s.queries[i].id));
            && RecordsOf(e.base, u.id) == [Alias()]
            && Result(e, i) == Some(Response(Success, [Answer(u.name, CNAME, "", ttl)]))
            && (Lasts([Alias()], ttl) <==> ttl <= 5)
  {
    var u, s1 := s.queries[i], Do(s, Next(i));
    Refreshed(s1, u.id);
    RunConcat(s1, Refresh(s, u.id), [Next(i)]);
    RunOne(Run(s1, Refresh(s, u.id)), Next(i));
    AliasAnswers(u.name, u.q, s.parses, TtlOf(RecordsOf(s.base, u.id)));
    assert [Alias()][0].ttl == 5;
  }

  // ----- who sees a stale probe

  /** Some continuation can tell the two contents of the query's entry apart: by emptiness
      before the first read, by the time to live before the second, by the answers
      before the third. */
  predicate Tells(u: Query, a: seq<LatencyRecord>, b: seq<LatencyRecord>, parses: string -> bool) {
    match u
    case Holding(_, name, q) => (a == []) != (b == []) || (a != [] && TellsRest(name, q, a, b, parses))
    case Checked(_, name, q) => TellsRest(name, q, a, b, parses)
    case Timed(_, name, q, _) => TellsAnswers(name, q, a, b, parses)
    case Done(_) => false
  }

  predicate TellsAnswers(
      name: string, q: QType, a: seq<LatencyRecord>, b: seq<LatencyRecord>, parses: string -> bool)
  {
    AnswerSection(a, name, q, parses, 0) != AnswerSection(b, name, q, parses, 0)
  }

  predicate TellsRest(
      name: string, q: QType, a: seq<LatencyRecord>, b: seq<LatencyRecord>, parses: string -> bool)
  {
    TtlOf(a) != TtlOf(b) || TellsAnswers(name, q, a, b, parses)
  }

  /** A read that cannot tell leaves a query that cannot tell either. */
  lemma AdvanceBlind(u: Query, a: seq<LatencyRecord>, b: seq<LatencyRecord>, parses: string -> bool)
    requires !Tells(u, a, b, parses)
    ensures Advance(u, a, parses) == Advance(u, b, parses) && !Tells(Advance(u, a, parses), a, b, parses)
  {
    if u.Timed? {
      AnswersAlike(a, b, u.name, u.q, parses, u.ttl);
    }
  }

  /** The query cannot tell the two systems apart. */
  ghost predicate Blind(s: System, t: System, u: Query) {
    u.Done? || !Tells(u, RecordsOf(s.base, u.id), RecordsOf(t.base, u.id), s.parses)
  }

  /** Equal but for records outside the table that no query can tell apart. */
  ghost predicate Alike(s: System, t: System) {
    Probes.Alike(s.base, t.base) && s.base.probes == t.base.probes
    && s.queries == t.queries && s.parses == t.parses
    && forall i :: 0 <= i < |s.queries| ==> Blind(s, t, s.queries[i])
  }

  lemma BaseProbesAlike(s: Probes.System, t: Probes.System, step: Probes.Step)
    requires Probes.Alike(s, t) && s.probes == t.probes
    ensures Probes.Do(s, step).probes == Probes.Do(t, step).probes
  {
    match step {
      case StartProbe(id) =>
        if id < |s.heap| { assert Probes.AlikeEntries(s, id, s.heap[id], t.heap[id]); }
      case _ =>
    }
  }

  /** A step writes the same into an entry of both systems, or nothing into either. */
  lemma WroteAlike(s: System, t: System, step: Step, id: Probes.Id)
    requires s.base.probes == t.base.probes
    ensures Wrote(s, step, id) == Wrote(t, step, id)
  {
  }

  lemma BaseBlind(s: System, t: System, b: Probes.Step, u: Query)
    requires Inv(s) && Inv(t) && s.base.probes == t.base.probes && Blind(s, t, u)
    requires !u.Done? ==> u.id < |s.base.heap| && u.id < |t.base.heap|
    ensures Blind(Do(s, Base(b)), Do(t, Base(b)), u)
  {
    if !u.Done? {
      StepRecords(s, Base(b), u.id);
      StepRecords(t, Base(b), u.id);
      WroteAlike(s, t, Base(b), u.id);
    }
  }

  lemma BaseAlike(s: System, t: System, b: Probes.Step)
    requires Inv(s) && Inv(t) && Alike(s, t)
    ensures Alike(Do(s, Base(b)), Do(t, Base(b)))
  {
    Probes.StepAlike(s.base, t.base, b);
    BaseProbesAlike(s.base, t.base, b);
    forall i | 0 <= i < |s.queries| ensures Blind(Do(s, Base(b)), Do(t, Base(b)), s.queries[i]) {
      BaseBlind(s, t, b, s.queries[i]);
    }
  }

  lemma AskAlike(s: System, t: System, name: string, q: QType)
    requires Inv(s) && Alike(s, t)
    ensures Alike(Do(s, Ask(name, q)), Do(t, Ask(name, q)))
  {
    var n := ToLower(name);
    if n in s.base.zones {
      var id := s.base.zones[n];
      assert Probes.InTable(s.base, id);
      assert Probes.AlikeEntries(s.base, id, s.base.heap[id], t.base.heap[id]);
    }
    var s', t' := Do(s, Ask(name, q)), Do(t, Ask(name, q));
    forall i | 0 <= i < |s'.queries| ensures Blind(s', t', s'.queries[i]) {
      if i < |s.queries| { assert Blind(s, t, s.queries[i]); }
    }
  }

  lemma NextAlike(s: System, t: System, i: nat)
    requires Alike(s, t)
    ensures Alike(Do(s, Next(i)), Do(t, Next(i)))
  {
    if i < |s.queries| && !s.queries[i].Done? {
      var u := s.queries[i];
      assert Blind(s, t, u);
      AdvanceBlind(u, RecordsOf(s.base, u.id), RecordsOf(t.base, u.id), s.parses);
      var s', t' := Do(s, Next(i)), Do(t, Next(i));
      forall j | 0 <= j < |s'.queries| ensures Blind(s', t', s'.queries[j]) {
        assert Blind(s, t, s.queries[j]);
      }
    }
  }

  lemma {:induction false} RunAlike(s: System, t: System, steps: seq<Step>)
    requires Inv(s) && Inv(t) && Alike(s, t)
    ensures Alike(Run(s, steps), Run(t, steps))
    decreases |steps|
  {
    if steps != [] {
      match steps[0] {
        case Base(b) => BaseAlike(s, t, b);
        case Ask(name, q) => AskAlike(s, t, name, q);
        case Next(i) => NextAlike(s, t, i);
      }
      StepInv(s, steps[0]);
      StepInv(t, steps[0]);
      RunAlike(Do(s, steps[0]), Do(t, steps[0]), steps[1..]);
    }
  }

  /** A client of one of the systems gets what the same client of the other does not. */
  ghost predicate Differ(s: System, t: System, steps: seq<Step>, i: nat) {
    Result(Run(s, steps), i) != Result(Run(t, steps), i)
  }

  /** Before the third read: the answers themselves differ. */
  lemma TimedTells(s: System, t: System, i: nat)
    requires i < |s.queries| && s.queries == t.queries && s.parses == t.parses && s.queries[i].Timed?
    requires Tells(s.queries[i], RecordsOf(s.base, s.queries[i].id), RecordsOf(t.base, s.queries[i].id), s.parses)
    ensures Differ(s, t, [Next(i)], i)
  {
    var u := s.queries[i];
    RunOne(s, Next(i));
    RunOne(t, Next(i));
    AnswersAlike(RecordsOf(s.base, u.id), RecordsOf(t.base, u.id), u.name, u.q, s.parses, u.ttl);
  }

  lemma RunCons(s: System, step: Step, steps: seq<Step>)
    ensures Run(s, [step] + steps) == Run(Do(s, step), steps)
  {
    assert ([step] + steps)[1..] == steps;
  }

  /** Before it, with the time to live taken from different records: a refresh shows it. */
  lemma TtlShows(s: System, i: nat, id: Probes.Id)
    requires i < |s.queries| && s.queries[i].Timed? && s.queries[i].id == id < |s.base.heap|
    ensures Result(Run(s, Refresh(s, id) + [Next(i)]), i)
         == Some(Response(Success, [Answer(s.queries[i].name, CNAME, "", s.queries[i].ttl)]))
  {
    var u := s.queries[i];
    Refreshed(s, id);
    RunConcat(s, Refresh(s, id), [Next(i)]);
    RunOne(Run(s, Refresh(s, id)), Next(i));
    AliasAnswers(u.name, u.q, s.parses, u.ttl);
  }

  /** Before the second read. */
  lemma CheckedTells(s: System, t: System, i: nat) returns (steps: seq<Step>)
    requires i < |s.queries| && s.queries == t.queries && s.parses == t.parses && s.queries[i].Checked?
    requires s.base.probes == t.base.probes && s.queries[i].id < |s.base.heap| && s.queries[i].id < |t.base.heap|
    requires Tells(s.queries[i], RecordsOf(s.base, s.queries[i].id), RecordsOf(t.base, s.queries[i].id), s.parses)
    ensures Differ(s, t, steps, i)
  {
    var u := s.queries[i];
    var s1, t1 := Do(s, Next(i)), Do(t, Next(i));
    var later;
    if TtlOf(RecordsOf(s.base, u.id)) != TtlOf(RecordsOf(t.base, u.id)) {
      TtlShows(s1, i, u.id);
      TtlShows(t1, i, u.id);
      later := Refresh(s1, u.id) + [Next(i)];
    } else {
      assert s1.queries == t1.queries;
      TimedTells(s1, t1, i);
      later := [Next(i)];
    }
    steps := [Next(i)] + later;
    RunCons(s, Next(i), later);
    RunCons(t, Next(i), later);
  }

  /** Before the first read. */
  lemma HoldingTells(s: System, t: System, i: nat) returns (steps: seq<Step>)
    requires i < |s.queries| && s.queries == t.queries && s.parses == t.parses && s.queries[i].Holding?
    requires s.base.probes == t.base.probes && s.queries[i].id < |s.base.heap| && s.queries[i].id < |t.base.heap|
    requires Tells(s.queries[i], RecordsOf(s.base, s.queries[i].id), RecordsOf(t.base, s.queries[i].id), s.parses)
    ensures Differ(s, t, steps, i)
  {
    var u := s.queries[i];
    var s1, t1 := Do(s, Next(i)), Do(t, Next(i));
    if (RecordsOf(s.base, u.id) == []) != (RecordsOf(t.base, u.id) == []) {
      RunOne(s, Next(i));
      RunOne(t, Next(i));
      steps := [Next(i)];
    } else {
      assert s1.queries == t1.queries;
      var later := CheckedTells(s1, t1, i);
      RunCons(s, Next(i), later);
      RunCons(t, Next(i), later);
      steps := [Next(i)] + later;
    }
  }

  /** A probe finishes for an entry that has left the table; had it failed, the entry would
      have kept its records. Over all continuations, some client gets something else
      because of it exactly when a query that already holds the entry can tell the new
      records from the old; queries of other entries, and all that come later, never
      see them. */
  lemma StaleFinishSeenIff(s: System, p: nat, rtts: seq<int>, order: seq<int>, best: int,
                           kept: System, written: System)
    requires Inv(s) && p < |s.base.probes| && !Probes.InTable(s.base, s.base.probes[p].id)
    requires s.base.probes[p].phase.Answered? && Probes.Pinged(s.base.probes[p].phase.answer, rtts, order, best)
    requires kept == Do(s, Base(Probes.FailProbe(p)))
    requires written == Do(s, Base(Probes.FinishProbe(p, rtts, order, best)))
    ensures (exists steps, i :: Differ(kept, written, steps, i)) <==> SomeoneTells(s, p, rtts, order, best)
  {
    var id := s.base.probes[p].id;
    StepInv(s, Base(Probes.FailProbe(p)));
    StepInv(s, Base(Probes.FinishProbe(p, rtts, order, best)));
    StaleDiffer(s, p, rtts, order, best, kept, written);
    if SomeoneTells(s, p, rtts, order, best) {
      var i: nat :| i < |s.queries| && CanTell(s, p, rtts, order, best, i);
      var steps;
      match s.queries[i] {
        case Holding(_, _, _) => steps := HoldingTells(kept, written, i);
        case Checked(_, _, _) => steps := CheckedTells(kept, written, i);
        case Timed(_, _, _, _) => TimedTells(kept, written, i); steps := [Next(i)];
      }
      assert Differ(kept, written, steps, i);
    } else {
      forall i | 0 <= i < |kept.queries| ensures Blind(kept, written, kept.queries[i]) {
        assert !CanTell(s, p, rtts, order, best, i);
      }
      forall steps, i ensures !Differ(kept, written, steps, i) {
        RunAlike(kept, written, steps);
      }
    }
  }

  /** Query `i` holds the probe's entry and can tell its selection from what is there. */
  ghost predicate CanTell(s: System, p: nat, rtts: seq<int>, order: seq<int>, best: int, i: nat)
    requires p < |s.base.probes| && i < |s.queries|
    requires s.base.probes[p].phase.Answered? && Probes.Pinged(s.base.probes[p].phase.answer, rtts, order, best)
  {
    var u, id := s.queries[i], s.base.probes[p].id;
    !u.Done? && u.id == id
    && Tells(u, RecordsOf(s.base, id), Probes.Selected(s.base.probes[p].phase.answer, rtts, order, best), s.parses)
  }

  ghost predicate SomeoneTells(s: System, p: nat, rtts: seq<int>, order: seq<int>, best: int)
    requires p < |s.base.probes|
    requires s.base.probes[p].phase.Answered? && Probes.Pinged(s.base.probes[p].phase.answer, rtts, order, best)
  {
    exists i: nat :: i < |s.queries| && CanTell(s, p, rtts, order, best, i)
  }

  lemma StaleDiffer(s: System, p: nat, rtts: seq<int>, order: seq<int>, best: int, kept: System, written: System)
    requires Inv(s) && p < |s.base.probes| && !Probes.InTable(s.base, s.base.probes[p].id)
    requires s.base.probes[p].phase.Answered? && Probes.Pinged(s.base.probes[p].phase.answer, rtts, order, best)
    requires kept == Do(s, Base(Probes.FailProbe(p)))
    requires written == Do(s, Base(Probes.FinishProbe(p, rtts, order, best)))
    ensures Probes.Alike(kept.base, written.base) && kept.base.probes == written.base.probes
    ensures kept.queries == s.queries == written.queries && kept.parses == s.parses == written.parses
    ensures forall j: nat :: RecordsOf(kept.base, j) == RecordsOf(s.base, j)
    ensures forall j: nat :: RecordsOf(written.base, j)
              == if j == s.base.probes[p].id then Probes.Selected(s.base.probes[p].phase.answer, rtts, order, best)
                 else RecordsOf(s.base, j)
  {
    assert Probes.Faithful(s.base, s.base.probes[p]);
    assert forall i :: Probes.InTable(kept.base, i) <==> Probes.InTable(s.base, i);
  }

  /** A server that has just started. */
  function Started(parses: string -> bool): System {
    System(Probes.System([], map[], [], {}), [], parses)
  }

  lemma StartedMeetsInv(parses: string -> bool)
    ensures Inv(Started(parses))
  {
    Probes.EmptyMeetsInv();
  }

  /** Up to the rebuild that drops the entry: a query holds it and a probe of it is out. */
  lemma EntryDropped(f: File, z: Zone, name: string, q: QType, parses: string -> bool, e: System)
    requires f.zones == [z] && Wanted(z) && ToLower(name) == Fqdn(z.name)
    requires e == Run(Run(Started(parses), [Base(Probes.Rebuild(Some(f))), Base(Probes.StartProbe(0)),
                                            Base(Probes.AnswerProbe(0, [Alias()]))]),
                      [Ask(name, q), Base(Probes.Rebuild(None))])
    ensures Inv(e) && e.base.zones == map[] && e.parses == parses && e.queries == [Holding(0, name, q)]
    ensures |e.base.heap| == 1 && |e.base.probes| == 1
    ensures e.base.probes[0].id == 0 && e.base.probes[0].phase == Probes.Answered([Alias()])
  {
    var s0 := Started(parses);
    StartedMeetsInv(parses);
    var s1 := Do(s0, Base(Probes.Rebuild(Some(f))));
    var s2 := Do(s1, Base(Probes.StartProbe(0)));
    var s3 := Do(s2, Base(Probes.AnswerProbe(0, [Alias()])));
    var s4 := Do(s3, Ask(name, q));
    RunThree(s0, Base(Probes.Rebuild(Some(f))), Base(Probes.StartProbe(0)), Base(Probes.AnswerProbe(0, [Alias()])));
    RunTwo(s3, Ask(name, q), Base(Probes.Rebuild(None)));
    StepInv(s0, Base(Probes.Rebuild(Some(f))));
    StepInv(s1, Base(Probes.StartProbe(0)));
    StepInv(s2, Base(Probes.AnswerProbe(0, [Alias()])));
    StepInv(s3, Ask(name, q));
    StepInv(s4, Base(Probes.Rebuild(None)));
    OneZoneTable(s0.base, z);
  }

  lemma OneZoneTable(b: Probes.System, z: Zone)
    requires b.heap == [] && b.zones == map[] && Wanted(z)
    ensures var (heap, zones) := Probes.Table(b, [z]);
            heap == [Probes.Entry(Fqdn(z.name), ProbeUpstream(z), Interval(z), [])] && zones == map[Fqdn(z.name) := 0]
  {
    assert [z][..0] == [];
    assert Probes.Table(b, []) == ([], map[]);
  }

  lemma RunTwo(s: System, a: Step, b: Step)
    ensures Run(s, [a, b]) == Do(Do(s, a), b)
  {
    assert [a, b][1..] == [b];
    RunOne(Do(s, a), b);
  }

  /** From the start: a zone is configured and probed, a question finds its entry, the zone
      goes, the probe finishes. The table is empty, and the question is answered with
      what the stale probe brought. */
  lemma StaleProbeSeen(f: File, z: Zone, name: string, q: QType, parses: string -> bool, s: System, e: System)
    requires f.zones == [z] && Wanted(z) && ToLower(name) == Fqdn(z.name)
    requires s == Run(Run(Started(parses), [Base(Probes.Rebuild(Some(f))), Base(Probes.StartProbe(0)),
                                            Base(Probes.AnswerProbe(0, [Alias()]))]),
                      [Ask(name, q), Base(Probes.Rebuild(None))])
    requires e == Run(Do(s, Base(Probes.FinishProbe(0, [], [], 0))), [Next(0), Next(0), Next(0)])
    ensures e.base.zones == map[] && Result(e, 0) == Some(Response(Success, [Answer(name, CNAME, "", 5)]))
  {
    EntryDropped(f, z, name, q, parses, s);
    AliasSelected();
    var t := Do(s, Base(Probes.FinishProbe(0, [], [], 0)));
    assert RecordsOf(t.base, 0) == [Alias()];
    RunThree(t, Next(0), Next(0), Next(0));
    AliasTtl();
    AliasAnswers(name, q, parses, 5);
  }

  lemma AliasTtl()
    ensures TtlOf([Alias()]) == 5
  {
    assert [Alias()][..0] == [];
  }
}
