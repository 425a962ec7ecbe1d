/** What a probe stores and what a query is answered with
    (internal/unbound/proxy/proxy.go). */
module Selection {
  import opened Text
  import opened Pinger
  import opened Order

  datatype RType = A | AAAA | CNAME

  datatype LatencyRecord = LatencyRecord(target: string, rtype: RType, value: string, ttl: nat, rtt: int)

  predicate IsAddress(r: LatencyRecord) {
    r.rtype.A? || r.rtype.AAAA?
  }

  function Addresses(rs: seq<LatencyRecord>): seq<string> {
    if rs == [] then []
    else
      var n := |rs| - 1;
      Addresses(rs[..n]) + (if IsAddress(rs[n]) then [rs[n].value] else [])
  }

  lemma {:induction false} AddressesMembers(rs: seq<LatencyRecord>, v: string)
    ensures v in Addresses(rs) <==> exists r :: r in rs && IsAddress(r) && r.value == v
  {
    if rs != [] {
      var n := |rs| - 1;
      AddressesMembers(rs[..n], v);
      assert forall r :: r in rs <==> r in rs[..n] || r == rs[n];
    }
  }

  /** A record with its measured round trip. */
  function Tag(r: LatencyRecord, res: map<string, int>): LatencyRecord {
    if IsAddress(r) && r.value in res then r.(rtt := res[r.value]) else r
  }

  function TagAll(rs: seq<LatencyRecord>, res: map<string, int>): (ts: seq<LatencyRecord>)
    ensures |ts| == |rs| && forall i :: 0 <= i < |rs| ==> ts[i] == Tag(rs[i], res)
  {
    seq(|rs|, i requires 0 <= i < |rs| => Tag(rs[i], res))
  }

  predicate Survives(r: LatencyRecord, best: int) {
    r.rtype.CNAME? || r.rtt == best
  }

  function Survivors(rs: seq<LatencyRecord>, best: int): seq<LatencyRecord> {
    if rs == [] then []
    else
      var n := |rs| - 1;
      Survivors(rs[..n], best) + (if Survives(rs[n], best) then [rs[n]] else [])
  }

  lemma {:induction false} SurvivorsMembers(rs: seq<LatencyRecord>, best: int)
    ensures forall r :: r in Survivors(rs, best) <==> r in rs && Survives(r, best)
  {
    if rs != [] {
      var n := |rs| - 1;
      SurvivorsMembers(rs[..n], best);
      assert forall r :: r in rs <==> r in rs[..n] || r == rs[n];
    }
  }

  /** What the probe stores, given the shared map and the minimum. */
  function Stored(rs: seq<LatencyRecord>, res: map<string, int>, best: int): seq<LatencyRecord> {
    if best <= 0 then TagAll(rs, res) else Survivors(TagAll(rs, res), best)
  }

  method ListAddresses(rs: seq<LatencyRecord>) returns (ips: seq<string>)
    ensures ips == Addresses(rs)
  {
    ips := [];
    for i := 0 to |rs|
      invariant ips == Addresses(rs[..i])
    {
      assert rs[..i + 1][..i] == rs[..i];
      if rs[i].rtype.A? || rs[i].rtype.AAAA? {
        ips := ips + [rs[i].value];
      }
    }
    assert rs[..|rs|] == rs;
  }

  /** The part of a probe after the upstream answered. */
  method Rank(rs: seq<LatencyRecord>, rtts: seq<int>)
    returns (stored: seq<LatencyRecord>, best: int, ghost order: seq<int>)
    requires |rtts| == |Addresses(rs)|
    ensures IsOrder(order, |rtts|) && IsBest(rtts, best)
    ensures stored == Stored(rs, Completed(map[], Addresses(rs), rtts, order), best)
  {
    var ips := ListAddresses(rs);
    var res;
    res, best, order := ConcurrentPinger(ips, rtts);
    var tagged := rs;
    for i := 0 to |rs|
      invariant |tagged| == |rs|
      invariant forall k :: 0 <= k < i ==> tagged[k] == Tag(rs[k], res)
      invariant forall k :: i <= k < |rs| ==> tagged[k] == rs[k]
    {
      var r := tagged[i];
      if (r.rtype.A? || r.rtype.AAAA?) && r.value in res {
        tagged := tagged[i := r.(rtt := res[r.value])];
      }
    }
    assert tagged == TagAll(rs, res);
    if best <= 0 {
      return tagged, best, order;
    }
    stored := [];
    for i := 0 to |tagged|
      invariant stored == Survivors(tagged[..i], best)
    {
      assert tagged[..i + 1][..i] == tagged[..i];
      if tagged[i].rtype.CNAME? || tagged[i].rtt == best {
        stored := stored + [tagged[i]];
      }
    }
    assert tagged[..|tagged|] == tagged;
  }

  function IndexOf(addrs: seq<string>, v: string): (i: nat)
    requires v in addrs
    ensures i < |addrs| && addrs[i] == v
  {
    if addrs[0] == v then 0 else 1 + IndexOf(addrs[1..], v)
  }

  /** The record with the round trip of its own address: no goroutines involved. */
  function Measured(rs: seq<LatencyRecord>, rtts: seq<int>, r: LatencyRecord): LatencyRecord
    requires |rtts| == |Addresses(rs)|
  {
    if IsAddress(r) && r.value in Addresses(rs) then r.(rtt := rtts[IndexOf(Addresses(rs), r.value)]) else r
  }

  function MeasuredAll(rs: seq<LatencyRecord>, rtts: seq<int>): (ts: seq<LatencyRecord>)
    requires |rtts| == |Addresses(rs)|
    ensures |ts| == |rs| && forall i :: 0 <= i < |rs| ==> ts[i] == Measured(rs, rtts, rs[i])
  {
    seq(|rs|, i requires 0 <= i < |rs| => Measured(rs, rtts, rs[i]))
  }

  lemma TaggedIsMeasured(rs: seq<LatencyRecord>, rtts: seq<int>, order: seq<int>)
    requires |rtts| == |Addresses(rs)| && DistinctAddrs(Addresses(rs)) && IsOrder(order, |rtts|)
    ensures TagAll(rs, Completed(map[], Addresses(rs), rtts, order)) == MeasuredAll(rs, rtts)
  {
    var addrs := Addresses(rs);
    var res := Completed(map[], addrs, rtts, order);
    forall i | 0 <= i < |rs| ensures Tag(rs[i], res) == Measured(rs, rtts, rs[i]) {
      if IsAddress(rs[i]) {
        AddressesMembers(rs, rs[i].value);
        assert rs[i] in rs;
        DistinctOrderIrrelevant(addrs, rtts, order, IndexOf(addrs, rs[i].value));
      }
    }
  }

  /** Least-latency selection with distinct addresses, whatever the order in which
      the pings finish: when some ping succeeded the stored records are, in
      order, the aliases and the addresses at the minimum positive round trip, of
      which there is at least one; when none did, every record stays. */
  lemma LeastLatencySelection(rs: seq<LatencyRecord>, rtts: seq<int>, order: seq<int>, best: int)
    requires |rtts| == |Addresses(rs)| && DistinctAddrs(Addresses(rs)) && IsOrder(order, |rtts|)
    requires IsBest(rtts, best)
    ensures var s := Stored(rs, Completed(map[], Addresses(rs), rtts, order), best);
            if exists i :: 0 <= i < |rtts| && rtts[i] > 0 then
              best > 0 && s == Survivors(MeasuredAll(rs, rtts), best)
              && exists r :: r in s && IsAddress(r) && r.rtt == best
            else s == MeasuredAll(rs, rtts)
  {
    TaggedIsMeasured(rs, rtts, order);
    if best > 0 {
      BestAddressMeasured(rs, rtts, best);
      SurvivorsMembers(MeasuredAll(rs, rtts), best);
    }
  }

  /** So two probes of the same reply with the same round trips store the same records,
      in whatever orders their pings finish. */
  lemma ScheduleLeavesNoTrace(rs: seq<LatencyRecord>, rtts: seq<int>, order: seq<int>, best: int,
                              order': seq<int>, best': int)
    requires |rtts| == |Addresses(rs)| && DistinctAddrs(Addresses(rs))
    requires IsOrder(order, |rtts|) && IsOrder(order', |rtts|) && IsBest(rtts, best) && IsBest(rtts, best')
    ensures Stored(rs, Completed(map[], Addresses(rs), rtts, order), best)
         == Stored(rs, Completed(map[], Addresses(rs), rtts, order'), best')
  {
    BestIsUnique(rtts, best, best');
    TaggedIsMeasured(rs, rtts, order);
    TaggedIsMeasured(rs, rtts, order');
  }

  lemma BestAddressMeasured(rs: seq<LatencyRecord>, rtts: seq<int>, best: int)
    requires |rtts| == |Addresses(rs)| && DistinctAddrs(Addresses(rs)) && best in rtts
    ensures exists r :: r in MeasuredAll(rs, rtts) && IsAddress(r) && r.rtt == best
  {
    var addrs := Addresses(rs);
    var k :| 0 <= k < |rtts| && rtts[k] == best;
    AddressesMembers(rs, addrs[k]);
    var r :| r in rs && IsAddress(r) && r.value == addrs[k];
    assert IndexOf(addrs, r.value) == k;
    var i :| 0 <= i < |rs| && rs[i] == r;
    assert MeasuredAll(rs, rtts)[i].rtt == best;
  }

  /** With repeated addresses an address record survives a completion order exactly
      when the shared map ends with the best time for some address. */
  lemma SurvivalIsKept(rs: seq<LatencyRecord>, rtts: seq<int>, order: seq<int>, best: int)
    requires |rtts| == |Addresses(rs)| && IsOrder(order, |rtts|) && best > 0
    ensures (exists r :: r in Stored(rs, Completed(map[], Addresses(rs), rtts, order), best) && IsAddress(r))
       <==> KeepsSome(Addresses(rs), rtts, best, order)
  {
    var addrs := Addresses(rs);
    var res := Completed(map[], addrs, rtts, order);
    var tagged := TagAll(rs, res);
    SurvivorsMembers(tagged, best);
    if r :| r in Survivors(tagged, best) && IsAddress(r) {
      var i :| 0 <= i < |rs| && tagged[i] == r;
      assert rs[i] in rs;
      AddressesMembers(rs, rs[i].value);
      var k := IndexOf(addrs, rs[i].value);
      CompletedValue(map[], addrs, rtts, order, addrs[k]);
      assert k in order;
    }
    if KeepsSome(addrs, rtts, best, order) {
      var k :| 0 <= k < |addrs| && addrs[k] in res && res[addrs[k]] == best;
      AddressesMembers(rs, addrs[k]);
      var r :| r in rs && IsAddress(r) && r.value == addrs[k];
      var i :| 0 <= i < |rs| && rs[i] == r;
      assert tagged[i] in tagged && Survives(tagged[i], best);
    }
  }

  // ----- answering

  datatype Rcode = Success | NameError | ServerFailure | FormatError

  datatype Answer = Answer(name: string, rtype: RType, value: string, ttl: nat)

  datatype QType = QA | QAAAA | QOther

  /** Aliases answer every question, addresses only their own type. */
  predicate Answers(r: LatencyRecord, q: QType, parses: string -> bool) {
    match r.rtype
    case A => q.QA? && parses(r.value)
    case AAAA => q.QAAAA? && parses(r.value)
    case CNAME => true
  }

  function AnswerSection(rs: seq<LatencyRecord>, name: string, q: QType, parses: string -> bool, ttl: nat): seq<Answer>
  {
    if rs == [] then []
    else
      var n := |rs| - 1;
      AnswerSection(rs[..n], name, q, parses, ttl)
      + (if Answers(rs[n], q, parses) then [Answer(name, rs[n].rtype, rs[n].value, ttl)] else [])
  }

  /** One time to live for the whole answer, as section 5.2 of RFC 2181 wants for a
      record set: at most a minute, and no longer than any cached positive one. */
  ghost predicate CommonTtl(rs: seq<LatencyRecord>, ttl: nat) {
    1 <= ttl <= 60
    && (forall i :: 0 <= i < |rs| && rs[i].ttl > 0 ==> ttl <= rs[i].ttl)
    && (ttl == 60 || exists i :: 0 <= i < |rs| && rs[i].ttl == ttl)
  }

  function TtlOf(rs: seq<LatencyRecord>): nat {
    if rs == [] then 60
    else
      var n := |rs| - 1;
      var ttl := TtlOf(rs[..n]);
      if 0 < rs[n].ttl < ttl then rs[n].ttl else ttl
  }

  lemma {:induction false} TtlOfIsCommon(rs: seq<LatencyRecord>)
    ensures CommonTtl(rs, TtlOf(rs))
  {
    if rs != [] {
      var n := |rs| - 1;
      TtlOfIsCommon(rs[..n]);
      assert forall i :: 0 <= i < n ==> rs[..n][i] == rs[i];
    }
  }

  /** The conditions leave no choice. */
  lemma CommonTtlIs(rs: seq<LatencyRecord>, ttl: nat)
    ensures CommonTtl(rs, ttl) <==> ttl == TtlOf(rs)
  {
    TtlOfIsCommon(rs);
  }

  /** What the three reads of an entry's records find. The source makes them one after
      the other without the lock, so they need not agree. */
  datatype Reads = Reads(checked: seq<LatencyRecord>, timed: seq<LatencyRecord>, answered: seq<LatencyRecord>)

  /** All three reads find the same. */
  function Once(rs: seq<LatencyRecord>): Reads {
    Reads(rs, rs, rs)
  }

  datatype Response = Response(rcode: Rcode, answer: seq<Answer>)

  /** The response that goes with an answer section. */
  function Finished(answer: seq<Answer>): Response {
    Response(if answer == [] then NameError else Success, answer)
  }

  function Failure(): Response {
    Response(ServerFailure, [])
  }

  function Reply(got: Option<Reads>, name: string, q: QType, parses: string -> bool): Response {
    if got.None? || got.value.checked == [] then Failure()
    else Finished(AnswerSection(got.value.answered, name, q, parses, TtlOf(got.value.timed)))
  }

  /** One question, given what the reads find (nothing when the zone is unknown): the time
      to live is common to the records of the second read, the answers are those of
      the third. */
  method Handle(got: Option<Reads>, name: string, q: QType, parses: string -> bool)
    returns (rcode: Rcode, answer: seq<Answer>)
    ensures got.None? || got.value.checked == [] ==> rcode == ServerFailure && answer == []
    ensures got.Some? && got.value.checked != [] ==>
            (exists ttl :: CommonTtl(got.value.timed, ttl)
                           && answer == AnswerSection(got.value.answered, name, q, parses, ttl))
            && rcode == if answer == [] then NameError else Success
    ensures Response(rcode, answer) == Reply(got, name, q, parses)
  {
    if got.None? { return ServerFailure, []; }
    if |got.value.checked| == 0 { return ServerFailure, []; }
    var rs := got.value.timed;
    var ttl: nat := 60;
    for i := 0 to |rs|
      invariant CommonTtl(rs[..i], ttl)
    {
      if rs[i].ttl > 0 && rs[i].ttl < ttl {
        ttl := rs[i].ttl;
      }
      assert rs[..i + 1][i] == rs[i];
    }
    assert rs[..|rs|] == rs;
    CommonTtlIs(rs, ttl);
    rs := got.value.answered;
    answer := [];
    for i := 0 to |rs|
      invariant answer == AnswerSection(rs[..i], name, q, parses, ttl)
    {
      assert rs[..i + 1][..i] == rs[..i];
      if Answers(rs[i], q, parses) {
        answer := answer + [Answer(name, rs[i].rtype, rs[i].value, ttl)];
      }
    }
    assert rs[..|rs|] == rs;
    rcode := if |answer| == 0 then NameError else Success;
  }

  /** Every record of an answer carries the same time to live. */
  lemma {:induction false} AnswerTtlIsCommon(
      rs: seq<LatencyRecord>, name: string, q: QType, parses: string -> bool, ttl: nat)
    ensures forall a :: a in AnswerSection(rs, name, q, parses, ttl) ==> a.ttl == ttl && a.name == name
    ensures forall a :: a in AnswerSection(rs, name, q, parses, ttl) ==>
              exists r :: r in rs && Answers(r, q, parses) && r.rtype == a.rtype && r.value == a.value
  {
    if rs != [] {
      var n := |rs| - 1;
      AnswerTtlIsCommon(rs[..n], name, q, parses, ttl);
      assert forall r :: r in rs <==> r in rs[..n] || r == rs[n];
    }
  }

  /** Only the time to live of the answers depends on the time to live. */
  lemma {:induction false} AnswersRetimed(
      rs: seq<LatencyRecord>, name: string, q: QType, parses: string -> bool, ttl: nat)
    ensures var a, b := AnswerSection(rs, name, q, parses, 0), AnswerSection(rs, name, q, parses, ttl);
            |a| == |b| && forall i :: 0 <= i < |a| ==> b[i] == a[i].(ttl := ttl) && a[i] == b[i].(ttl := 0)
  {
    if rs != [] {
      AnswersRetimed(rs[..|rs| - 1], name, q, parses, ttl);
    }
  }

  /** Two caches answer alike at one time to live exactly when they do at another. */
  lemma AnswersAlike(
      a: seq<LatencyRecord>, b: seq<LatencyRecord>, name: string, q: QType, parses: string -> bool, ttl: nat)
    ensures AnswerSection(a, name, q, parses, ttl) == AnswerSection(b, name, q, parses, ttl)
       <==> AnswerSection(a, name, q, parses, 0) == AnswerSection(b, name, q, parses, 0)
  {
    AnswersRetimed(a, name, q, parses, ttl);
    AnswersRetimed(b, name, q, parses, ttl);
    var a0, b0 := AnswerSection(a, name, q, parses, 0), AnswerSection(b, name, q, parses, 0);
    var a1, b1 := AnswerSection(a, name, q, parses, ttl), AnswerSection(b, name, q, parses, ttl);
    if a1 == b1 {
      forall i | 0 <= i < |a0| ensures a0[i] == b0[i] { assert a1[i] == b1[i]; }
    }
  }

  /** Answers with different times to live are the same only when there are none. */
  lemma AnswersApart(rs: seq<LatencyRecord>, name: string, q: QType, parses: string -> bool, ttl: nat, ttl': nat)
    requires ttl != ttl'
    ensures AnswerSection(rs, name, q, parses, ttl) == AnswerSection(rs, name, q, parses, ttl')
       <==> AnswerSection(rs, name, q, parses, 0) == []
  {
    AnswersRetimed(rs, name, q, parses, ttl);
    AnswersRetimed(rs, name, q, parses, ttl');
    var a, b := AnswerSection(rs, name, q, parses, ttl), AnswerSection(rs, name, q, parses, ttl');
    if a != [] {
      assert a[0].ttl == ttl && b[0].ttl == ttl';
    }
  }

  /** A question that found records at first is answered as from the last ones it read,
      as if by one read, exactly when these are not empty and have the same common
      time to live as those it took it from, or give no answers. */
  lemma TornReplyIff(got: Reads, name: string, q: QType, parses: string -> bool)
    requires got.checked != []
    ensures Reply(Some(got), name, q, parses) == Reply(Some(Once(got.answered)), name, q, parses)
       <==> got.answered != []
            && (TtlOf(got.timed) == TtlOf(got.answered) || AnswerSection(got.answered, name, q, parses, 0) == [])
  {
    var last := got.answered;
    if TtlOf(got.timed) != TtlOf(last) {
      AnswersApart(last, name, q, parses, TtlOf(got.timed), TtlOf(last));
    }
  }

  // ----- the same in types, times and positions

  /** Which records answer: aliases always, addresses that parse when their own type is
      asked for. */
  predicate Fits(r: LatencyRecord, q: QType, parses: string -> bool) {
    r.rtype == CNAME
    || (r.rtype == A && q == QA && parses(r.value))
    || (r.rtype == AAAA && q == QAAAA && parses(r.value))
  }

  /** The answers that go with some records. */
  ghost predicate AnswersOf(answer: seq<Answer>, ys: seq<LatencyRecord>, name: string, ttl: nat) {
    |answer| == |ys| && forall i :: 0 <= i < |ys| ==> answer[i] == Answer(name, ys[i].rtype, ys[i].value, ttl)
  }

  lemma AnswerSnoc(rs: seq<LatencyRecord>, r: LatencyRecord, name: string, q: QType, parses: string -> bool,
                   ttl: nat, ys: seq<LatencyRecord>)
    requires AnswersOf(AnswerSection(rs, name, q, parses, ttl), ys, name, ttl)
    ensures AnswersOf(AnswerSection(rs + [r], name, q, parses, ttl),
                      if Fits(r, q, parses) then ys + [r] else ys, name, ttl)
  {
    assert (rs + [r])[..|rs|] == rs;
  }

  /** The answers are the fitting records in order, under the name asked for. */
  lemma {:induction false} AnswersPick(
      rs: seq<LatencyRecord>, name: string, q: QType, parses: string -> bool, ttl: nat) returns (ys: seq<LatencyRecord>)
    ensures Picked(rs, r => Fits(r, q, parses), ys)
    ensures AnswersOf(AnswerSection(rs, name, q, parses, ttl), ys, name, ttl)
  {
    ys := [];
    if rs == [] {
      PickedNone((r: LatencyRecord) => Fits(r, q, parses));
    } else {
      var before, r := rs[..|rs| - 1], rs[|rs| - 1];
      assert before + [r] == rs;
      var zs := AnswersPick(before, name, q, parses, ttl);
      PickedSnoc(before, r, x => Fits(x, q, parses), zs);
      AnswerSnoc(before, r, name, q, parses, ttl, zs);
      ys := if Fits(r, q, parses) then zs + [r] else zs;
    }
  }

  /** An address is answered only to questions of its type. */
  lemma AnswersByType(rs: seq<LatencyRecord>, name: string, q: QType, parses: string -> bool, ttl: nat)
    ensures forall a :: a in AnswerSection(rs, name, q, parses, ttl) ==>
              (a.rtype == A ==> q == QA) && (a.rtype == AAAA ==> q == QAAAA)
  {
    var ys := AnswersPick(rs, name, q, parses, ttl);
    PickedMembers(rs, r => Fits(r, q, parses), ys);
    forall a | a in AnswerSection(rs, name, q, parses, ttl)
      ensures (a.rtype == A ==> q == QA) && (a.rtype == AAAA ==> q == QAAAA)
    {
      var i :| 0 <= i < |ys| && AnswerSection(rs, name, q, parses, ttl)[i] == a;
      assert ys[i] in ys;
    }
  }

  /** The time to live of an answer is the least positive one cached, capped at a minute. */
  lemma TtlIsLeast(rs: seq<LatencyRecord>)
    ensures 0 < TtlOf(rs) <= 60
    ensures forall i :: 0 <= i < |rs| && rs[i].ttl > 0 ==> TtlOf(rs) <= rs[i].ttl
    ensures TtlOf(rs) < 60 ==> exists i :: 0 <= i < |rs| && rs[i].ttl == TtlOf(rs)
  {
    TtlOfIsCommon(rs);
  }

  predicate Pingable(r: LatencyRecord) {
    r.rtype == A || r.rtype == AAAA
  }

  lemma AddressesSnoc(rs: seq<LatencyRecord>, r: LatencyRecord)
    ensures Addresses(rs + [r]) == if Pingable(r) then Addresses(rs) + [r.value] else Addresses(rs)
  {
    assert (rs + [r])[..|rs|] == rs;
  }

  ghost predicate ValuesOf(values: seq<string>, ys: seq<LatencyRecord>) {
    |values| == |ys| && forall i :: 0 <= i < |ys| ==> values[i] == ys[i].value
  }

  /** What is pinged: the values of the A and AAAA records, in order. */
  lemma {:induction false} AddressesPick(rs: seq<LatencyRecord>) returns (ys: seq<LatencyRecord>)
    ensures Picked(rs, r => Pingable(r), ys) && ValuesOf(Addresses(rs), ys)
  {
    ys := [];
    if rs == [] {
      PickedNone((r: LatencyRecord) => Pingable(r));
    } else {
      var before, r := rs[..|rs| - 1], rs[|rs| - 1];
      assert before + [r] == rs;
      var zs := AddressesPick(before);
      PickedSnoc(before, r, x => Pingable(x), zs);
      AddressesSnoc(before, r);
      ys := if Pingable(r) then zs + [r] else zs;
    }
  }

  /** An alias, or a record at the best time. */
  predicate Stays(r: LatencyRecord, best: int) {
    r.rtype == CNAME || r.rtt == best
  }

  lemma SurvivorsSnoc(rs: seq<LatencyRecord>, r: LatencyRecord, best: int)
    ensures Survivors(rs + [r], best) == if Stays(r, best) then Survivors(rs, best) + [r] else Survivors(rs, best)
  {
    assert (rs + [r])[..|rs|] == rs;
  }

  lemma {:induction false} SurvivorsPick(rs: seq<LatencyRecord>, best: int)
    ensures Picked(rs, r => Stays(r, best), Survivors(rs, best))
  {
    if rs == [] {
      PickedNone((r: LatencyRecord) => Stays(r, best));
    } else {
      var before, r := rs[..|rs| - 1], rs[|rs| - 1];
      assert before + [r] == rs;
      SurvivorsPick(before, best);
      PickedSnoc(before, r, x => Stays(x, best), Survivors(before, best));
      SurvivorsSnoc(before, r, best);
    }
  }

  /** What a probe stores: the reply with each address's measured time filled in; of that,
      when some ping succeeded, in order exactly the aliases and what took the best
      time. */
  lemma StoredPicks(rs: seq<LatencyRecord>, res: map<string, int>, best: int)
    ensures var tagged := TagAll(rs, res);
            && (forall i :: 0 <= i < |rs| ==>
                  tagged[i] == if rs[i].rtype != CNAME && rs[i].value in res then rs[i].(rtt := res[rs[i].value])
                               else rs[i])
            && (best <= 0 ==> Stored(rs, res, best) == tagged)
            && (best > 0 ==>
                  Picked(tagged, r => Stays(r, best), Stored(rs, res, best)))
  {
    SurvivorsPick(TagAll(rs, res), best);
  }

  /** With distinct addresses no stored address is slower than any that answered. */
  lemma StoredAreFastest(rs: seq<LatencyRecord>, rtts: seq<int>, order: seq<int>, best: int, r: LatencyRecord, j: nat)
    requires |rtts| == |Addresses(rs)| && DistinctAddrs(Addresses(rs)) && IsOrder(order, |rtts|)
    requires IsBest(rtts, best) && j < |rtts| && rtts[j] > 0
    requires r in Stored(rs, Completed(map[], Addresses(rs), rtts, order), best) && Pingable(r)
    ensures 0 < r.rtt <= rtts[j]
  {
    LeastLatencySelection(rs, rtts, order, best);
    SurvivorsPick(MeasuredAll(rs, rtts), best);
    PickedMembers(MeasuredAll(rs, rtts), x => Stays(x, best), Survivors(MeasuredAll(rs, rtts), best));
    BestIsLeast(rtts, best);
  }
}
