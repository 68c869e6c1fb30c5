/** The Sentinel service: its health loop, the monitors beside it, and what they feed the checker. */
module Sentinel {
  import opened Values
  import opened TopicLog
  import opened Invariants

  /** The fencing token variable of the environment, as `int()` sees it. */
  datatype RawToken = Unset | Unparsable | Parsed(n: int)

  /** What the concurrent tasks do between two ticks of the health loop. */
  datatype Activity =
    | Delivered(topic: string, seqNo: nat)  // an event monitor gets its next event
    | Telemetry(payload: Parsed)            // the tattle monitor gets its next event
    | CycleCall                             // someone calls run_check_cycle

  datatype Tick = Tick(before: seq<Activity>, env: RawToken)

  function TokensIn(raws: seq<RawToken>): seq<int> {
    if raws == [] then []
    else
      var front := TokensIn(raws[..|raws| - 1]);
      match raws[|raws| - 1]
      case Parsed(n) => front + [n]
      case _ => front
  }

  /** The samples of the variable: one at startup, then one at every third tick. */
  function Samples(start: RawToken, ticks: seq<Tick>): seq<RawToken> {
    if ticks == [] then [start]
    else
      var front := Samples(start, ticks[..|ticks| - 1]);
      if |ticks| % 3 == 0 then front + [ticks[|ticks| - 1].env] else front
  }

  function DeliveredOn(acts: seq<Activity>, topic: string): seq<int> {
    if acts == [] then []
    else
      var front, a := DeliveredOn(acts[..|acts| - 1], topic), acts[|acts| - 1];
      if a.Delivered? && a.topic == topic then front + [a.seqNo] else front
  }

  function CycleCalls(acts: seq<Activity>): nat {
    if acts == [] then 0
    else CycleCalls(acts[..|acts| - 1]) + if acts[|acts| - 1].CycleCall? then 1 else 0
  }

  predicate Accuses(payload: Parsed, masId: string) {
    payload.Value? && payload.json.Obj? && "masId" in payload.json.fields && payload.json.fields["masId"] == Str(masId)
  }

  function TattlesAgainst(acts: seq<Activity>, masId: string): seq<map<string, Json>> {
    if acts == [] then []
    else
      var front, a := TattlesAgainst(acts[..|acts| - 1], masId), acts[|acts| - 1];
      if a.Telemetry? && Accuses(a.payload, masId) then front + [a.payload.json.fields] else front
  }

  /** What the tattle monitor is to keep, told without reference to what it does: the objects
      whose field `masId` is this service, from positions `at` of the activity, in order, each
      as often as it came, and no other. */
  ghost predicate KeptFrom(acts: seq<Activity>, masId: string, kept: seq<map<string, Json>>, at: seq<nat>) {
    && |at| == |kept|
    && (forall i, j :: 0 <= i < j < |at| ==> at[i] < at[j])
    && (forall i :: 0 <= i < |at| ==>
                      at[i] < |acts| && acts[at[i]] == Telemetry(Value(Obj(kept[i])))
                      && "masId" in kept[i] && kept[i]["masId"] == Str(masId))
    && (forall k: nat, fields ::
          k < |acts| && acts[k] == Telemetry(Value(Obj(fields))) && "masId" in fields && fields["masId"] == Str(masId)
          ==> k in at)
  }

  lemma KeptSnoc(acts: seq<Activity>, a: Activity, masId: string, kept: seq<map<string, Json>>, at: seq<nat>)
    returns (more: seq<nat>)
    requires KeptFrom(acts, masId, kept, at)
    ensures KeptFrom(acts + [a], masId,
                     kept + if a.Telemetry? && Accuses(a.payload, masId) then [a.payload.json.fields] else [], more)
  {
    assert forall k: nat :: k < |acts| ==> (acts + [a])[k] == acts[k];
    if a.Telemetry? && Accuses(a.payload, masId) {
      more := at + [|acts|];
      assert a == Telemetry(Value(Obj(a.payload.json.fields)));
      assert forall k :: k in at ==> k in more;
      assert more[|at|] == |acts|;
    } else {
      more := at;
      assert kept + [] == kept;
    }
  }

  lemma {:induction false} TattlesExact(acts: seq<Activity>, masId: string) returns (at: seq<nat>)
    ensures KeptFrom(acts, masId, TattlesAgainst(acts, masId), at)
  {
    at := [];
    if acts != [] {
      var n := |acts| - 1;
      at := TattlesExact(acts[..n], masId);
      at := KeptSnoc(acts[..n], acts[n], masId, TattlesAgainst(acts[..n], masId), at);
      assert acts[..n] + [acts[n]] == acts;
    }
  }

  /** Services of different names never keep the same evidence. */
  lemma EvidenceIsPrivate(acts: seq<Activity>, one: string, other: string, m: map<string, Json>)
    requires one != other && m in TattlesAgainst(acts, one)
    ensures m !in TattlesAgainst(acts, other)
  {
    var at := TattlesExact(acts, one);
    var at' := TattlesExact(acts, other);
    var i :| 0 <= i < |TattlesAgainst(acts, one)| && TattlesAgainst(acts, one)[i] == m;
    assert m["masId"] == Str(one);
  }

  /** All activity up to now, in order. */
  function AllActivity(ticks: seq<Tick>): seq<Activity> {
    if ticks == [] then [] else AllActivity(ticks[..|ticks| - 1]) + ticks[|ticks| - 1].before
  }

  lemma ActivitySnoc(acts: seq<Activity>, a: Activity, topic: string, masId: string)
    ensures CycleCalls(acts + [a]) == CycleCalls(acts) + if a.CycleCall? then 1 else 0
    ensures DeliveredOn(acts + [a], topic) ==
            DeliveredOn(acts, topic) + if a.Delivered? && a.topic == topic then [a.seqNo] else []
    ensures TattlesAgainst(acts + [a], masId) ==
            TattlesAgainst(acts, masId) + if a.Telemetry? && Accuses(a.payload, masId) then [a.payload.json.fields] else []
  {
    assert (acts + [a])[..|acts|] == acts;
  }

  lemma TraceSnoc(trace: seq<Call>, c: Call, topic: string)
    ensures Tokens(trace + [c]) == Tokens(trace) + if c.CheckToken? then [c.token] else []
    ensures Seqs(trace + [c], topic) == Seqs(trace, topic) + if c.CheckOrder? && c.topic == topic then [c.seqNo] else []
    ensures MissingLeases(trace + [c]) ==
            MissingLeases(trace) + if c.CheckLease? && !c.present then [LeaseMissing(c.masId)] else []
    ensures Run(trace + [c]) == Invariants.Step(Run(trace), c)
  {
    assert (trace + [c])[..|trace|] == trace;
  }

  /** The checker has been fed exactly the activity and the samples, stream by stream. */
  ghost predicate Fed(trace: seq<Call>, acts: seq<Activity>, sampled: seq<RawToken>, masId: string) {
    && Tokens(trace) == TokensIn(sampled)
    && (forall topic :: Seqs(trace, topic) == DeliveredOn(acts, topic))
    && MissingLeases(trace) == []
    && Run(trace).tattles == TattlesAgainst(acts, masId)
  }

  function CallsFor(a: Activity, masId: string): seq<Call> {
    match a
    case CycleCall => []
    case Delivered(topic, seqNo) => [CheckOrder(topic, seqNo)]
    case Telemetry(payload) => if Accuses(payload, masId) then [RecordTattle(payload.json.fields)] else []
  }

  function CallsForSample(raw: RawToken): seq<Call> {
    if raw.Parsed? then [Call.CheckToken(raw.n)] else []
  }

  lemma SampleFeeds(trace: seq<Call>, acts: seq<Activity>, sampled: seq<RawToken>, masId: string, raw: RawToken)
    requires Fed(trace, acts, sampled, masId)
    ensures Fed(trace + CallsForSample(raw), acts, sampled + [raw], masId)
  {
    assert (sampled + [raw])[..|sampled|] == sampled;
    if raw.Parsed? {
      var c := Call.CheckToken(raw.n);
      TraceSnoc(trace, c, "");
      forall topic ensures Seqs(trace + [c], topic) == DeliveredOn(acts, topic) {
        TraceSnoc(trace, c, topic);
      }
    } else {
      assert trace + [] == trace;
    }
  }

  lemma ActivityFeeds(trace: seq<Call>, acts: seq<Activity>, sampled: seq<RawToken>, masId: string, a: Activity)
    requires Fed(trace, acts, sampled, masId)
    ensures Fed(trace + CallsFor(a, masId), acts + [a], sampled, masId)
  {
    var calls := CallsFor(a, masId);
    if calls == [] {
      assert trace + calls == trace;
    } else {
      TraceSnoc(trace, calls[0], "");
      assert calls == [calls[0]];
    }
    ActivitySnoc(acts, a, "", masId);
    forall topic ensures Seqs(trace + calls, topic) == DeliveredOn(acts + [a], topic) {
      ActivitySnoc(acts, a, topic, masId);
      if calls != [] { TraceSnoc(trace, calls[0], topic); }
    }
  }

  /** Every monitored topic came in strictly increasing order. */
  ghost predicate AllInOrder(acts: seq<Activity>) {
    forall topic :: Increasing(DeliveredOn(acts, topic))
  }

  lemma FedTopics(trace: seq<Call>, acts: seq<Activity>, sampled: seq<RawToken>, masId: string)
    requires Fed(trace, acts, sampled, masId)
    ensures AllTopicsIncreasing(trace) <==> AllInOrder(acts)
  {
    if AllTopicsIncreasing(trace) {
      forall topic
        ensures Increasing(DeliveredOn(acts, topic))
      {
        assert Increasing(Seqs(trace, topic)) && Seqs(trace, topic) == DeliveredOn(acts, topic);
      }
    }
    if AllInOrder(acts) {
      forall topic
        ensures Increasing(Seqs(trace, topic))
      {
        assert Increasing(DeliveredOn(acts, topic)) && Seqs(trace, topic) == DeliveredOn(acts, topic);
      }
    }
  }

  lemma OneMore(before: seq<Activity>, more: seq<Activity>, k: nat)
    requires k < |more|
    ensures before + more[..k + 1] == before + more[..k] + [more[k]]
  {
  }

  /** What a checker that was fed so has found. */
  lemma FedFindings(trace: seq<Call>, acts: seq<Activity>, sampled: seq<RawToken>, masId: string)
    requires Fed(trace, acts, sampled, masId)
    ensures var violations := Run(trace).violations;
            && TokenFindings(violations) == Failures(TokensIn(sampled))
            && (forall topic :: TopicFindings(violations, topic) == Failures(DeliveredOn(acts, topic)))
            && (violations == [] <==> Increasing(TokensIn(sampled)) && AllInOrder(acts))
  {
    TokensExact(trace);
    forall topic
      ensures TopicFindings(Run(trace).violations, topic) == Failures(DeliveredOn(acts, topic))
    {
      TopicExact(trace, topic);
    }
    NoLeaseWasMissed(trace);
    HealthyIffAllIncreasing(trace);
    FedTopics(trace, acts, sampled, masId);
  }

  lemma {:induction false} NoLeaseWasMissed(trace: seq<Call>)
    requires MissingLeases(trace) == []
    ensures NoLeaseMissing(trace)
  {
    if trace != [] { NoLeaseWasMissed(trace[..|trace| - 1]); }
  }

  class Service {
    const checker: InvariantChecker
    const masId: string
    var checkCycles: nat
    ghost var acts: seq<Activity>
    ghost var sampled: seq<RawToken>

    ghost predicate Valid()
      reads this, checker
    {
      checker.Valid() && Fed(checker.trace, acts, sampled, masId)
    }

    constructor (masId: string)
      ensures Valid() && fresh(checker) && this.masId == masId
      ensures checkCycles == 0 && acts == [] && sampled == []
    {
      this.masId := masId;
      checker := new InvariantChecker();
      checkCycles, acts, sampled := 0, [], [];
    }

    method RunCheckCycle() returns (cycle: nat, healthy: bool, total: nat)
      requires Valid()
      modifies this`checkCycles
      ensures checkCycles == old(checkCycles) + 1 == cycle
      ensures healthy == (total == 0) && total == |checker.violations|
    {
      checkCycles := checkCycles + 1;
      cycle, total := checkCycles, |checker.violations|;
      healthy := checker.IsHealthy();
      HealthyIffAllIncreasing(checker.trace);
    }

    /** `_check_fencing_token` */
    method CheckToken(raw: RawToken)
      requires Valid()
      modifies this`sampled, checker
      ensures Valid() && sampled == old(sampled) + [raw]
    {
      SampleFeeds(checker.trace, acts, sampled, masId, raw);
      sampled := sampled + [raw];
      if raw.Parsed? {
        var ok := checker.CheckFencingToken(raw.n);
      } else {
        assert checker.trace + [] == checker.trace;
      }
    }

    /** An event monitor passes its event on. */
    method Deliver(topic: string, seqNo: nat)
      requires Valid()
      modifies this`acts, checker
      ensures Valid() && acts == old(acts) + [Delivered(topic, seqNo)]
    {
      ActivityFeeds(checker.trace, acts, sampled, masId, Delivered(topic, seqNo));
      acts := acts + [Delivered(topic, seqNo)];
      var ok := checker.CheckEventOrdering(topic, seqNo);
    }

    /** The tattle monitor keeps what accuses this service and drops everything else. */
    method Scan(payload: Parsed)
      requires Valid()
      modifies this`acts, checker
      ensures Valid() && acts == old(acts) + [Telemetry(payload)]
    {
      ActivityFeeds(checker.trace, acts, sampled, masId, Telemetry(payload));
      acts := acts + [Telemetry(payload)];
      if Accuses(payload, masId) {
        checker.RecordTattleAgainstUs(payload.json.fields);
      } else {
        assert checker.trace + [] == checker.trace;
      }
    }

    method Act(a: Activity)
      requires Valid()
      modifies this, checker
      ensures Valid() && acts == old(acts) + [a] && sampled == old(sampled)
      ensures checkCycles == old(checkCycles) + if a.CycleCall? then 1 else 0
    {
      match a {
        case CycleCall =>
          ActivityFeeds(checker.trace, acts, sampled, masId, a);
          assert checker.trace + [] == checker.trace;
          acts := acts + [a];
          checkCycles := checkCycles + 1;
        case Delivered(topic, seqNo) =>
          Deliver(topic, seqNo);
        case Telemetry(payload) =>
          Scan(payload);
      }
    }

    /** The monitors run until the timer of the health loop fires. */
    method ActAll(more: seq<Activity>)
      requires Valid()
      modifies this, checker
      ensures Valid() && acts == old(acts) + more && sampled == old(sampled)
      ensures checkCycles + CycleCalls(old(acts)) == old(checkCycles) + CycleCalls(acts)
    {
      ghost var before := acts;
      for k := 0 to |more|
        invariant Valid() && sampled == old(sampled)
        invariant acts == before + more[..k]
        invariant checkCycles + CycleCalls(before) == old(checkCycles) + CycleCalls(acts)
      {
        ActivitySnoc(acts, more[k], "", masId);
        OneMore(before, more, k);
        Act(more[k]);
      }
      assert more[..|more|] == more;
    }

    /** The life of the service: the check at startup, then the health loop with the monitors
        running beside it until the stop event is set. */
    method Live(start: RawToken, ticks: seq<Tick>)
      requires Valid() && checkCycles == 0 && acts == [] && sampled == []
      modifies this, checker
      ensures Valid() && acts == AllActivity(ticks) && sampled == Samples(start, ticks)
      ensures checkCycles == |ticks| + CycleCalls(AllActivity(ticks))
      ensures TokenFindings(checker.violations) == Failures(TokensIn(Samples(start, ticks)))
      ensures forall topic :: TopicFindings(checker.violations, topic) ==
                              Failures(DeliveredOn(AllActivity(ticks), topic))
      ensures checker.violations == [] <==>
              Increasing(TokensIn(Samples(start, ticks))) && AllInOrder(AllActivity(ticks))
      ensures exists at :: KeptFrom(AllActivity(ticks), masId, checker.tattleEvidence, at)
    {
      CheckToken(start);
      var cycle := 0;
      while cycle < |ticks|
        invariant cycle <= |ticks| && Valid()
        invariant acts == AllActivity(ticks[..cycle]) && sampled == Samples(start, ticks[..cycle])
        invariant checkCycles == cycle + CycleCalls(acts)
      {
        TickSnoc(start, ticks, cycle);
        ActAll(ticks[cycle].before);
        cycle := cycle + 1;
        var _, _, _ := RunCheckCycle();
        if cycle % 3 == 0 {
          CheckToken(ticks[cycle - 1].env);
        }
      }
      assert ticks[..|ticks|] == ticks;
      FedFindings(checker.trace, acts, sampled, masId);
      ghost var at := TattlesExact(acts, masId);
      assert KeptFrom(AllActivity(ticks), masId, checker.tattleEvidence, at);
    }
  }

  lemma TickSnoc(start: RawToken, ticks: seq<Tick>, k: nat)
    requires k < |ticks|
    ensures AllActivity(ticks[..k + 1]) == AllActivity(ticks[..k]) + ticks[k].before
    ensures Samples(start, ticks[..k + 1]) ==
            Samples(start, ticks[..k]) + if (k + 1) % 3 == 0 then [ticks[k].env] else []
  {
    assert ticks[..k + 1][..k] == ticks[..k];
  }

  // ----- what the samples show -----

  ghost predicate Constant(start: RawToken, ticks: seq<Tick>, n: int) {
    start == Parsed(n) && forall k :: 0 <= k < |ticks| ==> ticks[k].env == Parsed(n)
  }

  lemma {:induction false} SampleCount(start: RawToken, ticks: seq<Tick>)
    ensures |Samples(start, ticks)| == 1 + |ticks| / 3
  {
    if ticks != [] { SampleCount(start, ticks[..|ticks| - 1]); }
  }

  /** Sample `k` after the first is the variable at tick `3 * k`. */
  lemma {:induction false} SampleAt(start: RawToken, ticks: seq<Tick>, k: nat)
    requires k <= |ticks| / 3
    ensures k < |Samples(start, ticks)|
    ensures Samples(start, ticks)[k] == if k == 0 then start else ticks[3 * k - 1].env
  {
    SampleCount(start, ticks);
    if ticks != [] {
      var front := ticks[..|ticks| - 1];
      SampleCount(start, front);
      if k <= |front| / 3 { SampleAt(start, front, k); }
    }
  }

  lemma TokensSnoc(raws: seq<RawToken>, n: int)
    ensures TokensIn(raws + [Parsed(n)]) == TokensIn(raws) + [n]
  {
    assert (raws + [Parsed(n)])[..|raws|] == raws;
  }

  lemma {:induction false} ConstantFailures(raws: seq<RawToken>, n: int)
    requires raws != [] && forall k :: 0 <= k < |raws| ==> raws[k] == Parsed(n)
    ensures TokensIn(raws) != [] && Max(TokensIn(raws)) == n
    ensures |TokensIn(raws)| == |raws| && |Failures(TokensIn(raws))| == |raws| - 1
  {
    var front := raws[..|raws| - 1];
    assert raws == front + [Parsed(n)];
    TokensSnoc(front, n);
    MaxSnoc(TokensIn(front), n);
    if front == [] {
      assert TokensIn(front) == [] && Failures([]) == [];
    } else {
      ConstantFailures(front, n);
    }
  }

  /** A token that never changes, as the environment variable of a process does not, is
      reported as a violation at every third tick: floor(n / 3) times after n ticks. */
  lemma UnchangedTokenIsReported(start: RawToken, ticks: seq<Tick>, n: int)
    requires Constant(start, ticks, n)
    ensures |Failures(TokensIn(Samples(start, ticks)))| == |ticks| / 3
  {
    SampleCount(start, ticks);
    forall k | 0 <= k < |Samples(start, ticks)|
      ensures Samples(start, ticks)[k] == Parsed(n)
    {
      SampleAt(start, ticks, k);
    }
    ConstantFailures(Samples(start, ticks), n);
  }

  // ----- what the monitors show -----

  /** An event monitor was handed the records of its topic that stand at these positions. */
  ghost predicate HandedOver(acts: seq<Activity>, topic: string, log: Log, at: seq<nat>) {
    && |DeliveredOn(acts, topic)| == |at|
    && (forall k :: 0 <= k < |at| ==> at[k] < |log|)
    && forall k :: 0 <= k < |at| ==> DeliveredOn(acts, topic)[k] == log[at[k]].seqNo
  }

  /** What a monitor reports is exactly redelivery and reordering: on any topic of the grid its
      findings are empty if and only if the records came in log order and none came twice. A
      gap in what it was handed is never reported. */
  lemma MonitorFindsRepeatsOnly(acts: seq<Activity>, topic: string, log: Log, at: seq<nat>)
    requires Ordered(log) && HandedOver(acts, topic, log, at)
    ensures Failures(DeliveredOn(acts, topic)) == [] <==> forall j, k :: 0 <= j < k < |at| ==> at[j] < at[k]
  {
    var seen := DeliveredOn(acts, topic);
    NoFailuresIffIncreasing(seen);
    if Increasing(seen) {
      forall j, k | 0 <= j < k < |at|
        ensures at[j] < at[k]
      {
        assert seen[j] < seen[k];
      }
    }
    if forall j, k :: 0 <= j < k < |at| ==> at[j] < at[k] {
      forall j, k | 0 <= j < k < |seen|
        ensures seen[j] < seen[k]
      {
        assert log[at[j]].seqNo < log[at[k]].seqNo;
      }
    }
  }
}
