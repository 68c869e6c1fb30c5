/** The five attacks of the provocateur, and what each verdict says about the topics. */
module Attacks {
  import opened Values
  import opened Decimal
  import opened TopicLog
  import opened EventBus

  /** The parts of the evidence that later readers look at. */
  datatype Detail =
    | NoDetail
    | TattleDetail(filed: nat, eventsFound: Option<nat>)
    | RaceDetail(bidPublished: bool, scanned: Option<nat>, accepted: Option<bool>, error: Option<ScanError>)
    | FloodDetail(target: int, published: nat, errors: nat, consumeOk: bool, sentinelActive: bool)
    | InvokeDetail(invokePublished: bool)
    | PhantomDetail(registered: bool, mentionsFound: Option<nat>, cleanedUp: bool)

  /** Why a scan could not be verified: the read failed, or a record was no JSON object. */
  datatype ScanError = ReadFailed | NotAnObject

  datatype AttackResult = AttackResult(name: string, held: bool, trigger: bool, failed: bool, detail: Detail)

  /** How an executor ends: with a result, cut off by its timeout, with an exception of its
      own, or cancelled together with the whole playbook. */
  datatype Outcome = Returned(result: AttackResult) | TimedOut | Raised | Aborted

  function CutOff(reply: Reply): Outcome {
    match reply
    case Ok => Raised
    case Error(_) => Raised
    case Timeout(_) => TimedOut
    case Shutdown(_) => Aborted
  }

  predicate IsResultOf(r: AttackResult, name: string) {
    r.name == name && !r.failed
  }

  /** An executor that does not return was stopped by how its last call ended. */
  predicate Explains(last: Reply, o: Outcome) {
    if o.Returned? then Answered(last) else !last.Ok? && o == CutOff(last)
  }

  function Report(name: string, held: bool, detail: Detail): Outcome {
    Returned(AttackResult(name, held, !held, false, detail))
  }

  /** The records an attack writes; none of them carries a holder. */
  function Obj1(fields: map<string, Json>): Payload {
    Payload("", Value(Obj(fields)))
  }

  function Announcement(attack: string): Payload {
    Obj1(map["attack" := Str(attack)])
  }

  function FakeBid(target: string): Payload {
    Obj1(map["type" := Str("lease_bid"), "masId" := Str(target), "bidderNodeId" := Str(PROVOCATEUR_NODE)])
  }

  function FakeInvoke(service: string): Payload {
    Obj1(map["type" := Str("service_invoke"), "service" := Str(service), "method" := Str("get_status"),
             "fencingToken" := Num(1), "callerNodeId" := Str(PROVOCATEUR_NODE)])
  }

  function Registration(): Payload {
    Obj1(map["type" := Str("endpoint_registered"), "serviceId" := Str("phantom-59999"),
             "serviceName" := Str(PHANTOM_SERVICE), "nodeId" := Str(PROVOCATEUR_NODE)])
  }

  function Unregistration(): Payload {
    Obj1(map["type" := Str("endpoint_unregistered"), "serviceId" := Str("phantom-59999"),
             "serviceName" := Str(PHANTOM_SERVICE)])
  }

  predicate HasField(payload: Payload, name: string, text: string) {
    payload.parsed.Value? && payload.parsed.json.Obj?
    && name in payload.parsed.json.fields && payload.parsed.json.fields[name] == Str(text)
  }

  /** What the attacks write to the service-state topic, by field: a bid for the target, an
      invocation of the service, a registration and the unregistration of the same service.
      None of them names a lease holder. */
  lemma StateRecords(target: string, service: string)
    ensures var bid := FakeBid(target);
            && HasField(bid, "type", "lease_bid") && HasField(bid, "masId", target)
            && HasField(bid, "bidderNodeId", "provocateur-node") && "holderNodeId" !in bid.parsed.json.fields
    ensures var invoke := FakeInvoke(service);
            && HasField(invoke, "type", "service_invoke") && HasField(invoke, "service", service)
            && HasField(invoke, "method", "get_status") && HasField(invoke, "callerNodeId", "provocateur-node")
            && "fencingToken" in invoke.parsed.json.fields && invoke.parsed.json.fields["fencingToken"] == Num(1)
            && "holderNodeId" !in invoke.parsed.json.fields
    ensures var up := Registration();
            && HasField(up, "type", "endpoint_registered") && HasField(up, "serviceId", "phantom-59999")
            && HasField(up, "serviceName", "PhantomService") && HasField(up, "nodeId", "provocateur-node")
            && "holderNodeId" !in up.parsed.json.fields
    ensures var down := Unregistration();
            && HasField(down, "type", "endpoint_unregistered") && HasField(down, "serviceId", "phantom-59999")
            && HasField(down, "serviceName", "PhantomService") && "holderNodeId" !in down.parsed.json.fields
  {
  }

  /** Announce the attack; nobody's scan reads that topic. */
  method Announce(ctx: Context, attack: string) returns (reply: Reply)
    requires OwnHarmless(ctx.wal)
    modifies ctx
    ensures old(ctx.wal) <= ctx.wal && OwnHarmless(ctx.wal) && reply == ctx.last
    ensures ctx.calls == old(ctx.calls).(sends := old(ctx.calls).sends + [reply])
    ensures OwnOn(ctx.wal, TELEMETRY) == OwnOn(old(ctx.wal), TELEMETRY)
    ensures OwnOn(ctx.wal, SERVICE_STATE) == OwnOn(old(ctx.wal), SERVICE_STATE)
  {
    reply := ctx.Publish(ATTACKS, Announcement(attack));
  }

  /** Publish to the service-state topic something that names no lease holder. */
  method PublishState(ctx: Context, payload: Payload) returns (reply: Reply)
    requires OwnHarmless(ctx.wal) && !NamesAttacker(payload.parsed)
    modifies ctx
    ensures old(ctx.wal) <= ctx.wal && OwnHarmless(ctx.wal) && reply == ctx.last
    ensures ctx.calls == old(ctx.calls).(sends := old(ctx.calls).sends + [reply])
    ensures OwnOn(ctx.wal, SERVICE_STATE) == OwnOn(old(ctx.wal), SERVICE_STATE) + IfLanded(reply, payload)
  {
    reply := ctx.Publish(SERVICE_STATE, payload);
  }

  /** What a publish that was answered so leaves on its topic. */
  function IfLanded(reply: Reply, payload: Payload): seq<Payload> {
    if Lands(reply) then [payload] else []
  }

  /** The one read of a scenario was answered, or it raised. */
  predicate OneAnswer(answers: seq<Reply>, ok: bool) {
    |answers| == 1 && if ok then answers[0].Ok? else answers[0].Error?
  }

  // ----- counting successes -----

  /** One past the last success. */
  function LastSuccess(replies: seq<Reply>): nat {
    if replies == [] then 0
    else if replies[|replies| - 1].Ok? then |replies| else LastSuccess(replies[..|replies| - 1])
  }

  function Hits(replies: seq<Reply>): nat {
    if replies == [] then 0 else Hits(replies[..|replies| - 1]) + if replies[|replies| - 1].Ok? then 1 else 0
  }

  function Misses(replies: seq<Reply>): nat {
    if replies == [] then 0 else Misses(replies[..|replies| - 1]) + if replies[|replies| - 1].Ok? then 0 else 1
  }

  /** Requests that took effect: the successes, and the failures that landed all the same. */
  function Landings(replies: seq<Reply>): nat {
    if replies == [] then 0 else Landings(replies[..|replies| - 1]) + if Lands(replies[|replies| - 1]) then 1 else 0
  }

  ghost predicate SuccessesFirst(replies: seq<Reply>) {
    forall i, j :: 0 <= i < j < |replies| && replies[j].Ok? ==> replies[i].Ok?
  }

  /** What the two counters of the flood say together: between them they cover every publish,
      and they cover some twice unless all successes came first. */
  lemma {:induction false} FloodAccounting(replies: seq<Reply>)
    ensures Hits(replies) + Misses(replies) == |replies|
    ensures Hits(replies) <= LastSuccess(replies) <= |replies|
    ensures LastSuccess(replies) + Misses(replies) >= |replies|
    ensures LastSuccess(replies) + Misses(replies) == |replies| <==> SuccessesFirst(replies)
    ensures LastSuccess(replies) > 0 ==> replies[LastSuccess(replies) - 1].Ok?
    ensures forall k :: LastSuccess(replies) <= k < |replies| ==> !replies[k].Ok?
  {
    if replies != [] {
      var n := |replies| - 1;
      var front := replies[..n];
      FloodAccounting(front);
      if replies[n].Ok? {
        if Misses(front) == 0 { NoMisses(front); }
        if SuccessesFirst(replies) { assert forall i :: 0 <= i < n ==> replies[i].Ok?; AllHits(front); }
      } else {
        assert SuccessesFirst(replies) <==> SuccessesFirst(front) by {
          assert forall i :: 0 <= i < n ==> replies[i] == front[i];
        }
      }
    }
  }

  lemma {:induction false} NoMisses(replies: seq<Reply>)
    requires Misses(replies) == 0
    ensures forall i :: 0 <= i < |replies| ==> replies[i].Ok?
  {
    if replies != [] { NoMisses(replies[..|replies| - 1]); }
  }

  lemma {:induction false} AllHits(replies: seq<Reply>)
    requires forall i :: 0 <= i < |replies| ==> replies[i].Ok?
    ensures Misses(replies) == 0
  {
    if replies != [] { AllHits(replies[..|replies| - 1]); }
  }

  /** The requests that landed are between the successes and all of them; they are the
      successes exactly if no failed request landed. */
  lemma {:induction false} SuccessesLand(replies: seq<Reply>)
    ensures Hits(replies) <= Landings(replies) <= |replies|
    ensures Landings(replies) == Hits(replies) <==>
            forall k :: 0 <= k < |replies| && Lands(replies[k]) ==> replies[k].Ok?
  {
    if replies != [] {
      var front := replies[..|replies| - 1];
      SuccessesLand(front);
      assert forall k :: 0 <= k < |front| ==> front[k] == replies[k];
    }
  }

  lemma {:induction false} CountersSnoc(replies: seq<Reply>, reply: Reply)
    ensures LastSuccess(replies + [reply]) == if reply.Ok? then |replies| + 1 else LastSuccess(replies)
    ensures Misses(replies + [reply]) == Misses(replies) + if reply.Ok? then 0 else 1
  {
    assert (replies + [reply])[..|replies|] == replies;
  }

  // ----- false tattle -----

  /** The verdict looks at one thing: whether the target ever published a lifecycle event. */
  predicate TattleContract(after: Wal, calls: Calls, r: AttackResult) {
    && IsResultOf(r, "false_tattle") && r.detail.TattleDetail? && r.trigger == !r.held
    && OneAnswer(calls.answers, r.detail.eventsFound.Some?) && calls.pauses == 1
    && match r.detail.eventsFound
       case None => !r.held
       case Some(found) =>
         && found == |Take(On(after, SENTINEL_LIFECYCLE), 10)|
         && (r.held <==> On(after, SENTINEL_LIFECYCLE) != [])
  }

  /** The numbers of the reports that were filed. */
  function Filed(replies: seq<Reply>): seq<nat> {
    if replies == [] then []
    else Filed(replies[..|replies| - 1]) + if Lands(replies[|replies| - 1]) then [|replies|] else []
  }

  lemma {:induction false} FiledSnoc(replies: seq<Reply>, reply: Reply)
    ensures Filed(replies + [reply]) == Filed(replies) + if Lands(reply) then [|replies| + 1] else []
  {
    assert (replies + [reply])[..|replies|] == replies;
  }

  /** The counter is the number of the last report that was answered. */
  predicate TattlesTally(filed: nat, tattleCount: int, calls: Calls) {
    && |calls.reports| == (if tattleCount < 0 then 0 else tattleCount)
    && filed == LastSuccess(calls.reports) && calls.tattled == Filed(calls.reports)
  }

  method FileTattles(ctx: Context, tattleCount: int) returns (filed: nat, cut: Option<Reply>)
    requires OwnHarmless(ctx.wal) && ctx.calls.reports == [] && ctx.calls.tattled == []
    modifies ctx
    ensures old(ctx.wal) <= ctx.wal && OwnHarmless(ctx.wal)
    ensures cut.Some? ==> cut.value == ctx.last && !Answered(ctx.last)
    ensures cut.None? ==> TattlesTally(filed, tattleCount, ctx.calls)
    ensures ctx.calls.sends == old(ctx.calls).sends && ctx.calls.answers == old(ctx.calls).answers
    ensures ctx.calls.pauses == old(ctx.calls).pauses
  {
    filed, cut := 0, None;
    var i := 0;
    while i < tattleCount
      invariant old(ctx.wal) <= ctx.wal && OwnHarmless(ctx.wal)
      invariant cut == None && i <= (if tattleCount < 0 then 0 else tattleCount)
      invariant TattlesTally(filed, i, ctx.calls)
      invariant ctx.calls.sends == old(ctx.calls).sends && ctx.calls.answers == old(ctx.calls).answers
      invariant ctx.calls.pauses == old(ctx.calls).pauses
    {
      ghost var replies := ctx.calls.reports;
      var reply := ctx.ReportTattle(i + 1);
      if !Answered(reply) { return filed, Some(reply); }
      CountersSnoc(replies, reply);
      FiledSnoc(replies, reply);
      if reply.Ok? { filed := i + 1; }
      i := i + 1;
    }
  }

  method ExecuteFalseTattle(ctx: Context, tattleCount: int) returns (o: Outcome)
    requires OwnHarmless(ctx.wal)
    modifies ctx
    ensures old(ctx.wal) <= ctx.wal && OwnHarmless(ctx.wal) && Explains(ctx.last, o)
    ensures o.Returned? ==> TattleContract(ctx.wal, ctx.calls, o.result)
    ensures o.Returned? ==> TattlesTally(o.result.detail.filed, tattleCount, ctx.calls)
  {
    ctx.Begin();
    var reply := Announce(ctx, "false_tattle");
    if !Answered(reply) { return CutOff(reply); }
    var filed, cut := FileTattles(ctx, tattleCount);
    if cut.Some? { return CutOff(cut.value); }
    reply := ctx.Sleep();
    if !reply.Ok? { return CutOff(reply); }
    var events: Log;
    reply, events := ctx.Consume(SENTINEL_LIFECYCLE, 10);
    if !Answered(reply) { return CutOff(reply); }
    var defenseHeld := true;
    if reply.Error? || |events| == 0 { defenseHeld := false; }
    o := Report("false_tattle", defenseHeld, TattleDetail(filed, if reply.Ok? then Some(|events|) else None));
  }

  /** Once the target has published anything, the verdict holds whatever became of it since. */
  lemma TattleVerdictIsInsensitive(before: Wal, after: Wal, calls: Calls, r: AttackResult)
    requires before <= after && TattleContract(after, calls, r)
    requires On(before, SENTINEL_LIFECYCLE) != []
    ensures r.held <==> OneAnswer(calls.answers, true)
  {
    TopicsGrow(before, after, SENTINEL_LIFECYCLE);
  }

  // ----- lease race -----

  /** The record says the attacker now holds the lease of `target`. */
  predicate Transfers(r: Record, target: string) {
    NamesAttacker(r.payload.parsed)
    && "masId" in r.payload.parsed.json.fields && r.payload.parsed.json.fields["masId"] == Str(target)
  }

  /** JSON that is no object: `.get` raises and the scan is given up. */
  predicate EndsScan(r: Record) {
    r.payload.parsed.Value? && !r.payload.parsed.json.Obj?
  }

  ghost predicate SeesTransfer(events: Log, target: string) {
    exists k :: 0 <= k < |events| && Transfers(events[k], target) && forall j :: 0 <= j < k ==> !EndsScan(events[j])
  }

  lemma TransferSeen(events: Log, target: string) returns (k: nat)
    requires SeesTransfer(events, target)
    ensures k < |events| && Transfers(events[k], target)
  {
    k :| 0 <= k < |events| && Transfers(events[k], target) && forall j :: 0 <= j < k ==> !EndsScan(events[j]);
  }

  /** The record, read by its fields: an object that names the target and the attacker. */
  ghost predicate TransfersTo(parsed: Parsed, target: string) {
    exists fields :: parsed == Value(Obj(fields))
                     && "masId" in fields && fields["masId"] == Str(target)
                     && "holderNodeId" in fields && fields["holderNodeId"] == Str("provocateur-node")
  }

  /** Decoding or parsing failed, or the value is an object: the scan goes on. */
  predicate ScanGoesOn(parsed: Parsed) {
    parsed.Undecodable? || parsed.json.Obj?
  }

  ghost predicate TransferAt(events: Log, target: string, k: nat) {
    k < |events| && TransfersTo(events[k].payload.parsed, target)
    && forall j :: 0 <= j < k ==> ScanGoesOn(events[j].payload.parsed)
  }

  lemma TransfersExact(r: Record, target: string)
    ensures Transfers(r, target) <==> TransfersTo(r.payload.parsed, target)
  {
    if Transfers(r, target) { assert r.payload.parsed == Value(Obj(r.payload.parsed.json.fields)); }
  }

  lemma SeesTransferExact(events: Log, target: string)
    ensures SeesTransfer(events, target) <==> exists k: nat :: TransferAt(events, target, k)
  {
    if SeesTransfer(events, target) {
      var k: nat :| k < |events| && Transfers(events[k], target) && forall j :: 0 <= j < k ==> !EndsScan(events[j]);
      TransfersExact(events[k], target);
      assert TransferAt(events, target, k);
    }
    if k: nat :| TransferAt(events, target, k) {
      TransfersExact(events[k], target);
      assert forall j :: 0 <= j < k ==> (EndsScan(events[j]) <==> !ScanGoesOn(events[j].payload.parsed));
    }
  }

  ghost predicate ScanCompletes(events: Log) {
    forall j :: 0 <= j < |events| ==> !EndsScan(events[j])
  }

  /** The scan loop: undecodable records are skipped, the first value that is no object ends it. */
  method ScanForTransfer(events: Log, target: string) returns (defenseHeld: bool, bidAccepted: bool, completed: bool)
    ensures defenseHeld <==> !SeesTransfer(events, target)
    ensures bidAccepted == !defenseHeld
    ensures completed <==> ScanCompletes(events)
  {
    defenseHeld, bidAccepted := true, false;
    for k := 0 to |events|
      invariant forall j :: 0 <= j < k ==> !EndsScan(events[j])
      invariant defenseHeld <==> forall j :: 0 <= j < k ==> !Transfers(events[j], target)
      invariant bidAccepted == !defenseHeld
    {
      match events[k].payload.parsed {
        case Undecodable =>
        case Value(Obj(fields)) =>
          if "masId" in fields && fields["masId"] == Str(target)
             && "holderNodeId" in fields && fields["holderNodeId"] == Str(PROVOCATEUR_NODE) {
            defenseHeld := false;
            bidAccepted := true;
          }
        case Value(_) =>
          assert EndsScan(events[k]);
          assert !SeesTransfer(events, target) <==> defenseHeld;
          return defenseHeld, bidAccepted, false;
      }
    }
    completed := true;
  }

  /** The verdict on one window: lost exactly if a transfer lies before any value that ends
      the scan; the counters are there only if nothing ended it. */
  ghost predicate RaceVerdict(window: Log, target: string, held: bool, detail: Detail) {
    && detail.RaceDetail?
    && (held <==> !SeesTransfer(window, target))
    && (if ScanCompletes(window)
        then detail.error == None && detail.scanned == Some(|window|) && detail.accepted == Some(!held)
        else detail.error == Some(NotAnObject) && detail.scanned == None && detail.accepted == None)
  }

  /** The bid is out before the scan, and the scan judges the topic as it then is. */
  ghost predicate RaceContract(before: Wal, after: Wal, target: string, calls: Calls, r: AttackResult) {
    && IsResultOf(r, "lease_race") && r.detail.RaceDetail? && r.trigger == !r.held
    && |calls.sends| == 2 && r.detail.bidPublished == calls.sends[1].Ok?
    && OwnOn(after, SERVICE_STATE) == OwnOn(before, SERVICE_STATE) + IfLanded(calls.sends[1], FakeBid(target))
    && OneAnswer(calls.answers, r.detail.error != Some(ReadFailed)) && calls.pauses == 1
    && (if r.detail.error == Some(ReadFailed) then r.held && r.detail.scanned == None && r.detail.accepted == None
        else RaceVerdict(Take(On(after, SERVICE_STATE), 50), target, r.held, r.detail))
  }

  /** A verdict whose read was answered is lost exactly if one of the first 50 records of the
      topic is an object that names the target and the attacker, and no JSON value before it
      is anything but an object. */
  lemma RaceVerdictMeans(before: Wal, after: Wal, target: string, calls: Calls, r: AttackResult)
    requires RaceContract(before, after, target, calls, r) && OneAnswer(calls.answers, true)
    ensures !r.held <==> exists k: nat :: k < 50 && TransferAt(On(after, SERVICE_STATE), target, k)
  {
    WindowedTransfer(On(after, SERVICE_STATE), target);
    assert r.held <==> !SeesTransfer(Take(On(after, SERVICE_STATE), 50), target);
  }

  lemma WindowedTransfer(topic: Log, target: string)
    ensures SeesTransfer(Take(topic, 50), target) <==> exists k: nat :: k < 50 && TransferAt(topic, target, k)
  {
    SeesTransferExact(Take(topic, 50), target);
    if SeesTransfer(Take(topic, 50), target) {
      var k: nat :| TransferAt(Take(topic, 50), target, k);
      TransferInWindow(topic, target, k);
      assert k < 50 && TransferAt(topic, target, k);
    }
    if k: nat :| k < 50 && TransferAt(topic, target, k) {
      TransferInWindow(topic, target, k);
      assert TransferAt(Take(topic, 50), target, k);
    }
  }

  lemma TransferInWindow(topic: Log, target: string, k: nat)
    ensures TransferAt(Take(topic, 50), target, k) <==> k < 50 && TransferAt(topic, target, k)
  {
    assert forall j :: 0 <= j < |Take(topic, 50)| ==> Take(topic, 50)[j] == topic[j];
  }

  /** Only a failed read leaves the window unjudged. */
  method ScanServiceState(ctx: Context, target: string, bidPublished: bool)
    returns (defenseHeld: bool, detail: Detail, cut: Option<Reply>)
    requires OwnHarmless(ctx.wal)
    modifies ctx
    ensures old(ctx.wal) <= ctx.wal && OwnHarmless(ctx.wal)
    ensures ctx.calls == old(ctx.calls).(answers := old(ctx.calls).answers + [ctx.last])
    ensures ctx.last == NextReply(old(ctx.turns)) && cut == if Answered(ctx.last) then None else Some(ctx.last)
    ensures OwnOn(ctx.wal, SERVICE_STATE) == OwnOn(old(ctx.wal), SERVICE_STATE)
    ensures detail.RaceDetail? && detail.bidPublished == bidPublished
    ensures ctx.last.Error? ==> defenseHeld && detail == RaceDetail(bidPublished, None, None, Some(ReadFailed))
    ensures ctx.last.Ok? ==> RaceVerdict(Take(On(ctx.wal, SERVICE_STATE), 50), target, defenseHeld, detail)
  {
    var reply, events := ctx.Consume(SERVICE_STATE, 50);
    defenseHeld, detail, cut := true, RaceDetail(bidPublished, None, None, Some(ReadFailed)), None;
    if !Answered(reply) { cut := Some(reply); return; }
    if reply.Ok? {
      var bidAccepted, completed;
      defenseHeld, bidAccepted, completed := ScanForTransfer(events, target);
      if completed {
        detail := RaceDetail(bidPublished, Some(|events|), Some(bidAccepted), None);
      } else {
        detail := RaceDetail(bidPublished, None, None, Some(NotAnObject));
      }
    }
  }

  method ExecuteLeaseRace(ctx: Context, target: string) returns (o: Outcome)
    requires OwnHarmless(ctx.wal)
    modifies ctx
    ensures old(ctx.wal) <= ctx.wal && OwnHarmless(ctx.wal) && Explains(ctx.last, o)
    ensures o.Returned? ==> RaceContract(old(ctx.wal), ctx.wal, target, ctx.calls, o.result)
  {
    ctx.Begin();
    var reply := Announce(ctx, "lease_race");
    if !Answered(reply) { return CutOff(reply); }
    reply := PublishState(ctx, FakeBid(target));
    if !Answered(reply) { return CutOff(reply); }
    var bidPublished := reply.Ok?;
    reply := ctx.Sleep();
    if !reply.Ok? { return CutOff(reply); }
    var defenseHeld, detail, cut := ScanServiceState(ctx, target, bidPublished);
    if cut.Some? { return CutOff(cut.value); }
    o := Report("lease_race", defenseHeld, detail);
  }

  // ----- event flood -----

  /** The characters of an ISO timestamp. */
  predicate IsTimestamp(s: string) {
    forall c :: c in s ==> '0' <= c <= '9' || c in "-:.+TZ"
  }

  function ClockAt(clock: seq<string>, i: nat): string {
    if i < |clock| && IsTimestamp(clock[i]) then clock[i] else ""
  }

  const FLOOD_HEAD := "{\"type\": \"flood_event\", \"sequence\": "
  const FLOOD_SOURCE := ", \"source\": \"provocateur\", \"timestamp\": \""
  const FLOOD_TAIL := "\"}"

  function FloodText(i: nat, timestamp: string): string {
    FLOOD_HEAD + Digits(i) + FLOOD_SOURCE + timestamp + FLOOD_TAIL
  }

  function FloodPayload(i: nat, timestamp: string): Payload {
    Payload(FloodText(i, timestamp),
            Value(Obj(map["type" := Str("flood_event"), "sequence" := Num(i), "source" := Str("provocateur"),
                          "timestamp" := Str(timestamp)])))
  }

  /** The event that publish number `k` of the flood sends. */
  function FloodEvents(clock: seq<string>): nat -> Payload {
    (k: nat) => FloodPayload(k, ClockAt(clock, k))
  }

  lemma HeadHasNoP()
    ensures 'P' !in FLOOD_HEAD
  {
  }

  lemma SourceHasNoP()
    ensures 'P' !in FLOOD_SOURCE
  {
  }

  lemma TailHasNoP()
    ensures 'P' !in FLOOD_TAIL
  {
  }

  lemma NoneIn(c: char, a: string, b: string, d: string, e: string, f: string)
    requires c !in a && c !in b && c !in d && c !in e && c !in f
    ensures c !in a + b + d + e + f
  {
  }

  lemma PhantomStartsWithP()
    ensures PHANTOM_SERVICE != [] && PHANTOM_SERVICE[0] == 'P'
  {
  }

  /** No flood event, whatever its number and time, mentions the phantom service. */
  lemma FloodNeverMentions(i: nat, timestamp: string)
    requires IsTimestamp(timestamp)
    ensures !Contains(FloodText(i, timestamp), PHANTOM_SERVICE)
  {
    if 'P' in Digits(i) { DigitsAreDigits(i, 'P'); }
    HeadHasNoP();
    SourceHasNoP();
    TailHasNoP();
    NoneIn('P', FLOOD_HEAD, Digits(i), FLOOD_SOURCE, timestamp, FLOOD_TAIL);
    PhantomStartsWithP();
    if Contains(FloodText(i, timestamp), PHANTOM_SERVICE) {
      ContainsNeedsFirstChar(FloodText(i, timestamp), PHANTOM_SERVICE);
    }
  }

  ghost predicate FarFromPhantom(events: nat -> Payload) {
    forall k: nat :: !MentionsPhantom(events(k))
  }

  lemma FloodEventsAreFar(clock: seq<string>)
    ensures FarFromPhantom(FloodEvents(clock))
  {
    forall k: nat
      ensures !MentionsPhantom(FloodEvents(clock)(k))
    {
      FloodNeverMentions(k, ClockAt(clock, k));
    }
  }

  /** How many events the flood is to send; `range` of a negative number is empty. */
  function FloodSize(eventCount: int): nat {
    if eventCount < 0 then 0 else eventCount
  }

  /** How the flood's own publishes were answered, all but the announcement. */
  function FloodSends(calls: Calls): seq<Reply> {
    if calls.sends == [] then [] else calls.sends[1..]
  }

  /** However the flood ends, the telemetry records it leaves are the events that landed. */
  ghost predicate FloodWrote(before: Wal, after: Wal, calls: Calls, eventCount: int, clock: seq<string>) {
    && calls.sends != [] && |FloodSends(calls)| <= FloodSize(eventCount)
    && OwnOn(after, TELEMETRY) == OwnOn(before, TELEMETRY) + FloodRecords(FloodSends(calls), FloodEvents(clock))
  }

  /** The defence counts as held exactly if the first read after the flood is answered. */
  predicate FloodContract(after: Wal, calls: Calls, r: AttackResult, eventCount: int) {
    && IsResultOf(r, "event_flood") && r.detail.FloodDetail? && r.trigger == !r.held && r.detail.target == eventCount
    && |calls.answers| == 2 && (r.held <==> calls.answers[0].Ok?) && (r.detail.consumeOk <==> calls.answers[0].Ok?)
    && (r.detail.sentinelActive <==> calls.answers[1].Ok? && On(after, SENTINEL_LIFECYCLE) != [])
    && |FloodSends(calls)| == FloodSize(eventCount) && calls.pauses == PausesFor(FloodSize(eventCount))
    && r.detail.published == LastSuccess(FloodSends(calls)) && r.detail.errors == Misses(FloodSends(calls))
  }

  /** A flood of `eventCount` events that returns has made as many publishes, no more and no
      fewer, behind its announcement. */
  lemma FloodIsComplete(before: Wal, after: Wal, calls: Calls, r: AttackResult, eventCount: int, clock: seq<string>)
    requires FloodWrote(before, after, calls, eventCount, clock) && FloodContract(after, calls, r, eventCount)
    ensures |calls.sends| == 1 + if eventCount < 0 then 0 else eventCount
    ensures |OwnOn(after, TELEMETRY)| == |OwnOn(before, TELEMETRY)| + Landings(calls.sends[1..])
  {
    RecordsAreLandings(FloodSends(calls), FloodEvents(clock));
  }

  /** The flood events that landed, each with its own number. */
  function FloodRecords(replies: seq<Reply>, events: nat -> Payload): seq<Payload> {
    if replies == [] then []
    else
      var n := |replies| - 1;
      FloodRecords(replies[..n], events) + IfLanded(replies[n], events(n))
  }

  lemma {:induction false} FloodSnoc(replies: seq<Reply>, reply: Reply, events: nat -> Payload)
    ensures FloodRecords(replies + [reply], events) == FloodRecords(replies, events) + IfLanded(reply, events(|replies|))
  {
    assert (replies + [reply])[..|replies|] == replies;
  }

  /** Event `k`, if it landed, stands behind the earlier ones that did. */
  lemma {:induction false} LandedEventAt(replies: seq<Reply>, events: nat -> Payload, k: nat)
    requires k < |replies| && Lands(replies[k])
    ensures Landings(replies[..k]) < |FloodRecords(replies, events)|
    ensures FloodRecords(replies, events)[Landings(replies[..k])] == events(k)
  {
    var n := |replies| - 1;
    RecordsAreLandings(replies[..n], events);
    if k < n {
      LandedEventAt(replies[..n], events, k);
      assert replies[..n][..k] == replies[..k];
    }
  }

  function LeadingDigits(s: string): string {
    if s != [] && '0' <= s[0] <= '9' then [s[0]] + LeadingDigits(s[1..]) else []
  }

  lemma {:induction false} LeadingDigitsOf(d: string, rest: string)
    requires (forall c :: c in d ==> '0' <= c <= '9') && rest != [] && !('0' <= rest[0] <= '9')
    ensures LeadingDigits(d + rest) == d
  {
    if d == [] {
      assert d + rest == rest;
    } else {
      assert (d + rest)[1..] == d[1..] + rest;
      assert d[0] in d && forall c :: c in d[1..] ==> c in d;
      LeadingDigitsOf(d[1..], rest);
    }
  }

  lemma DigitsThenText(k: nat, rest: string)
    requires rest != [] && !('0' <= rest[0] <= '9')
    ensures ParseNat(LeadingDigits(Digits(k) + rest)) == Some(k)
  {
    forall c | c in Digits(k)
      ensures '0' <= c <= '9'
    {
      DigitsAreDigits(k, c);
    }
    LeadingDigitsOf(Digits(k), rest);
    DigitsRoundTrip(k);
  }

  lemma Cut(head: string, a: string, b: string, c: string, d: string)
    ensures var text := head + a + b + c + d;
            |text| >= |head| && text[..|head|] == head && text[|head|..] == a + (b + c + d)
  {
  }

  /** Flood event `k` carries the number `k`, in its fields and in its text. */
  lemma FloodEventIsNumbered(clock: seq<string>, k: nat)
    ensures var payload := FloodEvents(clock)(k);
            && payload.parsed.Value? && payload.parsed.json.Obj?
            && "sequence" in payload.parsed.json.fields && payload.parsed.json.fields["sequence"] == Num(k)
            && |payload.text| >= |FLOOD_HEAD| && payload.text[..|FLOOD_HEAD|] == FLOOD_HEAD
            && ParseNat(LeadingDigits(payload.text[|FLOOD_HEAD|..])) == Some(k)
  {
    Cut(FLOOD_HEAD, Digits(k), FLOOD_SOURCE, ClockAt(clock, k), FLOOD_TAIL);
    DigitsThenText(k, FLOOD_SOURCE + ClockAt(clock, k) + FLOOD_TAIL);
  }

  lemma {:induction false} RecordsAreLandings(replies: seq<Reply>, events: nat -> Payload)
    ensures |FloodRecords(replies, events)| == Landings(replies)
  {
    if replies != [] { RecordsAreLandings(replies[..|replies| - 1], events); }
  }

  /** ceil(n / 100) */
  function PausesFor(n: nat): nat {
    (n + 99) / 100
  }

  lemma PausesSnoc(i: nat)
    ensures PausesFor(i + 1) == PausesFor(i) + if i % 100 == 0 then 1 else 0
  {
  }

  /** The counters of the loop. */
  datatype Counters = Counters(published: nat, errors: nat)

  predicate Counted(c: Counters, replies: seq<Reply>) {
    c.published == LastSuccess(replies) && c.errors == Misses(replies)
  }

  lemma CountedSnoc(c: Counters, replies: seq<Reply>, reply: Reply)
    requires Counted(c, replies)
    ensures Counted(Counters(if reply.Ok? then |replies| + 1 else c.published,
                             if reply.Ok? then c.errors else c.errors + 1), replies + [reply])
  {
    CountersSnoc(replies, reply);
  }

  lemma Regroup<T>(a: seq<T>, b: seq<T>, c: seq<T>)
    ensures (a + b) + c == a + (b + c)
  {
  }

  /** One round of the loop: a publish, and a pause at every hundredth. */
  method FloodRound(ctx: Context, i: nat, payload: Payload, before: Counters, ghost replies: seq<Reply>)
    returns (c: Counters, cut: Option<Reply>, ghost reply: Reply)
    requires OwnHarmless(ctx.wal) && !MentionsPhantom(payload)
    requires i == |replies| && Counted(before, replies)
    modifies ctx
    ensures old(ctx.wal) <= ctx.wal && OwnHarmless(ctx.wal)
    ensures ctx.calls == old(ctx.calls).(sends := old(ctx.calls).sends + [reply], pauses := ctx.calls.pauses)
    ensures cut.Some? ==> cut.value == ctx.last && !ctx.last.Ok?
    ensures cut.None? ==> Counted(c, replies + [reply])
    ensures cut.None? ==> ctx.calls.pauses == old(ctx.calls).pauses + if i % 100 == 0 then 1 else 0
    ensures OwnOn(ctx.wal, TELEMETRY) == OwnOn(old(ctx.wal), TELEMETRY) + IfLanded(reply, payload)
  {
    var sent := ctx.Publish(TELEMETRY, payload);
    c, cut, reply := before, None, sent;
    CountedSnoc(before, replies, reply);
    if !Answered(sent) { cut := Some(sent); return; }
    if sent.Ok? { c := c.(published := i + 1); } else { c := c.(errors := c.errors + 1); }
    if i % 100 == 0 {
      var woken := ctx.Sleep();
      if !woken.Ok? { cut := Some(woken); }
    }
  }

  /** The loop; also when it is cut off, the records on the topic are the events that landed. */
  method FloodLoop(ctx: Context, eventCount: int, events: nat -> Payload)
    returns (c: Counters, cut: Option<Reply>, ghost replies: seq<Reply>)
    requires OwnHarmless(ctx.wal) && FarFromPhantom(events)
    modifies ctx
    ensures old(ctx.wal) <= ctx.wal && OwnHarmless(ctx.wal)
    ensures ctx.calls == old(ctx.calls).(sends := old(ctx.calls).sends + replies, pauses := ctx.calls.pauses)
    ensures cut.None? ==> ctx.calls.pauses == old(ctx.calls).pauses + PausesFor(|replies|)
    ensures OwnOn(ctx.wal, TELEMETRY) == OwnOn(old(ctx.wal), TELEMETRY) + FloodRecords(replies, events)
    ensures |replies| <= FloodSize(eventCount)
    ensures cut.Some? ==> cut.value == ctx.last && !ctx.last.Ok?
    ensures cut.None? ==> |replies| == FloodSize(eventCount) && Counted(c, replies)
  {
    c, cut, replies := Counters(0, 0), None, [];
    ghost var sends, own := ctx.calls.sends, OwnOn(ctx.wal, TELEMETRY);
    var i := 0;
    while i < eventCount && cut == None
      invariant old(ctx.wal) <= ctx.wal && OwnHarmless(ctx.wal)
      invariant |replies| <= FloodSize(eventCount)
      invariant ctx.calls == old(ctx.calls).(sends := sends + replies, pauses := ctx.calls.pauses)
      invariant cut.None? ==> ctx.calls.pauses == old(ctx.calls).pauses + PausesFor(|replies|)
      invariant OwnOn(ctx.wal, TELEMETRY) == own + FloodRecords(replies, events)
      invariant cut.Some? ==> cut.value == ctx.last && !ctx.last.Ok?
      invariant cut.None? ==> |replies| == i && Counted(c, replies)
      decreases cut == None, eventCount - i
    {
      ghost var reply;
      c, cut, reply := FloodRound(ctx, i, events(i), c, replies);
      FloodSnoc(replies, reply, events);
      PausesSnoc(i);
      Regroup(sends, replies, [reply]);
      Regroup(own, FloodRecords(replies, events), IfLanded(reply, events(i)));
      replies := replies + [reply];
      i := i + 1;
    }
  }

  /** Can the grid still be read, and is the sentinel still there? */
  method ProbeAfterFlood(ctx: Context) returns (consumeOk: bool, sentinelActive: bool, cut: Option<Reply>)
    requires OwnHarmless(ctx.wal) && ctx.calls.answers == []
    modifies ctx
    ensures old(ctx.wal) <= ctx.wal && OwnHarmless(ctx.wal)
    ensures ctx.calls == old(ctx.calls).(answers := ctx.calls.answers)
    ensures OwnOn(ctx.wal, TELEMETRY) == OwnOn(old(ctx.wal), TELEMETRY)
    ensures cut == if Answered(ctx.last) then None else Some(ctx.last)
    ensures cut.None? ==> var answers := ctx.calls.answers;
                          && |answers| == 2 && (consumeOk <==> answers[0].Ok?)
                          && (sentinelActive <==> answers[1].Ok? && On(ctx.wal, SENTINEL_LIFECYCLE) != [])
  {
    sentinelActive, cut := false, None;
    var reply, events := ctx.Consume(ATTACKS, 5);
    consumeOk := reply.Ok?;
    if !Answered(reply) { cut := Some(reply); return; }
    reply, events := ctx.Consume(SENTINEL_LIFECYCLE, 5);
    sentinelActive := |events| > 0;
    if !Answered(reply) { cut := Some(reply); }
  }

  method ExecuteEventFlood(ctx: Context, eventCount: int, clock: seq<string>) returns (o: Outcome)
    requires OwnHarmless(ctx.wal)
    modifies ctx
    ensures old(ctx.wal) <= ctx.wal && OwnHarmless(ctx.wal) && Explains(ctx.last, o)
    ensures FloodWrote(old(ctx.wal), ctx.wal, ctx.calls, eventCount, clock)
    ensures o.Returned? ==> FloodContract(ctx.wal, ctx.calls, o.result, eventCount)
  {
    ctx.Begin();
    var reply := Announce(ctx, "event_flood");
    if !Answered(reply) { return CutOff(reply); }
    FloodEventsAreFar(clock);
    var c, cut, replies := FloodLoop(ctx, eventCount, FloodEvents(clock));
    assert FloodSends(ctx.calls) == replies;
    if cut.Some? { return CutOff(cut.value); }
    var consumeOk, sentinelActive;
    consumeOk, sentinelActive, cut := ProbeAfterFlood(ctx);
    if cut.Some? { return CutOff(cut.value); }
    o := Report("event_flood", consumeOk, FloodDetail(eventCount, c.published, c.errors, consumeOk, sentinelActive));
  }

  // ----- stale invoke -----

  /** Always both: the defence held, and still something to look into. Nothing is read. */
  predicate InvokeContract(before: Wal, after: Wal, service: string, calls: Calls, r: AttackResult) {
    && IsResultOf(r, "stale_invoke") && r.detail.InvokeDetail? && r.held && r.trigger
    && calls.answers == [] && calls.pauses == 0 && |calls.sends| == 2 && r.detail.invokePublished == calls.sends[1].Ok?
    && OwnOn(after, SERVICE_STATE) == OwnOn(before, SERVICE_STATE) + IfLanded(calls.sends[1], FakeInvoke(service))
  }

  method ExecuteStaleInvoke(ctx: Context, service: string) returns (o: Outcome)
    requires OwnHarmless(ctx.wal)
    modifies ctx
    ensures old(ctx.wal) <= ctx.wal && OwnHarmless(ctx.wal) && Explains(ctx.last, o)
    ensures o.Returned? ==> InvokeContract(old(ctx.wal), ctx.wal, service, ctx.calls, o.result)
  {
    ctx.Begin();
    var reply := Announce(ctx, "stale_invoke");
    if !Answered(reply) { return CutOff(reply); }
    var defenseHeld := true;
    reply := PublishState(ctx, FakeInvoke(service));
    if !Answered(reply) { return CutOff(reply); }
    o := Returned(AttackResult("stale_invoke", defenseHeld, true, false, InvokeDetail(reply.Ok?)));
  }

  // ----- phantom registration -----

  function Mentions(events: Log): nat {
    if events == [] then 0
    else Mentions(events[..|events| - 1]) + if MentionsPhantom(events[|events| - 1].payload) then 1 else 0
  }

  ghost predicate SomeMention(events: Log) {
    exists k :: 0 <= k < |events| && MentionsPhantom(events[k].payload)
  }

  lemma {:induction false} MentionsCount(events: Log)
    ensures Mentions(events) > 0 <==> SomeMention(events)
  {
    if events != [] {
      var front := events[..|events| - 1];
      MentionsCount(front);
      if SomeMention(front) {
        var k :| 0 <= k < |front| && MentionsPhantom(front[k].payload);
        assert MentionsPhantom(events[k].payload);
      }
      if SomeMention(events) {
        var k :| 0 <= k < |events| && MentionsPhantom(events[k].payload);
        if k < |front| { assert MentionsPhantom(front[k].payload); }
      }
    }
  }

  /** The text has the name of the phantom somewhere in it. */
  ghost predicate NamesPhantom(text: string) {
    exists a, b :: text == a + "PhantomService" + b
  }

  ghost function NamingRecords(events: Log): set<nat> {
    set k: nat | k < |events| && NamesPhantom(events[k].payload.text)
  }

  lemma NamingSnoc(events: Log)
    requires events != []
    ensures var n := |events| - 1;
            && n !in NamingRecords(events[..n])
            && NamingRecords(events) ==
               NamingRecords(events[..n]) + if NamesPhantom(events[n].payload.text) then {n} else {}
  {
    var n := |events| - 1;
    assert forall k: nat :: k < n ==> events[..n][k] == events[k];
  }

  /** The scan counts every record that names the phantom, and each once. */
  lemma {:induction false} MentionsExact(events: Log)
    ensures Mentions(events) == |NamingRecords(events)|
  {
    if events != [] {
      var n := |events| - 1;
      MentionsExact(events[..n]);
      ContainsExact(events[n].payload.text, PHANTOM_SERVICE);
      NamingSnoc(events);
    }
  }

  /** What the attack did and saw, with the bus at the time of the scan: registration, scan,
      clean-up, in this order, and a verdict on the first hundred telemetry records then. */
  ghost predicate PhantomScan(before: Wal, at: Wal, after: Wal, calls: Calls, r: AttackResult)
    requires r.detail.PhantomDetail? && |calls.sends| == 3
  {
    && before <= at <= after
    && OwnOn(at, SERVICE_STATE) == OwnOn(before, SERVICE_STATE) + IfLanded(calls.sends[1], Registration())
    && OwnOn(after, SERVICE_STATE) == OwnOn(at, SERVICE_STATE) + IfLanded(calls.sends[2], Unregistration())
    && match r.detail.mentionsFound
       case None => !r.held
       case Some(found) =>
         && found == Mentions(Take(On(at, TELEMETRY), 100))
         && (r.held <==> SomeMention(Take(On(at, TELEMETRY), 100)))
  }

  ghost predicate PhantomContract(before: Wal, after: Wal, calls: Calls, r: AttackResult) {
    && IsResultOf(r, "phantom_registration") && r.detail.PhantomDetail? && r.trigger == !r.held
    && |calls.sends| == 3
    && r.detail.registered == calls.sends[1].Ok? && r.detail.cleanedUp == calls.sends[2].Ok?
    && OneAnswer(calls.answers, r.detail.mentionsFound.Some?) && calls.pauses == 1
    && exists at :: PhantomScan(before, at, after, calls, r)
  }

  /** A verdict whose read was answered is held exactly if one of the first hundred telemetry
      texts at the moment of the scan has the name of the phantom in it, and the evidence is
      the number of such texts. */
  lemma PhantomVerdictMeans(before: Wal, after: Wal, calls: Calls, r: AttackResult) returns (at: Wal)
    requires PhantomContract(before, after, calls, r) && OneAnswer(calls.answers, true)
    ensures before <= at <= after
    ensures var window := Take(On(at, TELEMETRY), 100);
            && r.detail.mentionsFound == Some(|NamingRecords(window)|)
            && (r.held <==> exists k :: 0 <= k < |window| && NamesPhantom(window[k].payload.text))
  {
    at :| PhantomScan(before, at, after, calls, r);
    var window := Take(On(at, TELEMETRY), 100);
    MentionsExact(window);
    MentionsCount(window);
    if k: nat :| k < |window| && NamesPhantom(window[k].payload.text) { assert k in NamingRecords(window); }
    if NamingRecords(window) != {} { var k :| k in NamingRecords(window); }
  }

  method ScanTelemetry(ctx: Context) returns (defenseHeld: bool, found: Option<nat>, cut: Option<Reply>)
    requires OwnHarmless(ctx.wal)
    modifies ctx
    ensures old(ctx.wal) <= ctx.wal && OwnHarmless(ctx.wal)
    ensures OwnOn(ctx.wal, SERVICE_STATE) == OwnOn(old(ctx.wal), SERVICE_STATE)
    ensures ctx.last == NextReply(old(ctx.turns)) && cut == if Answered(ctx.last) then None else Some(ctx.last)
    ensures ctx.calls == old(ctx.calls).(answers := old(ctx.calls).answers + [ctx.last])
    ensures found.Some? <==> ctx.last.Ok?
    ensures found == None ==> !defenseHeld
    ensures found.Some? ==> var mid := On(ctx.wal, TELEMETRY);
                            found.value == Mentions(Take(mid, 100)) && (defenseHeld <==> SomeMention(Take(mid, 100)))
  {
    var reply, events := ctx.Consume(TELEMETRY, 100);
    defenseHeld, found, cut := false, None, None;
    if !Answered(reply) { cut := Some(reply); return; }
    if reply.Ok? {
      found := Some(Mentions(events));
      defenseHeld := found.value > 0;
      MentionsCount(events);
    }
  }

  /** Announce, register and wait for somebody to notice. */
  method RegisterPhantom(ctx: Context) returns (registered: bool, cut: Option<Reply>)
    requires OwnHarmless(ctx.wal) && ctx.calls == NO_CALLS
    modifies ctx
    ensures old(ctx.wal) <= ctx.wal && OwnHarmless(ctx.wal)
    ensures cut.Some? ==> cut.value == ctx.last && !ctx.last.Ok?
    ensures cut.None? ==> var sends := ctx.calls.sends;
                          && ctx.calls == NO_CALLS.(sends := sends, pauses := 1) && |sends| == 2 && registered == sends[1].Ok?
                          && OwnOn(ctx.wal, SERVICE_STATE) ==
                             OwnOn(old(ctx.wal), SERVICE_STATE) + IfLanded(sends[1], Registration())
  {
    registered, cut := false, None;
    var reply := Announce(ctx, "phantom_registration");
    if !Answered(reply) { cut := Some(reply); return; }
    reply := PublishState(ctx, Registration());
    if !Answered(reply) { cut := Some(reply); return; }
    registered := reply.Ok?;
    reply := ctx.Sleep();
    if !reply.Ok? { cut := Some(reply); }
  }

  method ExecutePhantomRegistration(ctx: Context) returns (o: Outcome)
    requires OwnHarmless(ctx.wal)
    modifies ctx
    ensures old(ctx.wal) <= ctx.wal && OwnHarmless(ctx.wal) && Explains(ctx.last, o)
    ensures o.Returned? ==> PhantomContract(old(ctx.wal), ctx.wal, ctx.calls, o.result)
  {
    ctx.Begin();
    var registered, cut := RegisterPhantom(ctx);
    if cut.Some? { return CutOff(cut.value); }
    var defenseHeld, found;
    defenseHeld, found, cut := ScanTelemetry(ctx);
    if cut.Some? { return CutOff(cut.value); }
    ghost var scanned := ctx.wal;
    var reply := PublishState(ctx, Unregistration());
    if !Answered(reply) { return CutOff(reply); }
    o := Report("phantom_registration", defenseHeld, PhantomDetail(registered, found, reply.Ok?));
    assert PhantomScan(old(ctx.wal), scanned, ctx.wal, ctx.calls, o.result);
  }
}
