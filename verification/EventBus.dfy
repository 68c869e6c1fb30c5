/** The event bus as an attack sees it: between and during its calls other services keep
    publishing, and every call may fail or be cut off. */
module EventBus {
  import opened Values
  import opened TopicLog

  const TELEMETRY := "system.telemetry"
  const SERVICE_STATE := "system.service-state"
  const ATTACKS := "grid-gauntlet.provocateur.attacks"
  const SENTINEL_LIFECYCLE := "grid-gauntlet.sentinel.lifecycle"
  const PROVOCATEUR_NODE := "provocateur-node"
  const PHANTOM_SERVICE := "PhantomService"

  /** One committed record; `own` marks those of the attacks. */
  datatype Commit = Commit(topic: string, payload: Payload, stamp: Stamp, own: bool)

  /** All commits of the grid in order. A topic is what was committed to it. */
  type Wal = seq<Commit>

  function On(wal: Wal, topic: string): Log {
    if wal == [] then []
    else
      var before, c := On(wal[..|wal| - 1], topic), wal[|wal| - 1];
      if c.topic == topic then Append(before, c.payload.parsed, c.stamp.(text := c.payload.text)) else before
  }

  /** What the attacks put on a topic. */
  function OwnOn(wal: Wal, topic: string): seq<Payload> {
    if wal == [] then []
    else
      var before, c := OwnOn(wal[..|wal| - 1], topic), wal[|wal| - 1];
      if c.own && c.topic == topic then before + [c.payload] else before
  }

  /** A JSON object that names the attacker as the holder of a lease. */
  predicate NamesAttacker(parsed: Parsed) {
    parsed.Value? && parsed.json.Obj? && "holderNodeId" in parsed.json.fields
    && parsed.json.fields["holderNodeId"] == Str(PROVOCATEUR_NODE)
  }

  predicate MentionsPhantom(payload: Payload) {
    Contains(payload.text, PHANTOM_SERVICE)
  }

  /** A record that cannot sway the scan some attack makes of its topic. */
  predicate Harmless(topic: string, payload: Payload) {
    && (topic == SERVICE_STATE ==> !NamesAttacker(payload.parsed))
    && (topic == TELEMETRY ==> !MentionsPhantom(payload))
  }

  predicate OwnHarmless(wal: Wal) {
    wal == []
    || (var c := wal[|wal| - 1];
        (c.own ==> Harmless(c.topic, c.payload)) && OwnHarmless(wal[..|wal| - 1]))
  }

  lemma {:induction false} CommitFacts(wal: Wal, c: Commit, topic: string)
    ensures On(wal + [c], topic) ==
            if c.topic == topic then Append(On(wal, topic), c.payload.parsed, c.stamp.(text := c.payload.text)) else On(wal, topic)
    ensures OwnOn(wal + [c], topic) == OwnOn(wal, topic) + if c.own && c.topic == topic then [c.payload] else []
    ensures OwnHarmless(wal + [c]) <==> OwnHarmless(wal) && (c.own ==> Harmless(c.topic, c.payload))
  {
    assert (wal + [c])[..|wal|] == wal;
  }

  lemma {:induction false} TopicsAreOrdered(wal: Wal, topic: string)
    ensures Ordered(On(wal, topic))
  {
    if wal != [] {
      var before, c := wal[..|wal| - 1], wal[|wal| - 1];
      TopicsAreOrdered(before, topic);
      AppendKeepsOrder(On(before, topic), c.payload.parsed, c.stamp.(text := c.payload.text));
    }
  }

  /** Topics only grow, and they grow at least by what the attacks put there. */
  lemma {:induction false} TopicsGrow(before: Wal, after: Wal, topic: string)
    requires before <= after
    ensures On(before, topic) <= On(after, topic)
    ensures OwnOn(before, topic) <= OwnOn(after, topic)
    ensures |On(after, topic)| - |On(before, topic)| >= |OwnOn(after, topic)| - |OwnOn(before, topic)|
  {
    if before != after { TopicsGrow(before, after[..|after| - 1], topic); }
  }

  /** Every record of a topic was committed there. */
  lemma {:induction false} RecordWasCommitted(wal: Wal, topic: string, k: nat) returns (j: nat)
    requires k < |On(wal, topic)|
    ensures j < |wal| && wal[j].topic == topic && wal[j].payload == On(wal, topic)[k].payload
  {
    var n := |wal| - 1;
    if k < |On(wal[..n], topic)| {
      j := RecordWasCommitted(wal[..n], topic, k);
    } else {
      j := n;
    }
  }

  /** And every commit to a topic is a record of it, behind the records of earlier commits. */
  lemma {:induction false} CommitIsOnTopic(wal: Wal, j: nat)
    requires j < |wal|
    ensures var topic := wal[j].topic;
            var k := |On(wal[..j], topic)|;
            k < |On(wal, topic)| && On(wal, topic)[k].payload == wal[j].payload
  {
    var topic := wal[j].topic;
    if j < |wal| - 1 {
      CommitIsOnTopic(wal[..|wal| - 1], j);
      assert wal[..|wal| - 1][..j] == wal[..j];
    }
  }

  lemma {:induction false} OwnHarmlessAt(wal: Wal, j: nat)
    requires OwnHarmless(wal) && j < |wal| && wal[j].own
    ensures Harmless(wal[j].topic, wal[j].payload)
  {
    if j < |wal| - 1 { OwnHarmlessAt(wal[..|wal| - 1], j); }
  }

  /** `Error` is an exception of the call; `Timeout` cancels the scenario, `Shutdown` the
      whole playbook. In each of these cases the request may have taken effect, before the
      caller goes on. */
  datatype Reply = Ok | Error(landed: bool) | Timeout(landed: bool) | Shutdown(landed: bool)

  /** Whether the request took effect. */
  predicate Lands(reply: Reply) {
    reply.Ok? || reply.landed
  }

  /** What happens at one `await`: others publish, then the call is answered. */
  datatype Turn = Turn(arrivals: seq<(string, Payload, Stamp)>, reply: Reply, stamp: Stamp)

  /** How the next call will be answered. A script that has run out is the scenario's timeout. */
  function NextReply(turns: seq<Turn>): Reply {
    if turns == [] then Timeout(false) else turns[0].reply
  }

  predicate Answered(reply: Reply) {
    reply.Ok? || reply.Error?
  }

  /** How the calls of one scenario were answered so far: its publishes, its reads and its
      tattle reports; `tattled` are the numbers of the reports that were filed, `pauses` counts
      the sleeps. */
  datatype Calls = Calls(sends: seq<Reply>, answers: seq<Reply>, reports: seq<Reply>, tattled: seq<nat>,
                         pauses: nat)

  const NO_CALLS := Calls([], [], [], [], 0)

  /** Others have committed since, the attacks have not. */
  ghost predicate OthersSince(before: Wal, after: Wal) {
    before <= after && forall k :: |before| <= k < |after| ==> !after[k].own
  }

  lemma {:induction false} OthersLeaveOwn(before: Wal, after: Wal, topic: string)
    requires OthersSince(before, after)
    ensures OwnOn(after, topic) == OwnOn(before, topic)
    ensures OwnHarmless(after) <==> OwnHarmless(before)
  {
    if before != after { OthersLeaveOwn(before, after[..|after| - 1], topic); }
  }

  class Context {
    var wal: Wal
    var turns: seq<Turn>
    ghost var last: Reply    // how the latest call was answered
    ghost var calls: Calls   // of the current scenario

    constructor (wal: Wal, turns: seq<Turn>)
      ensures this.wal == wal && this.turns == turns && last == Ok && calls == NO_CALLS
    {
      this.wal, this.turns, last, calls := wal, turns, Ok, NO_CALLS;
    }

    ghost method Begin()
      modifies this`calls
      ensures calls == NO_CALLS
    {
      calls := NO_CALLS;
    }

    /** One `await` that does not touch the bus, such as a sleep. */
    method Await() returns (reply: Reply, stamp: Stamp)
      modifies this`wal, this`turns, this`last
      ensures OthersSince(old(wal), wal)
      ensures reply == last == NextReply(old(turns))
      ensures old(turns) == [] ==> wal == old(wal) && turns == []
      ensures old(turns) != [] ==> turns == old(turns)[1..] && |wal| == |old(wal)| + |old(turns)[0].arrivals|
    {
      last := NextReply(turns);
      if turns == [] {
        return Timeout(false), Stamp(0, "", None, None);
      }
      var turn := turns[0];
      turns := turns[1..];
      for k := 0 to |turn.arrivals|
        invariant OthersSince(old(wal), wal) && |wal| == |old(wal)| + k
        invariant turns == old(turns)[1..] && last == turn.reply
      {
        var (topic, payload, stamp) := turn.arrivals[k];
        wal := wal + [Commit(topic, payload, stamp, false)];
      }
      return turn.reply, turn.stamp;
    }

    /** Wait for an answer while others go on. */
    method Wait() returns (reply: Reply)
      requires OwnHarmless(wal)
      modifies this`wal, this`turns, this`last
      ensures old(wal) <= wal && OwnHarmless(wal) && reply == last == NextReply(old(turns))
      ensures OwnOn(wal, TELEMETRY) == OwnOn(old(wal), TELEMETRY)
      ensures OwnOn(wal, SERVICE_STATE) == OwnOn(old(wal), SERVICE_STATE)
    {
      var stamp: Stamp;
      reply, stamp := Await();
      OthersLeaveOwn(old(wal), wal, TELEMETRY);
      OthersLeaveOwn(old(wal), wal, SERVICE_STATE);
    }

    method Sleep() returns (reply: Reply)
      requires OwnHarmless(wal)
      modifies this
      ensures old(wal) <= wal && OwnHarmless(wal) && reply == last == NextReply(old(turns))
      ensures calls == old(calls).(pauses := old(calls).pauses + 1)
      ensures OwnOn(wal, TELEMETRY) == OwnOn(old(wal), TELEMETRY)
      ensures OwnOn(wal, SERVICE_STATE) == OwnOn(old(wal), SERVICE_STATE)
    {
      reply := Wait();
      calls := calls.(pauses := calls.pauses + 1);
    }

    method Publish(topic: string, payload: Payload) returns (reply: Reply)
      requires OwnHarmless(wal) && Harmless(topic, payload)
      modifies this
      ensures old(wal) <= wal && OwnHarmless(wal) && reply == last == NextReply(old(turns))
      ensures calls == old(calls).(sends := old(calls).sends + [reply])
      ensures OwnOn(wal, TELEMETRY) ==
              OwnOn(old(wal), TELEMETRY) + if Lands(reply) && topic == TELEMETRY then [payload] else []
      ensures OwnOn(wal, SERVICE_STATE) ==
              OwnOn(old(wal), SERVICE_STATE) + if Lands(reply) && topic == SERVICE_STATE then [payload] else []
    {
      var stamp: Stamp;
      reply, stamp := Await();
      calls := calls.(sends := calls.sends + [reply]);
      OthersLeaveOwn(old(wal), wal, TELEMETRY);
      OthersLeaveOwn(old(wal), wal, SERVICE_STATE);
      if Lands(reply) {
        CommitFacts(wal, Commit(topic, payload, stamp, true), TELEMETRY);
        CommitFacts(wal, Commit(topic, payload, stamp, true), SERVICE_STATE);
        wal := wal + [Commit(topic, payload, stamp, true)];
      }
    }

    /** `consume(topic, after=0, count)`: a window at the front of the topic as it stands. */
    method Consume(topic: string, count: nat) returns (reply: Reply, events: Log)
      requires OwnHarmless(wal)
      modifies this
      ensures old(wal) <= wal && OwnHarmless(wal) && reply == last == NextReply(old(turns))
      ensures calls == old(calls).(answers := old(calls).answers + [reply])
      ensures OwnOn(wal, TELEMETRY) == OwnOn(old(wal), TELEMETRY)
      ensures OwnOn(wal, SERVICE_STATE) == OwnOn(old(wal), SERVICE_STATE)
      ensures events == if reply.Ok? then Take(On(wal, topic), count) else []
    {
      reply := Wait();
      calls := calls.(answers := calls.answers + [reply]);
      events := [];
      if reply.Ok? {
        TopicsAreOrdered(wal, topic);
        ConsumeFromStart(On(wal, topic), count);
        events := TopicLog.Consume(On(wal, topic), 0, count);
      }
    }

    /** `ipc.report_tattle`, the report numbered `number` of this attack. */
    method ReportTattle(number: nat) returns (reply: Reply)
      requires OwnHarmless(wal)
      modifies this
      ensures old(wal) <= wal && OwnHarmless(wal) && reply == last == NextReply(old(turns))
      ensures calls == old(calls).(reports := old(calls).reports + [reply],
                                   tattled := old(calls).tattled + if Lands(reply) then [number] else [])
    {
      reply := Wait();
      calls := calls.(reports := calls.reports + [reply],
                      tattled := calls.tattled + if Lands(reply) then [number] else []);
    }
  }

  /** The first `count` records never change once they are there. */
  lemma WindowIsSettled(early: Log, late: Log, count: nat)
    requires early <= late && |early| >= count
    ensures Take(late, count) == Take(early, count)
  {
  }
}
