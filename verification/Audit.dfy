/** The ledger auditor: what it says about one event, and what a batch of ten does to it. */
module Audit {
  import opened Values
  import opened TopicLog

  const BATCH := 10

  /** One log line of the auditor. */
  datatype Verdict = Verdict(seqNo: nat, txId: Json, pass: bool)

  datatype Auditor = Auditor(lastSeq: nat, verdicts: seq<Verdict>)

  const FRESH := Auditor(0, [])

  /** The transaction id as the auditor extracts it. Every failure, a payload that is not
      an object included, gives "INVALID". */
  function LabelOf(r: Record): Json {
    match r.payload.parsed
    case Value(Obj(fields)) => if "txId" in fields then fields["txId"] else Str("UNKNOWN")
    case _ => Str("INVALID")
  }

  function VerdictOf(r: Record): Verdict {
    Verdict(r.seqNo, LabelOf(r), r.signature.Some? && r.certificate.Some?)
  }

  function VerdictsOf(log: Log): seq<Verdict> {
    seq(|log|, i requires 0 <= i < |log| => VerdictOf(log[i]))
  }

  function AuditOne(a: Auditor, r: Record): Auditor {
    Auditor(r.seqNo, a.verdicts + [VerdictOf(r)])
  }

  function AuditBatch(a: Auditor, events: Log): Auditor {
    if events == [] then a
    else AuditOne(AuditBatch(a, events[..|events| - 1]), events[|events| - 1])
  }

  /** One turn of the outer loop on a topic that holds `log`. */
  function Poll(a: Auditor, log: Log): Auditor {
    AuditBatch(a, Consume(log, a.lastSeq, BATCH))
  }

  /** The auditor has judged exactly the first records of the log, each once and in order,
      and its cursor stands right behind them. */
  ghost predicate InStep(a: Auditor, log: Log) {
    && Ordered(log)
    && CursorAt(log, |a.verdicts|, a.lastSeq)
    && a.lastSeq <= LastSeq(log)
    && a.verdicts == VerdictsOf(log[..|a.verdicts|])
  }

  lemma {:induction false} BatchClosedForm(a: Auditor, events: Log)
    ensures AuditBatch(a, events).verdicts == a.verdicts + VerdictsOf(events)
    ensures AuditBatch(a, events).lastSeq == if events == [] then a.lastSeq else LastSeq(events)
  {
    if events != [] {
      BatchClosedForm(a, events[..|events| - 1]);
    }
  }

  /** A poll judges the next records, at most ten of them, and leaves the auditor in step. */
  lemma PollKeepsStep(a: Auditor, log: Log)
    requires InStep(a, log)
    ensures InStep(Poll(a, log), log)
    ensures |Poll(a, log).verdicts| == Min(|a.verdicts| + 10, |log|)
  {
    var k := |a.verdicts|;
    ConsumeAt(log, k, a.lastSeq, BATCH);
    var events := Take(log[k..], BATCH);
    BatchClosedForm(a, events);
    var k' := k + |events|;
    assert VerdictsOf(log[..k']) == VerdictsOf(log[..k]) + VerdictsOf(events);
    if events != [] {
      assert events[|events| - 1] == log[k' - 1];
      CursorAfter(log, k');
    }
  }

  lemma AppendKeepsStep(a: Auditor, log: Log, parsed: Parsed, stamp: Stamp)
    requires InStep(a, log)
    ensures InStep(a, Append(log, parsed, stamp))
  {
    CursorSurvivesAppend(log, |a.verdicts|, a.lastSeq, parsed, stamp);
    assert Append(log, parsed, stamp)[..|a.verdicts|] == log[..|a.verdicts|];
  }

  function PollTimes(a: Auditor, log: Log, n: nat): Auditor {
    if n == 0 then a else Poll(PollTimes(a, log, n - 1), log)
  }

  /** Read requests the auditor makes before it first sleeps, with `backlog` records unread. */
  function BatchesFor(backlog: nat): nat {
    (backlog + BATCH - 1) / BATCH
  }

  lemma {:induction false} PollsAdvance(a: Auditor, log: Log, n: nat)
    requires InStep(a, log)
    ensures InStep(PollTimes(a, log, n), log)
    ensures |PollTimes(a, log, n).verdicts| == Min(|a.verdicts| + BATCH * n, |log|)
  {
    if n > 0 {
      PollsAdvance(a, log, n - 1);
      PollKeepsStep(PollTimes(a, log, n - 1), log);
    }
  }

  /** A read comes back empty, so that the auditor sleeps, exactly when nothing is unread. */
  lemma SleepsIffCaughtUp(a: Auditor, log: Log)
    requires InStep(a, log)
    ensures Consume(log, a.lastSeq, BATCH) == [] <==> |a.verdicts| == |log|
  {
    ConsumeAt(log, |a.verdicts|, a.lastSeq, BATCH);
  }

  /** A quiet backlog is drained in ceil(backlog / 10) reads, none of them empty; the next
      read is empty. */
  lemma QuietBacklogDrains(a: Auditor, log: Log, n: nat)
    requires InStep(a, log)
    ensures BatchesFor(|log| - |a.verdicts|) == (|log| - |a.verdicts| + 9) / 10
    ensures Consume(log, PollTimes(a, log, n).lastSeq, 10) == [] <==> n >= BatchesFor(|log| - |a.verdicts|)
    ensures n >= BatchesFor(|log| - |a.verdicts|) ==> PollTimes(a, log, n).verdicts == VerdictsOf(log)
  {
    PollsAdvance(a, log, n);
    var b := PollTimes(a, log, n);
    SleepsIffCaughtUp(b, log);
    if |b.verdicts| == |log| { assert log[..|log|] == log; }
  }
}
