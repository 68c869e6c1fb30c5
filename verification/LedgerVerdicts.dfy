/** What the auditor's verdicts say about the events that put the records on the topic. */
module LedgerVerdicts {
  import opened Values
  import opened Decimal
  import opened TopicLog
  import opened Audit
  import opened LedgerSystem
  import opened LedgerInvariant
  import opened LedgerAudit

  predicate Puts(e: Event) {
    e.Commit? || (e.CommitFails? && e.landed) || e.Foreign?
  }

  /** Step `k` of the run puts record `j` on the topic. */
  ghost predicate PutAt(n: nat, run: seq<Event>, k: nat, j: nat) {
    k < |run| && Puts(run[k]) && Enabled(Replay(n, run[..k]), run[k]) && |Replay(n, run[..k]).log| == j
  }

  lemma LogGrows(s: System, e: Event)
    ensures s.log <= Apply(s, e).log
    ensures Puts(e) && Enabled(s, e) ==>
              |Apply(s, e).log| == |s.log| + 1
              && var r := Apply(s, e).log[|s.log|];
                 && r.signature == e.stamp.signature && r.certificate == e.stamp.certificate
                 && r.payload.parsed == if e.Foreign? then e.parsed
                                        else Transaction(s.insts[e.i].counter, s.insts[e.i].token.value)
    ensures !(Puts(e) && Enabled(s, e)) ==> Apply(s, e).log == s.log
  {
    OnlyWritesGrowTheLog(s, e);
  }

  lemma {:induction false} LogOnlyGrows(n: nat, run: seq<Event>, ext: seq<Event>)
    requires run <= ext
    ensures Replay(n, run).log <= Replay(n, ext).log
  {
    if run != ext {
      LogOnlyGrows(n, run, ext[..|ext| - 1]);
      LogGrows(Replay(n, ext[..|ext| - 1]), ext[|ext| - 1]);
    }
  }

  /** The record that a step puts on the topic is there for good. */
  lemma RecordStays(n: nat, run: seq<Event>, k: nat, j: nat)
    requires PutAt(n, run, k, j)
    ensures j < |Replay(n, run).log| && j < |Apply(Replay(n, run[..k]), run[k]).log|
    ensures Replay(n, run).log[j] == Apply(Replay(n, run[..k]), run[k]).log[j]
  {
    assert run[..k + 1] == run[..k] + [run[k]];
    ReplaySnoc(n, run[..k], run[k]);
    LogGrows(Replay(n, run[..k]), run[k]);
    LogOnlyGrows(n, run[..k + 1], run);
  }

  /** Every record has been put on the topic by some step. */
  lemma {:induction false} RecordHasOrigin(n: nat, run: seq<Event>, j: nat) returns (k: nat)
    requires j < |Replay(n, run).log|
    ensures PutAt(n, run, k, j)
  {
    var last := |run| - 1;
    LogGrows(Replay(n, run[..last]), run[last]);
    if j < |Replay(n, run[..last]).log| {
      k := RecordHasOrigin(n, run[..last], j);
      assert run[..last][..k] == run[..k];
    } else {
      k := last;
    }
  }

  /** The number, the label and the mark of a verdict, read off its record. */
  lemma VerdictMeans(r: Record)
    ensures VerdictOf(r).seqNo == r.seqNo
    ensures VerdictOf(r).pass <==> r.signature.Some? && r.certificate.Some?
    ensures match r.payload.parsed
            case Value(Obj(fields)) =>
              VerdictOf(r).txId == if "txId" in fields then fields["txId"] else Str("UNKNOWN")
            case _ => VerdictOf(r).txId == Str("INVALID")
  {
  }

  /**
   In every run a verdict passes exactly if the step that put its record on the topic attached
   both a signature and a certificate. A landed transaction is labelled with an id that reads
   back to its number; of other records, one that is no JSON object is INVALID and one
   without an id is UNKNOWN.
   */
  lemma VerdictsFollowSteps(n: nat, run: seq<Event>, k: nat, j: nat)
    requires PutAt(n, run, k, j) && j < |Replay(n, run).auditor.verdicts|
    ensures var verdict, stamp := Replay(n, run).auditor.verdicts[j], run[k].stamp;
            verdict.pass <==> stamp.signature.Some? && stamp.certificate.Some?
    ensures run[k].Foreign? ==>
              var txId := Replay(n, run).auditor.verdicts[j].txId;
              match run[k].parsed
              case Value(Obj(fields)) => txId == if "txId" in fields then fields["txId"] else Str("UNKNOWN")
              case _ => txId == Str("INVALID")
    ensures !run[k].Foreign? ==>
              var txId := Replay(n, run).auditor.verdicts[j].txId;
              txId.Str? && ParseTxId(txId.s) == Some(Replay(n, run[..k]).insts[run[k].i].counter)
  {
    Reachable(n, run);
    var s, e := Replay(n, run[..k]), run[k];
    RecordStays(n, run, k, j);
    LogGrows(s, e);
    VerdictMeans(Replay(n, run).log[j]);
    if !e.Foreign? { TxIdRoundTrip(s.insts[e.i].counter); }
  }

  ghost predicate AllPass(verdicts: seq<Verdict>) {
    forall j :: 0 <= j < |verdicts| ==> verdicts[j].pass
  }

  /** All verdicts pass exactly if every record judged so far came signed and certified. */
  lemma AllPassIffAllSigned(n: nat, run: seq<Event>)
    ensures var verdicts := Replay(n, run).auditor.verdicts;
            AllPass(verdicts) <==>
            forall k: nat, j: nat :: PutAt(n, run, k, j) && j < |verdicts| ==>
                                       run[k].stamp.signature.Some? && run[k].stamp.certificate.Some?
  {
    Reachable(n, run);
    var verdicts := Replay(n, run).auditor.verdicts;
    forall k: nat, j: nat | PutAt(n, run, k, j) && j < |verdicts|
      ensures verdicts[j].pass <==> run[k].stamp.signature.Some? && run[k].stamp.certificate.Some?
    {
      VerdictsFollowSteps(n, run, k, j);
    }
    if !AllPass(verdicts) {
      var j: nat :| j < |verdicts| && !verdicts[j].pass;
      var k := RecordHasOrigin(n, run, j);
    }
  }
}
