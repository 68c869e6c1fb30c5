/** What the topic and the audit of it contain after any run, and how often a lease is renewed and released. */
module LedgerAudit {
  import opened Values
  import opened Decimal
  import opened TopicLog
  import opened Audit
  import opened LedgerSystem
  import opened LedgerInvariant
  import opened LedgerTheorems

  /** How many transactions instance `i` put on the topic in this run. */
  function PublishedBy(n: nat, run: seq<Event>, i: nat): nat {
    if run == [] then 0
    else
      var before := run[..|run| - 1];
      PublishedBy(n, before, i) + if Writes(Replay(n, before), run[|run| - 1], i) then 1 else 0
  }

  lemma OnlyWritesGrowTheLog(s: System, e: Event)
    ensures Apply(s, e).log == s.log
            || (Enabled(s, e) && (e.Commit? || (e.CommitFails? && e.landed) || e.Foreign?))
    ensures Enabled(s, e) && (e.Commit? || (e.CommitFails? && e.landed)) ==>
              Apply(s, e).log == Append(s.log, Transaction(s.insts[e.i].counter, s.insts[e.i].token.value), e.stamp)
    ensures Enabled(s, e) && e.Foreign? ==> Apply(s, e).log == Append(s.log, e.parsed, e.stamp)
  {
  }

  lemma WritesGrowOwn(s: System, e: Event, i: nat)
    requires Invariant(s) && i < |s.insts| && s.insts[i].token.Some?
    ensures |Apply(s, e).insts| == |s.insts| && Apply(s, e).insts[i].token == s.insts[i].token
    ensures |Own(Apply(s, e).log, s.insts[i].token.value)| ==
            |Own(s.log, s.insts[i].token.value)| + if Writes(s, e, i) then 1 else 0
  {
    assert InstanceOk(s.log, s.minted, s.insts[i]);
    TokenStays(s, e, i);
    OnlyWritesGrowTheLog(s, e);
    if Enabled(s, e) && (e.Commit? || (e.CommitFails? && e.landed)) {
      var tx := Transaction(s.insts[e.i].counter, s.insts[e.i].token.value);
      OwnAppend(s.log, tx, e.stamp, s.insts[i].token.value);
      if e.i != i {
        assert s.insts[e.i].token != s.insts[i].token;
      }
    } else if Enabled(s, e) && e.Foreign? {
      OwnAppend(s.log, e.parsed, e.stamp, s.insts[i].token.value);
    }
  }

  /** The records under an instance's token are the ones the instance published. */
  lemma {:induction false} OwnIsPublished(n: nat, run: seq<Event>, i: nat)
    requires i < n
    ensures |Replay(n, run).insts| == n
    ensures match Replay(n, run).insts[i].token
            case None => PublishedBy(n, run, i) == 0
            case Some(t) => |Own(Replay(n, run).log, t)| == PublishedBy(n, run, i)
  {
    Reachable(n, run);
    if run != [] {
      var before, e := run[..|run| - 1], run[|run| - 1];
      Reachable(n, before);
      OwnIsPublished(n, before, i);
      var s := Replay(n, before);
      if s.insts[i].token.Some? {
        WritesGrowOwn(s, e, i);
      } else if Actor(e) != Some(i) {
        OthersKeepInstance(s, e, i);
      } else if e.Grant? && Enabled(s, e) {
        assert Own(s.log, Mint(s.minted, e.hint)) == [];
      }
    }
  }

  lemma {:induction false} OwnPrefix(log: Log, k: nat, t: int)
    requires k <= |log|
    ensures Own(log[..k], t) <= Own(log, t)
  {
    if k < |log| {
      OwnPrefix(log[..|log| - 1], k, t);
      assert log[..|log| - 1][..k] == log[..k];
    } else {
      assert log[..k] == log;
    }
  }

  lemma LabelsPrefix(own: Log, all: Log)
    requires own <= all && Labels(all) == TxIds(|all|)
    ensures Labels(own) == TxIds(|own|)
  {
    forall k | 0 <= k < |own|
      ensures Labels(own)[k] == TxIds(|own|)[k]
    {
      assert Labels(own)[k] == Labels(all)[k] == TxIds(|all|)[k];
    }
  }

  /**
   End to end: whatever the ledgers, the grid and the auditor's timing do, the auditor has
   judged the first `k` records of the topic, each exactly once and in order; for every
   fencing token the audited transactions are TX-0001 up to some number, consecutive and in
   order, and that number never exceeds what the holder of the token published.
   */
  lemma AuditIsExact(n: nat, run: seq<Event>, t: int)
    ensures var s := Replay(n, run);
            var k := |s.auditor.verdicts|;
            && k <= |s.log|
            && s.auditor.verdicts == VerdictsOf(s.log[..k])
            && (forall j :: 0 <= j < |s.log| ==> (j < k <==> s.log[j].seqNo <= s.auditor.lastSeq))
            && Labels(Own(s.log[..k], t)) == TxIds(|Own(s.log[..k], t)|)
            && |s.insts| == n
            && forall i :: 0 <= i < n && s.insts[i].token.Some? && s.insts[i].token.value == t ==>
                 |Own(s.log[..k], t)| <= PublishedBy(n, run, i) <= s.insts[i].counter
  {
    Reachable(n, run);
    var s := Replay(n, run);
    var k := |s.auditor.verdicts|;
    OwnPrefix(s.log, k, t);
    LabelsPrefix(Own(s.log[..k], t), Own(s.log, t));
    forall i | 0 <= i < n && s.insts[i].token.Some? && s.insts[i].token.value == t
      ensures |Own(s.log[..k], t)| <= PublishedBy(n, run, i) <= s.insts[i].counter
    {
      OwnIsPublished(n, run, i);
      assert InstanceOk(s.log, s.minted, s.insts[i]);
    }
  }

  /** After enough quiet polls the audit of every token is complete. */
  lemma AuditCatchesUp(n: nat, run: seq<Event>, polls: nat, i: nat)
    requires i < n
    ensures var s := Replay(n, run);
            && |s.auditor.verdicts| <= |s.log| && |s.insts| == n
            && (polls >= BatchesFor(|s.log| - |s.auditor.verdicts|) && s.insts[i].token.Some? ==>
                  && PollTimes(s.auditor, s.log, polls).verdicts == VerdictsOf(s.log)
                  && Labels(Own(s.log, s.insts[i].token.value)) == TxIds(PublishedBy(n, run, i)))
  {
    Reachable(n, run);
    var s := Replay(n, run);
    QuietBacklogDrains(s.auditor, s.log, polls);
    OwnIsPublished(n, run, i);
  }

  // ----- renewal and release -----

  /** Every renewal carries the number of the instance's fifth, tenth, ... record: markers
      strictly increase, and never more than five of its records lie beyond the last one. */
  lemma MarkersTrackRecords(n: nat, run: seq<Event>, i: nat)
    requires i < n
    ensures var s := Replay(n, run);
            && |s.insts| == n
            && (s.insts[i].token.Some? ==>
                  var own, markers := Own(s.log, s.insts[i].token.value), s.insts[i].markers;
                  && 5 * |markers| <= |own| <= 5 * |markers| + 5
                  && (forall m :: 0 <= m < |markers| ==> markers[m] == own[5 * m + 4].seqNo)
                  && (forall m, m' :: 0 <= m < m' < |markers| ==> markers[m] < markers[m']))
  {
    Reachable(n, run);
    var s := Replay(n, run);
    if s.insts[i].token.Some? {
      assert InstanceOk(s.log, s.minted, s.insts[i]);
      OwnOrdered(s.log, s.insts[i].token.value);
      FifthsIncrease(Own(s.log, s.insts[i].token.value), |s.insts[i].markers|);
    }
  }

  lemma FifthsIncrease(own: Log, m: nat)
    requires Ordered(own) && RENEW_EVERY * m <= |own|
    ensures forall j :: 0 <= j < m ==> Fifths(own, m)[j] == own[5 * j + 4].seqNo
    ensures forall j, k :: 0 <= j < k < m ==> Fifths(own, m)[j] < Fifths(own, m)[k]
  {
    forall j, k | 0 <= j < k < m
      ensures Fifths(own, m)[j] < Fifths(own, m)[k]
    {
      assert 5 * j + 4 < 5 * k + 4 < |own|;
    }
  }

  lemma {:induction false} OwnOrdered(log: Log, t: int)
    requires Ordered(log)
    ensures Ordered(Own(log, t))
    ensures forall r :: r in Own(log, t) ==> r.seqNo <= LastSeq(log)
  {
    if log != [] {
      OwnOrdered(log[..|log| - 1], t);
    }
  }

  /** A renewal is on its way exactly after a commit whose number is a multiple of five, and
      the marker it will carry is that record's. */
  lemma RenewsAtMultiplesOfFive(n: nat, run: seq<Event>, i: nat)
    requires i < n
    ensures var s := Replay(n, run);
            && |s.insts| == n
            && (s.insts[i].phase == Renewing && s.insts[i].token.Some? ==>
                  var own := Own(s.log, s.insts[i].token.value);
                  |own| == s.insts[i].counter == 5 * |s.insts[i].markers| + 5 && s.insts[i].last == LastSeq(own))
            && (s.insts[i].phase == Sleeping && s.insts[i].token.Some? ==>
                  s.insts[i].counter / 5 == |s.insts[i].markers|)
  {
    Reachable(n, run);
    var s := Replay(n, run);
    assert InstanceOk(s.log, s.minted, s.insts[i]);
  }

  /** On every way out the lease is released once if its grant was seen, and never otherwise. */
  lemma ReleasedExactlyOnce(n: nat, run: seq<Event>, i: nat)
    requires i < n
    ensures |Replay(n, run).insts| == n
    ensures var inst := Replay(n, run).insts[i];
            && inst.releases <= 1
            && (inst.releases == 1 <==> inst.phase == Exited && inst.token.Some?)
  {
    Reachable(n, run);
    assert InstanceOk(Replay(n, run).log, Replay(n, run).minted, Replay(n, run).insts[i]);
  }

  // ----- transaction ids -----

  /** Where record `j` of the log stands among the records of its token. */
  lemma {:induction false} OwnAt(log: Log, j: nat, t: int)
    requires j < |log| && TokenOf(log[j]) == Some(t)
    ensures |Own(log[..j], t)| < |Own(log, t)|
    ensures Own(log, t)[|Own(log[..j], t)|] == log[j]
  {
    var front := log[..|log| - 1];
    if j < |front| {
      OwnAt(front, j, t);
      assert front[..j] == log[..j];
    }
  }

  lemma OwnRank(log: Log, j: nat, k: nat, t: int)
    requires j < k < |log| && TokenOf(log[j]) == Some(t)
    ensures |Own(log[..j], t)| < |Own(log[..k], t)|
  {
    OwnAt(log[..k], j, t);
    assert log[..k][..j] == log[..j];
  }

  /** The p-th record of a token carries id p, so its label tells its rank. */
  lemma LabelTellsRank(log: Log, minted: nat, j: nat, t: int)
    requires TokensOk(log, minted) && j < |log| && TokenOf(log[j]) == Some(t)
    ensures LabelOf(log[j]) == Str(TxId(|Own(log[..j], t)| + 1))
  {
    OwnAt(log, j, t);
    var p := |Own(log[..j], t)|;
    assert Labels(Own(log, t))[p] == TxIds(|Own(log, t)|)[p];
  }

  /** A fencing token and a transaction id name at most one record of the topic. */
  lemma TokenAndIdAreAKey(n: nat, run: seq<Event>, j: nat, k: nat)
    requires j < k < |Replay(n, run).log|
    requires TokenOf(Replay(n, run).log[j]).Some?
    requires TokenOf(Replay(n, run).log[j]) == TokenOf(Replay(n, run).log[k])
    ensures LabelOf(Replay(n, run).log[j]) != LabelOf(Replay(n, run).log[k])
  {
    Reachable(n, run);
    var s := Replay(n, run);
    var t := TokenOf(s.log[j]).value;
    LabelTellsRank(s.log, s.minted, j, t);
    LabelTellsRank(s.log, s.minted, k, t);
    OwnRank(s.log, j, k, t);
    if LabelOf(s.log[j]) == LabelOf(s.log[k]) {
      TxIdInjective(|Own(s.log[..j], t)| + 1, |Own(s.log[..k], t)| + 1);
    }
  }

  ghost predicate IdsDistinct(log: Log) {
    forall j, k :: 0 <= j < k < |log| && TokenOf(log[j]).Some? && TokenOf(log[k]).Some? ==>
                     LabelOf(log[j]) != LabelOf(log[k])
  }

  ghost predicate OneWriter(log: Log) {
    forall j, k :: 0 <= j < |log| && 0 <= k < |log| && TokenOf(log[j]).Some? && TokenOf(log[k]).Some? ==>
                     TokenOf(log[j]) == TokenOf(log[k])
  }

  /** The first transaction of any token is TX-0001. */
  lemma FirstIsOne(log: Log, minted: nat, j: nat) returns (f: nat)
    requires TokensOk(log, minted) && j < |log| && TokenOf(log[j]).Some?
    ensures f <= j && TokenOf(log[f]) == TokenOf(log[j]) && LabelOf(log[f]) == Str(TxId(1))
  {
    var t := TokenOf(log[j]).value;
    f := j;
    while Own(log[..f], t) != []
      invariant f <= j && TokenOf(log[f]) == Some(t)
      decreases f
    {
      f := EarlierOwn(log[..f], t);
    }
    LabelTellsRank(log, minted, f, t);
  }

  lemma {:induction false} EarlierOwn(log: Log, t: int) returns (f: nat)
    requires Own(log, t) != []
    ensures f < |log| && TokenOf(log[f]) == Some(t)
  {
    if TokenOf(log[|log| - 1]) == Some(t) {
      f := |log| - 1;
    } else {
      f := EarlierOwn(log[..|log| - 1], t);
    }
  }

  /** Transaction ids alone are unique on the topic exactly as long as no second holder has
      written: every holder starts again at TX-0001. */
  lemma IdsDistinctIffOneWriter(n: nat, run: seq<Event>)
    ensures IdsDistinct(Replay(n, run).log) <==> OneWriter(Replay(n, run).log)
  {
    Reachable(n, run);
    var s := Replay(n, run);
    if OneWriter(s.log) {
      forall j, k | 0 <= j < k < |s.log| && TokenOf(s.log[j]).Some? && TokenOf(s.log[k]).Some?
        ensures LabelOf(s.log[j]) != LabelOf(s.log[k])
      {
        TokenAndIdAreAKey(n, run, j, k);
      }
    } else {
      var j, k :| 0 <= j < |s.log| && 0 <= k < |s.log| && TokenOf(s.log[j]).Some? && TokenOf(s.log[k]).Some?
                  && TokenOf(s.log[j]) != TokenOf(s.log[k]);
      var f := FirstIsOne(s.log, s.minted, j);
      var g := FirstIsOne(s.log, s.minted, k);
      assert f != g;
    }
  }
}
