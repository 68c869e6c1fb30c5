/** What a lost lease means for the readers of the topic and for the lease itself. */
module LedgerFencing {
  import opened Values
  import opened TopicLog
  import opened LedgerSystem
  import opened LedgerInvariant
  import opened LedgerTheorems
  import opened LedgerAudit

  // ----- what a reader sees of stale writes -----

  /** Only the newest token is ever current. */
  lemma {:induction false} HolderIsNewest(n: nat, run: seq<Event>)
    ensures var s := Replay(n, run);
            s.holder.Some? ==> s.holder.value == s.minted
  {
    if run != [] { HolderIsNewest(n, run[..|run| - 1]); }
  }

  /** A token that has records belongs to an instance. */
  lemma {:induction false} TokenHasInstance(n: nat, run: seq<Event>, t: int) returns (i: nat)
    requires Own(Replay(n, run).log, t) != []
    ensures i < n && |Replay(n, run).insts| == n
    ensures Replay(n, run).insts[i].token.Some? && Replay(n, run).insts[i].token.value == t
  {
    var before, e := run[..|run| - 1], run[|run| - 1];
    var s := Replay(n, before);
    Reachable(n, before);
    if Own(s.log, t) != [] {
      i := TokenHasInstance(n, before, t);
      WritesGrowOwn(s, e, i);
    } else {
      OnlyWritesGrowTheLog(s, e);
      i := e.i;
      OwnAppend(s.log, Transaction(s.insts[i].counter, s.insts[i].token.value), e.stamp, t);
      WritesGrowOwn(s, e, i);
    }
  }

  /** One step adds a record of `t` only by a write of its instance, which is stale if a newer
      token has a record already. */
  lemma LateStep(s: System, e: Event, i: nat, t: nat, newer: int, f: nat, stale: nat)
    requires Invariant(s) && (s.holder.Some? ==> s.holder.value == s.minted)
    requires i < |s.insts| && s.insts[i].token == Some(t) && t < newer
    requires f < |s.log| && TokenOf(s.log[f]) == Some(newer)
    requires |Own(s.log, t)| <= |Own(s.log[..f], t)| + stale
    ensures f < |Apply(s, e).log|
    ensures |Own(Apply(s, e).log, t)| <= |Own(Apply(s, e).log[..f], t)| + stale + if StaleWrite(s, e, i) then 1 else 0
  {
    OwnAt(s.log, f, newer);
    assert newer <= s.minted;
    WritesGrowOwn(s, e, i);
    LogGrows(s, e);
    assert Apply(s, e).log[..f] == s.log[..f];
  }

  lemma LogGrows(s: System, e: Event)
    ensures s.log <= Apply(s, e).log && |Apply(s, e).log| <= |s.log| + 1
  {
    OnlyWritesGrowTheLog(s, e);
  }

  /** A record of another token adds nothing to the records of `t`. */
  lemma OtherRecordLast(log: Log, t: int)
    requires log != [] && TokenOf(log[|log| - 1]) != Some(t)
    ensures Own(log, t) == Own(log[..|log| - 1], t)
  {
  }

  /** A record of the newer token that has just come, or a token `t` that has, finds no late
      record. */
  lemma NoneLateYet(s: System, e: Event, i: nat, t: nat, newer: int, f: nat)
    requires Invariant(s) && t < newer
    requires i < |s.insts| == |Apply(s, e).insts| && Apply(s, e).insts[i].token == Some(t)
    requires f < |Apply(s, e).log| && TokenOf(Apply(s, e).log[f]) == Some(newer)
    requires f >= |s.log| || s.insts[i].token != Some(t)
    ensures |Own(Apply(s, e).log, t)| <= |Own(Apply(s, e).log[..f], t)|
  {
    var log := Apply(s, e).log;
    LogGrows(s, e);
    if f >= |s.log| {
      assert f == |log| - 1;
      OtherRecordLast(log, t);
    } else {
      NewTokenIsUnused(s, e, i, t);
    }
  }

  lemma NewTokenIsUnused(s: System, e: Event, i: nat, t: nat)
    requires Invariant(s) && i < |s.insts| && s.insts[i].token != Some(t)
    requires |Apply(s, e).insts| == |s.insts| && Apply(s, e).insts[i].token == Some(t)
    ensures Own(Apply(s, e).log, t) == []
  {
    if Actor(e) != Some(i) { OthersKeepInstance(s, e, i); }
    assert Apply(s, e).log == s.log && t > s.minted;
  }

  /** Every record of `t` behind a record of a newer token was written under a lost lease. */
  lemma {:induction false} LateRecordsAreStale(n: nat, run: seq<Event>, i: nat, t: nat, newer: int, f: nat)
    requires i < |Replay(n, run).insts| && Replay(n, run).insts[i].token == Some(t) && t < newer
    requires f < |Replay(n, run).log| && TokenOf(Replay(n, run).log[f]) == Some(newer)
    ensures |Own(Replay(n, run).log, t)| <= |Own(Replay(n, run).log[..f], t)| + StaleWritesOf(n, run, i)
  {
    var before, e := run[..|run| - 1], run[|run| - 1];
    var s := Replay(n, before);
    assert Replay(n, run) == Apply(s, e);
    Reachable(n, before);
    ApplyKeepsCount(s, e);
    LogGrows(s, e);
    if f < |s.log| && s.insts[i].token == Some(t) {
      LateRecordsAreStale(n, before, i, t, newer, f);
      HolderIsNewest(n, before);
      LateStep(s, e, i, t, newer, f, StaleWritesOf(n, before, i));
    } else {
      NoneLateYet(s, e, i, t, newer, f);
    }
  }

  /**
   What a reader of the topic can rely on, whatever the ledgers and the grid do: behind any
   record of a newer token there are at most five records of an older one.
   */
  lemma AtMostFiveLateRecords(n: nat, run: seq<Event>, t: int, newer: int, f: nat)
    requires f < |Replay(n, run).log| && TokenOf(Replay(n, run).log[f]) == Some(newer) && t < newer
    ensures |Own(Replay(n, run).log, t)| - |Own(Replay(n, run).log[..f], t)| <= 5
  {
    if Own(Replay(n, run).log, t) != [] {
      var i := TokenHasInstance(n, run, t);
      LateRecordsAreStale(n, run, i, t, newer, f);
      AtMostFiveStaleWrites(n, run, i);
    }
  }

  // ----- a grant whose reply is lost -----

  predicate MovesLease(e: Event) {
    e.Grant? || e.GrantLost? || e.Lapse?
  }

  /** The lease is out under a token that no instance knows. */
  ghost predicate Orphaned(s: System, t: nat) {
    s.holder == Some(t) && forall j :: 0 <= j < |s.insts| ==> s.insts[j].token != Some(t)
  }

  lemma OrphanStays(s: System, e: Event, t: nat)
    requires Orphaned(s, t) && !MovesLease(e)
    ensures Orphaned(Apply(s, e), t)
  {
  }

  lemma GoneForGood(s: System, e: Event, i: nat)
    requires i < |s.insts| && s.insts[i] == NEW_INSTANCE.(phase := Exited)
    ensures |Apply(s, e).insts| == |s.insts| && Apply(s, e).insts[i] == s.insts[i]
  {
    if Actor(e) != Some(i) { OthersKeepInstance(s, e, i); }
  }

  /** A grant whose reply never reaches the task: whatever happens later, this instance never
      releases a lease, and until the grid takes the lease away it stays with nobody. */
  lemma {:induction false} LostGrantIsNeverReleased(n: nat, run: seq<Event>, ext: seq<Event>, i: nat, hint: nat)
    requires At(Replay(n, run), i, Waiting) && run + [GrantLost(i, hint)] <= ext
    ensures |Replay(n, ext).insts| == n && i < n
    ensures Replay(n, ext).insts[i] == NEW_INSTANCE.(phase := Exited)
    ensures (forall k :: |run| < k < |ext| ==> !MovesLease(ext[k])) ==>
              Orphaned(Replay(n, ext), Mint(Replay(n, run).minted, hint))
  {
    Reachable(n, run);
    var before, e := ext[..|ext| - 1], ext[|ext| - 1];
    Reachable(n, before);
    var s := Replay(n, before);
    var t := Mint(Replay(n, run).minted, hint);
    if |ext| == |run| + 1 {
      assert before == run && e == GrantLost(i, hint);
      LostGrantOrphans(s, i, hint);
    } else {
      LostGrantIsNeverReleased(n, run, before, i, hint);
      GoneForGood(s, e, i);
      if forall k :: |run| < k < |ext| ==> !MovesLease(ext[k]) {
        assert forall k :: |run| < k < |before| ==> before[k] == ext[k];
        assert !MovesLease(ext[|ext| - 1]);
        OrphanStays(s, e, t);
      }
    }
  }

  lemma LostGrantOrphans(s: System, i: nat, hint: nat)
    requires Invariant(s) && At(s, i, Waiting)
    ensures var s' := Apply(s, GrantLost(i, hint));
            && |s'.insts| == |s.insts| && s'.insts[i] == NEW_INSTANCE.(phase := Exited)
            && Orphaned(s', Mint(s.minted, hint))
  {
    assert InstanceOk(s.log, s.minted, s.insts[i]);
    var s' := Apply(s, GrantLost(i, hint));
    forall j | 0 <= j < |s.insts|
      ensures s'.insts[j].token != Some(Mint(s.minted, hint))
    {
      assert InstanceOk(s.log, s.minted, s.insts[j]);
    }
  }
}
