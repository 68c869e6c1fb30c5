/** The promises of the ledger and its auditor, over every run of any number of instances. */
module LedgerTheorems {
  import opened Values
  import opened Decimal
  import opened TopicLog
  import opened Audit
  import opened LedgerSystem
  import opened LedgerInvariant

  // ----- writes after the lease is lost -----

  /** The instance was granted a lease that the grid no longer honours. */
  predicate Stale(s: System, i: nat) {
    i < |s.insts| && s.insts[i].token.Some? && s.holder != s.insts[i].token
  }

  predicate StaleWrite(s: System, e: Event, i: nat) {
    Writes(s, e, i) && Stale(s, i)
  }

  /** The lease is taken from whoever holds it, by the grid or by the next grant. */
  predicate LosesLease(s: System, e: Event) {
    s.holder.Some? && Enabled(s, e) && (e.Lapse? || e.Grant? || e.GrantLost?)
  }

  function StaleWritesOf(n: nat, run: seq<Event>, i: nat): nat {
    if run == [] then 0
    else
      var before := run[..|run| - 1];
      StaleWritesOf(n, before, i) + if StaleWrite(Replay(n, before), run[|run| - 1], i) then 1 else 0
  }

  /** Transactions that land on the topic under a lost lease, whoever writes them. */
  function StaleWrites(n: nat, run: seq<Event>): nat {
    if run == [] then 0
    else
      var before, e := run[..|run| - 1], run[|run| - 1];
      StaleWrites(n, before)
      + if (e.Commit? || e.CommitFails?) && StaleWrite(Replay(n, before), e, e.i) then 1 else 0
  }

  function Losses(n: nat, run: seq<Event>): nat {
    if run == [] then 0
    else
      var before := run[..|run| - 1];
      Losses(n, before) + if LosesLease(Replay(n, before), run[|run| - 1]) then 1 else 0
  }

  /** How many transactions an instance can still write before a renewal must succeed. */
  function BudgetOf(inst: Instance, stale: bool): nat {
    match inst.phase
    case Waiting => RENEW_EVERY
    case Writing => if stale && inst.counter > 0 then RENEW_EVERY - (inst.counter - 1) % RENEW_EVERY else RENEW_EVERY
    case Renewing => if stale then 0 else RENEW_EVERY
    case Sleeping => if stale then RENEW_EVERY - inst.counter % RENEW_EVERY else RENEW_EVERY
    case Releasing => 0
    case Exited => 0
  }

  function Budget(s: System, i: nat): nat
    requires i < |s.insts|
  {
    BudgetOf(s.insts[i], Stale(s, i))
  }

  lemma BudgetAtMostFive(inst: Instance, stale: bool)
    ensures BudgetOf(inst, stale) <= 5
    ensures BudgetOf(inst, true) <= BudgetOf(inst, false)
  {
  }

  /** A commit spends one write; at a multiple of five it spends the last one. */
  lemma CommitSpends(inst: Instance, seqNo: nat)
    requires inst.phase == Writing && inst.counter > 0
    ensures BudgetOf(AfterCommit(inst, seqNo), true) + 1 == BudgetOf(inst, true)
  {
    var c := inst.counter;
    if c % RENEW_EVERY == 0 {
      assert (c - 1) % RENEW_EVERY == 4;
    } else {
      assert (c - 1) % RENEW_EVERY == c % RENEW_EVERY - 1;
    }
  }

  /** The lease stays where it is, goes away, or moves to a token never seen before. */
  lemma HolderStep(s: System, e: Event)
    ensures Apply(s, e).holder == s.holder || Apply(s, e).holder == None || Apply(s, e).holder.value > s.minted
  {
  }

  /** An instance keeps the token it was granted. */
  lemma TokenStays(s: System, e: Event, i: nat)
    requires i < |s.insts| && s.insts[i].token.Some?
    requires s.insts[i].phase != Waiting
    ensures |Apply(s, e).insts| == |s.insts| && Apply(s, e).insts[i].token == s.insts[i].token
  {
  }

  /** No step makes an old token current again. */
  lemma StaysStale(s: System, e: Event, i: nat)
    requires Invariant(s) && Stale(s, i)
    ensures Stale(Apply(s, e), i) && Apply(s, e).insts[i].token == s.insts[i].token
  {
    assert InstanceOk(s.log, s.minted, s.insts[i]);
    TokenStays(s, e, i);
    HolderStep(s, e);
  }

  /** A lost lease stays lost for the rest of the run. */
  lemma {:induction false} StaleForGood(n: nat, run: seq<Event>, ext: seq<Event>, i: nat)
    requires run <= ext && Stale(Replay(n, run), i)
    ensures Stale(Replay(n, ext), i) && Replay(n, ext).insts[i].token == Replay(n, run).insts[i].token
  {
    if run != ext {
      var before, e := ext[..|ext| - 1], ext[|ext| - 1];
      StaleForGood(n, run, before, i);
      Reachable(n, before);
      StaysStale(Replay(n, before), e, i);
    }
  }

  lemma OthersKeepInstance(s: System, e: Event, i: nat)
    requires i < |s.insts| && Actor(e) != Some(i)
    ensures |Apply(s, e).insts| == |s.insts| && Apply(s, e).insts[i] == s.insts[i]
  {
  }

  /** A publish, answered or not, spends a write if the lease is lost. */
  lemma PublishSpends(s: System, e: Event, i: nat)
    requires Invariant(s) && Enabled(s, e) && (e.Commit? || e.CommitFails?) && e.i == i
    ensures |Apply(s, e).insts| == |s.insts|
    ensures Budget(Apply(s, e), i) + (if StaleWrite(s, e, i) then 1 else 0) <= Budget(s, i)
  {
    var inst, s' := s.insts[i], Step(s, e);
    assert InstanceOk(s.log, s.minted, inst);
    assert s'.holder == s.holder && Stale(s', i) == Stale(s, i);
    if e.Commit? {
      CommitSpends(inst, LastSeq(s'.log));
      BudgetAtMostFive(s'.insts[i], false);
    } else {
      assert s'.insts[i].phase == Releasing;
    }
  }

  /** A step that is no publish gives no budget to its own instance. */
  lemma OwnStepSpends(s: System, e: Event, i: nat)
    requires Invariant(s) && i < |s.insts| && Enabled(s, e) && Actor(e) == Some(i)
    requires !e.Commit? && !e.CommitFails?
    ensures |Apply(s, e).insts| == |s.insts|
    ensures Budget(Apply(s, e), i) <= Budget(s, i)
  {
    var inst := s.insts[i];
    assert InstanceOk(s.log, s.minted, inst);
    if e.Wake? {
      assert (inst.counter + 1 - 1) % RENEW_EVERY == inst.counter % RENEW_EVERY;
    }
  }

  /** A step never raises a budget, and a write under a lost lease lowers it. */
  lemma BudgetStep(s: System, e: Event, i: nat)
    requires Invariant(s) && i < |s.insts|
    ensures |Apply(s, e).insts| == |s.insts|
    ensures Budget(Apply(s, e), i) + (if StaleWrite(s, e, i) then 1 else 0) <= Budget(s, i)
  {
    if Actor(e) != Some(i) {
      OthersKeepInstance(s, e, i);
      BudgetAtMostFive(s.insts[i], true);
      if Stale(s, i) { StaysStale(s, e, i); }
    } else if Enabled(s, e) {
      if e.Commit? || e.CommitFails? { PublishSpends(s, e, i); } else { OwnStepSpends(s, e, i); }
    }
  }

  lemma {:induction false} BudgetHolds(n: nat, run: seq<Event>, i: nat)
    requires i < n
    ensures |Replay(n, run).insts| == n
    ensures StaleWritesOf(n, run, i) + Budget(Replay(n, run), i) <= RENEW_EVERY
  {
    Reachable(n, run);
    if run != [] {
      Reachable(n, run[..|run| - 1]);
      BudgetHolds(n, run[..|run| - 1], i);
      BudgetStep(Replay(n, run[..|run| - 1]), run[|run| - 1], i);
    }
  }

  /** No instance writes more than five transactions after it lost its lease. */
  lemma AtMostFiveStaleWrites(n: nat, run: seq<Event>, i: nat)
    requires i < n
    ensures StaleWritesOf(n, run, i) <= 5
  {
    Reachable(n, run);
    BudgetHolds(n, run, i);
  }

  /** The budgets of the first `k` instances that have lost their lease. */
  function StaleBudget(s: System, k: nat): nat
    requires k <= |s.insts|
  {
    if k == 0 then 0 else StaleBudget(s, k - 1) + Share(s, k - 1)
  }

  function Share(s: System, i: nat): nat
    requires i < |s.insts|
  {
    if Stale(s, i) then Budget(s, i) else 0
  }

  /** If only instance `j` moves by `d`, the sum over the first `k` moves by at most `d`. */
  lemma {:induction false} SumMoves(s: System, s': System, k: nat, j: nat, d: int)
    requires k <= |s.insts| == |s'.insts|
    requires forall i :: 0 <= i < k && i != j ==> Share(s', i) <= Share(s, i)
    requires j < k ==> Share(s', j) <= Share(s, j) + d
    requires j >= k ==> d >= 0
    ensures StaleBudget(s', k) <= StaleBudget(s, k) + d
  {
    if k > 0 {
      assert Share(s', k - 1) <= Share(s, k - 1) + if k - 1 == j then d else 0;
      if k - 1 == j { SumMoves(s, s', k - 1, j, 0); } else { SumMoves(s, s', k - 1, j, d); }
    }
  }

  /** An instance joins the stale ones only by losing the lease it holds. */
  lemma ShareStep(s: System, e: Event, i: nat)
    requires Invariant(s) && i < |s.insts|
    ensures |Apply(s, e).insts| == |s.insts|
    ensures Share(Apply(s, e), i) <= RENEW_EVERY
    ensures Stale(s, i) ==> Share(Apply(s, e), i) + (if StaleWrite(s, e, i) then 1 else 0) <= Share(s, i)
    ensures !Stale(s, i) && !(LosesLease(s, e) && s.holder == s.insts[i].token) ==> Share(Apply(s, e), i) == 0
  {
    BudgetStep(s, e, i);
    BudgetAtMostFive(Apply(s, e).insts[i], Stale(Apply(s, e), i));
    if Stale(s, i) { StaysStale(s, e, i); }
    if Actor(e) != Some(i) { OthersKeepInstance(s, e, i); }
  }

  /** Unless it loses the lease it holds, the share of an instance pays for its stale write. */
  lemma SharePays(s: System, e: Event, i: nat)
    requires Invariant(s) && i < |s.insts| && !(LosesLease(s, e) && s.holder == s.insts[i].token)
    ensures |Apply(s, e).insts| == |s.insts|
    ensures Share(Apply(s, e), i) + (if StaleWrite(s, e, i) then 1 else 0) <= Share(s, i)
  {
    ShareStep(s, e, i);
  }

  /** The holder joins the stale instances; nobody else does. */
  lemma HolderLoses(s: System, e: Event, j: nat)
    requires Invariant(s) && j < |s.insts| && LosesLease(s, e) && s.holder == s.insts[j].token
    ensures |Apply(s, e).insts| == |s.insts|
    ensures StaleBudget(Apply(s, e), |s.insts|) <= StaleBudget(s, |s.insts|) + RENEW_EVERY
  {
    ShareStep(s, e, j);
    forall i | 0 <= i < |s.insts| && i != j
      ensures Share(Apply(s, e), i) <= Share(s, i)
    {
      SharePays(s, e, i);
    }
    SumMoves(s, Apply(s, e), |s.insts|, j, RENEW_EVERY);
  }

  /** A stale write is paid for by the share of its writer. */
  lemma WriterPays(s: System, e: Event)
    requires Invariant(s) && (e.Commit? || e.CommitFails?) && StaleWrite(s, e, e.i)
    ensures |Apply(s, e).insts| == |s.insts|
    ensures StaleBudget(Apply(s, e), |s.insts|) + 1 <= StaleBudget(s, |s.insts|)
  {
    SharePays(s, e, e.i);
    forall i | 0 <= i < |s.insts|
      ensures Share(Apply(s, e), i) <= Share(s, i)
    {
      SharePays(s, e, i);
    }
    SumMoves(s, Apply(s, e), |s.insts|, e.i, -1);
  }

  /** Without either the sum does not grow. */
  lemma NobodyPays(s: System, e: Event)
    requires Invariant(s)
    requires forall j :: 0 <= j < |s.insts| ==> !(LosesLease(s, e) && s.holder == s.insts[j].token)
    ensures |Apply(s, e).insts| == |s.insts|
    ensures StaleBudget(Apply(s, e), |s.insts|) <= StaleBudget(s, |s.insts|)
  {
    ApplyKeepsCount(s, e);
    forall i | 0 <= i < |s.insts|
      ensures Share(Apply(s, e), i) <= Share(s, i)
    {
      SharePays(s, e, i);
    }
    SumMoves(s, Apply(s, e), |s.insts|, |s.insts|, 0);
  }

  /** One step pays for the stale write it makes, or for the lease it loses. */
  lemma SumStep(s: System, e: Event)
    requires Invariant(s)
    ensures |Apply(s, e).insts| == |s.insts|
    ensures var paid := if (e.Commit? || e.CommitFails?) && StaleWrite(s, e, e.i) then 1 else 0;
            var lost := if LosesLease(s, e) then RENEW_EVERY else 0;
            StaleBudget(Apply(s, e), |s.insts|) + paid <= StaleBudget(s, |s.insts|) + lost
  {
    if j :| 0 <= j < |s.insts| && LosesLease(s, e) && s.holder == s.insts[j].token {
      HolderLoses(s, e, j);
    } else if (e.Commit? || e.CommitFails?) && StaleWrite(s, e, e.i) {
      WriterPays(s, e);
    } else {
      NobodyPays(s, e);
    }
  }

  lemma {:induction false} SumHolds(n: nat, run: seq<Event>)
    ensures |Replay(n, run).insts| == n
    ensures StaleWrites(n, run) + StaleBudget(Replay(n, run), n) <= RENEW_EVERY * Losses(n, run)
  {
    Reachable(n, run);
    if run == [] {
      NothingStale(Init(n), n);
    } else {
      Reachable(n, run[..|run| - 1]);
      SumHolds(n, run[..|run| - 1]);
      SumStep(Replay(n, run[..|run| - 1]), run[|run| - 1]);
    }
  }

  lemma {:induction false} NothingStale(s: System, k: nat)
    requires k <= |s.insts| && forall i :: 0 <= i < |s.insts| ==> s.insts[i].token == None
    ensures StaleBudget(s, k) == 0
  {
    if k > 0 { NothingStale(s, k - 1); }
  }

  /** A run in which leases were lost `k` times has at most `5 * k` stale transactions. */
  lemma StaleWritesBounded(n: nat, run: seq<Event>)
    ensures StaleWrites(n, run) <= 5 * Losses(n, run)
  {
    Reachable(n, run);
    SumHolds(n, run);
  }

  // ----- the bound is reached -----

  lemma CountsSnoc(n: nat, run: seq<Event>, e: Event, i: nat)
    ensures Replay(n, run + [e]) == Apply(Replay(n, run), e)
    ensures Losses(n, run + [e]) == Losses(n, run) + if LosesLease(Replay(n, run), e) then 1 else 0
    ensures StaleWrites(n, run + [e]) == StaleWrites(n, run)
            + if (e.Commit? || e.CommitFails?) && StaleWrite(Replay(n, run), e, e.i) then 1 else 0
    ensures StaleWritesOf(n, run + [e], i) == StaleWritesOf(n, run, i) + if StaleWrite(Replay(n, run), e, i) then 1 else 0
  {
    assert (run + [e])[..|run|] == run;
  }

  /** Instance `i` has moved, and nothing else of the instances and the lease. */
  ghost predicate OnlyMoved(s: System, s': System, i: nat) {
    && |s'.insts| == |s.insts| && s'.holder == s.holder
    && forall j :: 0 <= j < |s.insts| && j != i ==> s'.insts[j] == s.insts[j]
  }

  lemma MovesCompose(s: System, s': System, s'': System, i: nat)
    requires OnlyMoved(s, s', i) && OnlyMoved(s', s'', i)
    ensures OnlyMoved(s, s'', i)
  {
  }

  lemma StaleCommit(s: System, i: nat, stamp: Stamp)
    requires At(s, i, Writing) && Stale(s, i) && s.insts[i].counter > 0
    ensures var e := Event.Commit(i, stamp);
            var s' := Apply(s, e);
            && StaleWrite(s, e, i) && !LosesLease(s, e)
            && OnlyMoved(s, s', i) && Stale(s', i)
            && Budget(s', i) + 1 == Budget(s, i)
            && s'.insts[i] == AfterCommit(s.insts[i], LastSeq(s'.log))
  {
    CommitSpends(s.insts[i], LastSeq(Apply(s, Event.Commit(i, stamp)).log));
  }

  lemma StaleWake(s: System, i: nat)
    requires At(s, i, Sleeping) && Stale(s, i)
    ensures var s' := Apply(s, Wake(i));
            && OnlyMoved(s, s', i) && Stale(s', i) && !LosesLease(s, Wake(i)) && !StaleWrite(s, Wake(i), i)
            && Budget(s', i) == Budget(s, i)
            && At(s', i, Writing) && s'.insts[i].counter > 0
  {
    assert s.insts[i].counter + 1 - 1 == s.insts[i].counter;
  }

  /** An instance that lost its lease can spend its whole budget on the topic. */
  lemma {:induction false} SpendBudget(n: nat, run: seq<Event>, i: nat, stamp: Stamp) returns (run': seq<Event>)
    requires At(Replay(n, run), i, Writing) && Stale(Replay(n, run), i) && Replay(n, run).insts[i].counter > 0
    ensures run <= run'
    ensures StaleWritesOf(n, run', i) == StaleWritesOf(n, run, i) + Budget(Replay(n, run), i)
    ensures StaleWrites(n, run') == StaleWrites(n, run) + Budget(Replay(n, run), i)
    ensures Losses(n, run') == Losses(n, run)
    ensures OnlyMoved(Replay(n, run), Replay(n, run'), i)
    decreases Budget(Replay(n, run), i), 0
  {
    var s := Replay(n, run);
    StaleCommit(s, i, stamp);
    CountsSnoc(n, run, Event.Commit(i, stamp), i);
    var committed := run + [Event.Commit(i, stamp)];
    run' := committed;
    if Replay(n, committed).insts[i].phase == Sleeping {
      run' := WakeAndSpend(n, committed, i, stamp);
      MovesCompose(s, Replay(n, committed), Replay(n, run'), i);
    }
  }

  lemma {:induction false} WakeAndSpend(n: nat, run: seq<Event>, i: nat, stamp: Stamp) returns (run': seq<Event>)
    requires At(Replay(n, run), i, Sleeping) && Stale(Replay(n, run), i)
    ensures run <= run'
    ensures StaleWritesOf(n, run', i) == StaleWritesOf(n, run, i) + Budget(Replay(n, run), i)
    ensures StaleWrites(n, run') == StaleWrites(n, run) + Budget(Replay(n, run), i)
    ensures Losses(n, run') == Losses(n, run)
    ensures OnlyMoved(Replay(n, run), Replay(n, run'), i)
    decreases Budget(Replay(n, run), i), 1
  {
    var s := Replay(n, run);
    var woken := run + [Wake(i)];
    StaleWake(s, i);
    CountsSnoc(n, run, Wake(i), i);
    run' := SpendBudget(n, woken, i, stamp);
    MovesCompose(s, Replay(n, woken), Replay(n, run'), i);
  }

  // ----- what a lost lease still allows -----

  /** From any point on, an instance that has lost its lease writes at most what is left of
      its budget there. */
  lemma {:induction false} BudgetBounds(n: nat, run: seq<Event>, ext: seq<Event>, i: nat)
    requires run <= ext && i < n
    ensures |Replay(n, run).insts| == |Replay(n, ext).insts| == n
    ensures StaleWritesOf(n, ext, i) + Budget(Replay(n, ext), i) <= StaleWritesOf(n, run, i) + Budget(Replay(n, run), i)
  {
    Reachable(n, run);
    if run != ext {
      var before := ext[..|ext| - 1];
      BudgetBounds(n, run, before, i);
      Reachable(n, before);
      BudgetStep(Replay(n, before), ext[|ext| - 1], i);
    }
  }

  /** The bound is exact at every point: all of the budget can be written, and no more. */
  lemma StaleWritesLeft(n: nat, run: seq<Event>, i: nat, stamp: Stamp) returns (most: seq<Event>)
    requires Stale(Replay(n, run), i)
    ensures i < n && |Replay(n, run).insts| == n
    ensures run <= most && StaleWritesOf(n, most, i) == StaleWritesOf(n, run, i) + Budget(Replay(n, run), i)
    ensures forall ext :: run <= ext ==> StaleWritesOf(n, ext, i) <= StaleWritesOf(n, run, i) + Budget(Replay(n, run), i)
  {
    Reachable(n, run);
    var s := Replay(n, run);
    assert InstanceOk(s.log, s.minted, s.insts[i]);
    forall ext | run <= ext
      ensures StaleWritesOf(n, ext, i) <= StaleWritesOf(n, run, i) + Budget(Replay(n, run), i)
    {
      BudgetBounds(n, run, ext, i);
    }
    match s.insts[i].phase {
      case Writing => most := SpendBudget(n, run, i, stamp);
      case Sleeping => most := WakeAndSpend(n, run, i, stamp);
      case _ => most := run;
    }
  }

  /** A lost lease is safe from here on, as the documentation promises, exactly if the
      instance has no write left before its next renewal: it stands at a renewal, is
      releasing, or has exited. */
  lemma SafeIffNoWriteLeft(n: nat, run: seq<Event>, i: nat)
    requires Stale(Replay(n, run), i)
    ensures (forall ext :: run <= ext ==> StaleWritesOf(n, ext, i) == StaleWritesOf(n, run, i)) <==>
            Replay(n, run).insts[i].phase in {Renewing, Releasing, Exited}
  {
    var most := StaleWritesLeft(n, run, i, Stamp(0, "", None, None));
    var s := Replay(n, run);
    Reachable(n, run);
    assert InstanceOk(s.log, s.minted, s.insts[i]);
    assert Budget(s, i) == 0 <==> s.insts[i].phase in {Renewing, Releasing, Exited};
    forall ext | run <= ext
      ensures StaleWritesOf(n, ext, i) >= StaleWritesOf(n, run, i)
    {
      StaleWritesGrow(n, run, ext, i);
    }
  }

  lemma {:induction false} StaleWritesGrow(n: nat, run: seq<Event>, ext: seq<Event>, i: nat)
    requires run <= ext
    ensures StaleWritesOf(n, run, i) <= StaleWritesOf(n, ext, i)
  {
    if run != ext { StaleWritesGrow(n, run, ext[..|ext| - 1], i); }
  }

  // ----- five for every loss -----

  /** One more instance, one more lost lease, five more stale transactions. */
  lemma Burst(n: nat, run: seq<Event>, i: nat, stamp: Stamp) returns (run': seq<Event>)
    requires i < |Replay(n, run).insts| && Replay(n, run).insts[i] == NEW_INSTANCE && Replay(n, run).holder == None
    ensures StaleWrites(n, run') == StaleWrites(n, run) + 5
    ensures Losses(n, run') == Losses(n, run) + 1
    ensures OnlyMoved(Replay(n, run), Replay(n, run'), i) && Replay(n, run').holder == None
  {
    CountsSnoc(n, run, Grant(i, 0), i);
    CountsSnoc(n, run + [Grant(i, 0)], Lapse, i);
    run' := SpendBudget(n, run + [Grant(i, 0)] + [Lapse], i, stamp);
  }

  /** For every `k` some run loses `k` leases and writes exactly `5 * k` stale transactions. */
  lemma {:induction false} BoundIsReached(n: nat, k: nat, stamp: Stamp) returns (run: seq<Event>)
    requires k <= n
    ensures Losses(n, run) == k && StaleWrites(n, run) == 5 * k
    ensures |Replay(n, run).insts| == n && Replay(n, run).holder == None
    ensures forall i :: k <= i < n ==> Replay(n, run).insts[i] == NEW_INSTANCE
  {
    run := [];
    if k > 0 {
      run := BoundIsReached(n, k - 1, stamp);
      run := Burst(n, run, k - 1, stamp);
    }
  }
}
