/**
 The ledger and the auditor as the loops they are, run against a cell in which other
 processes act at every `await`. What they do is recorded as a run of LedgerSystem, so
 the theorems about runs hold of these loops.
 */
module LedgerProgram {
  import opened Values
  import opened Decimal
  import opened TopicLog
  import opened Audit
  import opened LedgerSystem
  import opened LedgerInvariant
  import opened LedgerTheorems
  import opened LedgerFencing
  import LedgerVerdicts

  /** How the grid answers one request. `Fail` is an exception or a cancellation; the request
      may have taken effect all the same. */
  datatype Reply = Accept | Deny | Fail(landed: bool)

  /** What happens at one `await`: others act first, then the request is answered. */
  datatype Turn = Turn(others: seq<Event>, reply: Reply, stamp: Stamp)

  /** A schedule that has run out cancels the task. */
  function TurnAt(turns: seq<Turn>, k: nat): Turn {
    if k < |turns| then turns[k] else Turn([], Fail(false), Stamp(0, "", None, None))
  }

  /** How many batches the auditor read in a run. */
  function Polls(run: seq<Event>): nat {
    if run == [] then 0 else Polls(run[..|run| - 1]) + if run[|run| - 1].Poll? then 1 else 0
  }

  lemma {:induction false} NoPolls(before: seq<Event>, after: seq<Event>)
    requires before <= after && forall k :: |before| <= k < |after| ==> !after[k].Poll?
    ensures Polls(after) == Polls(before)
  {
    if before != after { NoPolls(before, after[..|after| - 1]); }
  }

  /** In iteration `c` of the write loop every call was answered as hoped; the turns of that
      iteration are its publish, its renewal and its sleep. */
  predicate WentWell(turns: seq<Turn>, c: nat)
    requires c >= 1
  {
    && TurnAt(turns, 3 * c - 2).reply == Accept
    && (c % 5 == 0 ==> TurnAt(turns, 3 * c - 1).reply == Accept)
    && TurnAt(turns, 3 * c).reply == Accept
  }

  /** The grid and the other ledgers leave the lease alone while the caller waits. */
  ghost predicate Calm(turn: Turn) {
    forall e :: e in turn.others ==> !MovesLease(e)
  }

  ghost predicate Undisturbed(turns: seq<Turn>) {
    forall k :: 0 <= k < |turns| ==> Calm(turns[k])
  }

  /** Step `k` of the run is a renewal of instance `me` that was refused because the lease was
      no longer the one of `token`. */
  ghost predicate RefusedAt(n: nat, history: seq<Event>, k: nat, me: nat, token: nat) {
    k < |history| && history[k] == Event.Renew(me, false) && Replay(n, history[..k]).holder != Some(token)
  }

  ghost predicate WasRefused(n: nat, history: seq<Event>, from: nat, me: nat, token: nat) {
    exists k: nat :: from <= k && RefusedAt(n, history, k, me, token)
  }

  lemma RefusalStays(n: nat, before: seq<Event>, after: seq<Event>, from: nat, me: nat, token: nat)
    requires before <= after && WasRefused(n, before, from, me, token)
    ensures forall earlier: nat :: earlier <= from ==> WasRefused(n, after, earlier, me, token)
  {
    var k: nat :| from <= k && RefusedAt(n, before, k, me, token);
    assert after[..k] == before[..k];
    assert RefusedAt(n, after, k, me, token);
  }

  /** Nobody but the grid takes the lease from its holder. */
  lemma HolderKept(s: System, e: Event, me: nat)
    requires Invariant(s) && me < |s.insts| && s.insts[me].token.Some? && s.holder == s.insts[me].token
    requires !MovesLease(e) && Actor(e) != Some(me)
    ensures Apply(s, e).holder == s.holder
  {
    if e.Release? && Enabled(s, e) { assert s.insts[e.i].token != s.insts[me].token; }
  }

  lemma {:induction false} LeaseKept(n: nat, before: seq<Event>, after: seq<Event>, me: nat)
    requires before <= after && me < n && |Replay(n, before).insts| == n
    requires Replay(n, before).insts[me].token.Some?
    requires Replay(n, before).holder == Replay(n, before).insts[me].token
    requires forall k :: |before| <= k < |after| ==> !MovesLease(after[k]) && Actor(after[k]) != Some(me)
    ensures |Replay(n, after).insts| == n && Replay(n, after).insts[me] == Replay(n, before).insts[me]
    ensures Replay(n, after).holder == Replay(n, before).holder
  {
    if before != after {
      var front, e := after[..|after| - 1], after[|after| - 1];
      LeaseKept(n, before, front, me);
      Reachable(n, front);
      HolderKept(Replay(n, front), e, me);
      OthersKeepInstance(Replay(n, front), e, me);
    }
  }

  class Cell {
    const n: nat
    var sys: System
    ghost var history: seq<Event>

    ghost predicate Valid()
      reads this
    {
      sys == Replay(n, history) && |sys.insts| == n
    }

    constructor (n: nat)
      ensures Valid() && this.n == n && history == []
    {
      this.n := n;
      sys := Init(n);
      history := [];
    }

    method Happen(e: Event)
      requires Valid()
      modifies this
      ensures Valid() && history == old(history) + [e] && sys == Apply(old(sys), e)
    {
      ReplaySnoc(n, history, e);
      Reachable(n, history + [e]);
      sys := Apply(sys, e);
      history := history + [e];
    }

    /** Others act; `mine` tells which events are the caller's own and cannot occur now. */
    method Interleave(others: seq<Event>, mine: Event -> bool)
      requires Valid()
      modifies this
      ensures Valid() && old(history) <= history
      ensures forall k :: |old(history)| <= k < |history| ==> history[k] in others && !mine(history[k])
      ensures forall i :: 0 <= i < n && (forall e: Event :: Actor(e) == Some(i as nat) ==> mine(e)) ==>
                sys.insts[i] == old(sys.insts[i])
      ensures mine(Event.Poll) ==> sys.auditor == old(sys.auditor)
    {
      for k := 0 to |others|
        invariant Valid() && old(history) <= history
        invariant forall j :: |old(history)| <= j < |history| ==> history[j] in others && !mine(history[j])
        invariant forall i :: 0 <= i < n && (forall e: Event :: Actor(e) == Some(i as nat) ==> mine(e)) ==>
                    sys.insts[i] == old(sys.insts[i])
        invariant mine(Event.Poll) ==> sys.auditor == old(sys.auditor)
      {
        if !mine(others[k]) {
          ghost var before := sys;
          Happen(others[k]);
          forall i | 0 <= i < n && Actor(others[k]) != Some(i as nat)
            ensures sys.insts[i] == before.insts[i]
          {
            OthersKeepInstance(before, others[k], i);
          }
        }
      }
    }

    /** `lease.try_acquire_lease` */
    method TryAcquire(me: nat, turn: Turn) returns (token: Option<nat>)
      requires Valid() && At(sys, me, Waiting)
      modifies this
      ensures Valid() && |history| == |old(history)| + 1 && old(history) <= history
      ensures token.Some? ==> turn.reply == Accept && sys.holder == token
      ensures token.Some? ==> sys.insts[me] == NextWrite(old(sys.insts[me]).(token := token))
      ensures token.None? ==> turn.reply != Accept && sys.insts[me] == old(sys.insts[me]).(phase := Exited)
    {
      match turn.reply
      case Accept =>
        Happen(Grant(me, turn.stamp.hint));
        token := sys.holder;
      case Deny =>
        Happen(Refuse(me));
        token := None;
      case Fail(landed) =>
        Happen(if landed then GrantLost(me, turn.stamp.hint) else Refuse(me));
        token := None;
    }

    /** `events.publish`; None when it raises. */
    method Publish(me: nat, payload: Parsed, turn: Turn) returns (seqNo: Option<nat>)
      requires Valid() && At(sys, me, Writing)
      requires payload == Transaction(sys.insts[me].counter, sys.insts[me].token.value)
      modifies this
      ensures Valid() && |history| == |old(history)| + 1 && old(history) <= history
      ensures seqNo.Some? ==> sys.log == Append(old(sys.log), payload, turn.stamp)
      ensures seqNo.Some? ==> seqNo.value == LastSeq(sys.log)
      ensures seqNo.Some? ==> sys.insts[me] == AfterCommit(old(sys.insts[me]), seqNo.value)
      ensures seqNo.Some? <==> turn.reply == Accept
      ensures seqNo.None? ==> sys.insts[me] == old(sys.insts[me]).(phase := Releasing)
      ensures sys.holder == old(sys.holder)
    {
      match turn.reply
      case Fail(landed) =>
        Happen(CommitFails(me, landed, turn.stamp));
        seqNo := None;
      case Deny =>
        Happen(CommitFails(me, false, turn.stamp));
        seqNo := None;
      case Accept =>
        Happen(Event.Commit(me, turn.stamp));
        seqNo := Some(LastSeq(sys.log));
    }

    /** `lease.renew_lease`; None when it raises. The grid extends only the current lease. */
    method RenewLease(me: nat, token: nat, marker: nat, turn: Turn) returns (extended: Option<bool>)
      requires Valid() && At(sys, me, Renewing)
      requires token == sys.insts[me].token.value && marker == sys.insts[me].last
      modifies this
      ensures Valid() && |history| == |old(history)| + 1 && old(history) <= history
      ensures extended == Some(true) <==> turn.reply == Accept && old(sys.holder) == Some(token)
      ensures extended.Some? ==> history == old(history) + [Event.Renew(me, extended.value)]
      ensures extended.None? <==> turn.reply.Fail?
      ensures sys.holder == old(sys.holder)
      ensures sys.insts[me] == old(sys.insts[me]).(markers := old(sys.insts[me]).markers + [marker],
                phase := if extended == Some(true) then Sleeping else Releasing)
    {
      match turn.reply
      case Fail(_) =>
        Happen(RenewFails(me));
        extended := None;
      case _ =>
        var current := turn.reply == Accept && sys.holder == Some(token);
        Happen(Event.Renew(me, current));
        extended := Some(current);
    }

    /** `asyncio.sleep`; false when cancelled. */
    method Sleep(me: nat, turn: Turn) returns (woke: bool)
      requires Valid() && At(sys, me, Sleeping)
      modifies this
      ensures Valid() && |history| == |old(history)| + 1 && old(history) <= history
      ensures woke == (turn.reply == Accept) && sys.holder == old(sys.holder)
      ensures sys.insts[me] == if woke then NextWrite(old(sys.insts[me])) else old(sys.insts[me]).(phase := Releasing)
    {
      woke := turn.reply == Accept;
      Happen(if woke then Wake(me) else Cancel(me));
    }

    /** `lease.release_lease` */
    method ReleaseLease(me: nat, token: nat, turn: Turn)
      requires Valid() && At(sys, me, Releasing) && token == sys.insts[me].token.value
      modifies this
      ensures Valid() && |history| == |old(history)| + 1 && old(history) <= history
      ensures sys.insts[me] == old(sys.insts[me]).(phase := Exited, releases := old(sys.insts[me].releases) + 1)
      ensures sys.holder == if (turn.reply == Accept || turn.reply == Fail(true)) && old(sys.holder) == Some(token)
                            then None else old(sys.holder)
    {
      Happen(Event.Release(me, turn.reply == Accept || turn.reply == Fail(true)));
    }
  }

  /**
   The whole of `run_ledger`. Other processes act before every answer, every answer may be a
   refusal or an exception, and the shutdown may come at any `await`. Whatever happens, the
   cell has made a run of the ledger system in which this instance has exited; it has
   released its lease exactly when it had seen the grant, and an answered release leaves the
   lease with it no longer. It goes on exactly as long as its calls are answered as hoped;
   only a renewal that was refused for a lost lease can end it otherwise. So an undisturbed
   ledger stops only at a call that is not answered as hoped.
   */
  method RunLedger(cell: Cell, me: nat, turns: seq<Turn>) returns (token: Option<nat>)
    requires cell.Valid() && At(cell.sys, me, Waiting) && cell.sys.insts[me] == NEW_INSTANCE
    modifies cell
    ensures cell.Valid() && old(cell.history) <= cell.history
    ensures me < |cell.sys.insts| && cell.sys.insts[me].phase == Exited
    ensures cell.sys.insts[me].token == token
    ensures cell.sys.insts[me].releases == if token.Some? then 1 else 0
    ensures token.Some? <==> TurnAt(turns, 0).reply == Accept
    ensures token.Some? ==> var last := cell.sys.insts[me].counter;
                            && last >= 1
                            && (forall c :: 1 <= c < last ==> WentWell(turns, c))
                            && (WentWell(turns, last) ==>
                                  last % 5 == 0
                                  && WasRefused(cell.n, cell.history, |old(cell.history)|, me, token.value))
                            && (Undisturbed(turns) ==> !WentWell(turns, last))
                            && (TurnAt(turns, 3 * last + 1).reply == Accept ==> cell.sys.holder != token)
  {
    token := Acquire(cell, me, TurnAt(turns, 0));
    if token == None { return; }
    var fencingToken := token.value;
    ghost var granted := cell.history;
    var counter := WriteLoop(cell, me, fencingToken, turns);
    ghost var stopped := cell.history;
    var k := 3 * counter + 1;
    Pause(cell, me, TurnAt(turns, k));
    cell.ReleaseLease(me, fencingToken, TurnAt(turns, k));
    if WasRefused(cell.n, stopped, |granted|, me, fencingToken) {
      RefusalStays(cell.n, stopped, cell.history, |granted|, me, fencingToken);
    }
  }

  /** The `while` loop; it ends with the transaction numbered `counter`. */
  method WriteLoop(cell: Cell, me: nat, fencingToken: nat, turns: seq<Turn>) returns (counter: nat)
    requires cell.Valid() && At(cell.sys, me, Writing)
    requires cell.sys.insts[me].token == Some(fencingToken) && cell.sys.insts[me].counter == 1
    modifies cell
    ensures cell.Valid() && old(cell.history) <= cell.history && At(cell.sys, me, Releasing)
    ensures cell.sys.insts[me].token == Some(fencingToken)
    ensures cell.sys.insts[me].releases == old(cell.sys.insts[me].releases)
    ensures cell.sys.insts[me].counter == counter >= 1
    ensures forall c :: 1 <= c < counter ==> WentWell(turns, c)
    ensures WentWell(turns, counter) ==>
              counter % 5 == 0 && WasRefused(cell.n, cell.history, |old(cell.history)|, me, fencingToken)
    ensures Undisturbed(turns) && old(cell.sys.holder) == Some(fencingToken) ==> !WentWell(turns, counter)
  {
    ghost var start := cell.history;
    ghost var held := Undisturbed(turns) && cell.sys.holder == Some(fencingToken);
    counter := 0;
    var running := true;
    while running
      invariant cell.Valid() && start <= cell.history && me < |cell.sys.insts|
      invariant cell.sys.insts[me].token == Some(fencingToken)
      invariant cell.sys.insts[me].releases == old(cell.sys.insts[me].releases)
      invariant forall c :: 1 <= c <= counter && (running || c < counter) ==> WentWell(turns, c)
      invariant if running
                then cell.sys.insts[me].phase == Writing && cell.sys.insts[me].counter == counter + 1
                     && (held ==> cell.sys.holder == Some(fencingToken))
                else cell.sys.insts[me].phase == Releasing && cell.sys.insts[me].counter == counter >= 1
                     && (held ==> !WentWell(turns, counter))
                     && (WentWell(turns, counter) ==>
                           counter % 5 == 0 && WasRefused(cell.n, cell.history, |start|, me, fencingToken))
      decreases running, |turns| - counter
    {
      counter := counter + 1;
      ghost var before := cell.history;
      var k := 3 * counter - 2;
      running := Iterate(cell, me, fencingToken, counter, TurnAt(turns, k), TurnAt(turns, k + 1), TurnAt(turns, k + 2));
      if !running && WentWell(turns, counter) {
        RefusalStays(cell.n, cell.history, cell.history, |before|, me, fencingToken);
      }
    }
  }

  /** Others act while instance `me` awaits. */
  method Pause(cell: Cell, me: nat, turn: Turn)
    requires cell.Valid() && me < |cell.sys.insts|
    modifies cell
    ensures cell.Valid() && old(cell.history) <= cell.history
    ensures me < |cell.sys.insts| && cell.sys.insts[me] == old(cell.sys.insts[me])
    ensures Calm(turn) && old(cell.sys.holder).Some? && old(cell.sys.holder == cell.sys.insts[me].token) ==>
              cell.sys.holder == old(cell.sys.holder)
  {
    ghost var before := cell.history;
    ghost var holds := cell.sys.holder.Some? && cell.sys.holder == cell.sys.insts[me].token;
    cell.Interleave(turn.others, e => Actor(e) == Some(me));
    if Calm(turn) && holds {
      LeaseKept(cell.n, before, cell.history, me);
    }
  }

  method Acquire(cell: Cell, me: nat, turn: Turn) returns (token: Option<nat>)
    requires cell.Valid() && At(cell.sys, me, Waiting)
    modifies cell
    ensures cell.Valid() && old(cell.history) <= cell.history && me < |cell.sys.insts|
    ensures token.None? ==> turn.reply != Accept && cell.sys.insts[me] == old(cell.sys.insts[me]).(phase := Exited)
    ensures token.Some? ==> turn.reply == Accept && cell.sys.holder == token
    ensures token.Some? ==> cell.sys.insts[me] == NextWrite(old(cell.sys.insts[me]).(token := token))
  {
    Pause(cell, me, turn);
    token := cell.TryAcquire(me, turn);
  }

  /** Publish, due renewal and sleep were all answered as hoped. */
  predicate AllAnswered(counter: nat, publish: Turn, renew: Turn, sleep: Turn) {
    publish.reply == Accept && (counter % 5 == 0 ==> renew.reply == Accept) && sleep.reply == Accept
  }

  /** The renewal that every fifth transaction is followed by; true when it is granted. */
  method RenewAtFive(cell: Cell, me: nat, fencingToken: nat, marker: nat, renew: Turn) returns (granted: bool)
    requires cell.Valid() && At(cell.sys, me, Renewing)
    requires cell.sys.insts[me].token == Some(fencingToken) && marker == cell.sys.insts[me].last
    modifies cell
    ensures cell.Valid() && old(cell.history) <= cell.history && me < |cell.sys.insts|
    ensures cell.sys.insts[me] == old(cell.sys.insts[me]).(markers := old(cell.sys.insts[me]).markers + [marker],
              phase := if granted then Sleeping else Releasing)
    ensures granted ==> renew.reply == Accept && cell.sys.holder == Some(fencingToken)
    ensures !granted && renew.reply == Accept ==>
              WasRefused(cell.n, cell.history, |old(cell.history)|, me, fencingToken)
    ensures Calm(renew) && old(cell.sys.holder) == Some(fencingToken) && renew.reply == Accept ==> granted
  {
    Pause(cell, me, renew);
    ghost var k := |cell.history|;
    ghost var before := cell.history;
    var extended := cell.RenewLease(me, fencingToken, marker, renew);
    granted := extended == Some(true);
    if extended == Some(false) && renew.reply == Accept {
      assert cell.history[..k] == before;
      assert RefusedAt(cell.n, cell.history, k, me, fencingToken);
    }
  }

  /** One iteration of the write loop; true when the loop goes on. It ends for a call that was
      not answered as hoped, or for a renewal refused because the lease was lost, and for
      nothing else. */
  method Iterate(cell: Cell, me: nat, fencingToken: nat, counter: nat, publish: Turn, renew: Turn, sleep: Turn)
    returns (goesOn: bool)
    requires cell.Valid() && At(cell.sys, me, Writing)
    requires cell.sys.insts[me].token == Some(fencingToken) && cell.sys.insts[me].counter == counter
    modifies cell
    ensures cell.Valid() && old(cell.history) <= cell.history && me < |cell.sys.insts|
    ensures goesOn ==> AllAnswered(counter, publish, renew, sleep)
    ensures !goesOn && AllAnswered(counter, publish, renew, sleep) ==>
              counter % 5 == 0 && WasRefused(cell.n, cell.history, |old(cell.history)|, me, fencingToken)
    ensures Calm(publish) && Calm(renew) && Calm(sleep) && old(cell.sys.holder) == Some(fencingToken) ==>
              (goesOn <==> AllAnswered(counter, publish, renew, sleep))
              && (goesOn ==> cell.sys.holder == Some(fencingToken))
    ensures cell.sys.insts[me].token == old(cell.sys.insts[me].token)
    ensures cell.sys.insts[me].releases == old(cell.sys.insts[me].releases)
    ensures if goesOn then cell.sys.insts[me].phase == Writing && cell.sys.insts[me].counter == counter + 1
            else cell.sys.insts[me].phase == Releasing && cell.sys.insts[me].counter == counter
  {
    var transaction := Transaction(counter, fencingToken);
    Pause(cell, me, publish);
    var seqNo := cell.Publish(me, transaction, publish);
    if seqNo == None { return false; }
    if counter % 5 == 0 {
      ghost var published := cell.history;
      var granted := RenewAtFive(cell, me, fencingToken, seqNo.value, renew);
      if !granted {
        if renew.reply == Accept {
          RefusalStays(cell.n, cell.history, cell.history, |published|, me, fencingToken);
        }
        return false;
      }
    }
    Pause(cell, me, sleep);
    goesOn := cell.Sleep(me, sleep);
  }

  lemma AuditBatchNext(a: Auditor, events: Log, j: nat)
    requires j < |events|
    ensures AuditBatch(a, events[..j + 1]) == AuditOne(AuditBatch(a, events[..j]), events[j])
  {
    assert events[..j + 1][..j] == events[..j];
  }

  /** The `for` loop of the auditor over one batch. */
  method JudgeBatch(events: Log, before: Auditor) returns (lastSeq: nat, verdicts: seq<Verdict>)
    ensures Auditor(lastSeq, verdicts) == AuditBatch(before, events)
  {
    lastSeq, verdicts := before.lastSeq, before.verdicts;
    for j := 0 to |events|
      invariant Auditor(lastSeq, verdicts) == AuditBatch(before, events[..j])
    {
      var event := events[j];
      AuditBatchNext(before, events, j);
      lastSeq := event.seqNo;
      var txId: Json;
      match event.payload.parsed {
        case Value(Obj(fields)) =>
          txId := if "txId" in fields then fields["txId"] else Str("UNKNOWN");
        case _ =>
          txId := Str("INVALID");
      }
      var hasSignature := event.signature.Some?;
      var hasCert := event.certificate.Some?;
      verdicts := verdicts + [Verdict(event.seqNo, txId, hasSignature && hasCert)];
    }
    assert events[..|events|] == events;
  }

  /** `run_auditor` over any schedule of what others do between its reads. Its log lines are
      the verdicts on the first records of the topic, none missing and none repeated; each
      turn of the loop reads one batch. */
  method RunAuditor(cell: Cell, turns: seq<seq<Event>>) returns (lastSeq: nat, verdicts: seq<Verdict>)
    requires cell.Valid() && cell.sys.auditor == Audit.FRESH
    modifies cell
    ensures cell.Valid() && old(cell.history) <= cell.history
    ensures cell.sys.auditor == Auditor(lastSeq, verdicts)
    ensures Polls(cell.history) == Polls(old(cell.history)) + |turns|
    ensures |verdicts| <= |cell.sys.log| && verdicts == VerdictsOf(cell.sys.log[..|verdicts|])
    ensures forall j :: 0 <= j < |cell.sys.log| ==> (j < |verdicts| <==> cell.sys.log[j].seqNo <= lastSeq)
    ensures forall j :: 0 <= j < |verdicts| ==>
                          var r := cell.sys.log[j];
                          (verdicts[j].pass <==> r.signature.Some? && r.certificate.Some?)
  {
    lastSeq, verdicts := 0, [];
    for k := 0 to |turns|
      invariant cell.Valid() && old(cell.history) <= cell.history
      invariant cell.sys.auditor == Auditor(lastSeq, verdicts)
      invariant Polls(cell.history) == Polls(old(cell.history)) + k
    {
      ghost var begun := cell.history;
      cell.Interleave(turns[k], (e: Event) => e.Poll?);
      NoPolls(begun, cell.history);
      var events := Consume(cell.sys.log, lastSeq, 10);
      var before := Auditor(lastSeq, verdicts);
      cell.Happen(Event.Poll);
      assert cell.history[..|cell.history| - 1] + [Event.Poll] == cell.history;
      lastSeq, verdicts := JudgeBatch(events, before);
    }
    Reachable(cell.n, cell.history);
    forall j | 0 <= j < |verdicts|
      ensures var r := cell.sys.log[j];
              (verdicts[j].pass <==> r.signature.Some? && r.certificate.Some?)
    {
      LedgerVerdicts.VerdictMeans(cell.sys.log[j]);
    }
  }
}
