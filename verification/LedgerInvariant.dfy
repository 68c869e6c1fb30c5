/** What every step of the ledger system keeps. */
module LedgerInvariant {
  import opened Values
  import opened Decimal
  import opened TopicLog
  import opened Audit
  import opened LedgerSystem

  /** The records written under token `t`, in log order. */
  function Own(log: Log, t: int): Log {
    if log == [] then []
    else
      var before := Own(log[..|log| - 1], t);
      if TokenOf(log[|log| - 1]) == Some(t) then before + [log[|log| - 1]] else before
  }

  function Labels(log: Log): seq<Json> {
    seq(|log|, i requires 0 <= i < |log| => LabelOf(log[i]))
  }

  /** TX-0001, TX-0002, ... up to number `m`. */
  function TxIds(m: nat): seq<Json> {
    seq(m, k requires 0 <= k => Str(TxId(k + 1)))
  }

  /** The numbers of every fifth record. */
  function Fifths(own: Log, m: nat): seq<nat>
    requires RENEW_EVERY * m <= |own|
  {
    seq(m, k requires 0 <= k < m => own[RENEW_EVERY * k + 4].seqNo)
  }

  ghost predicate TokensOk(log: Log, minted: nat) {
    && (forall t: int :: t > minted ==> Own(log, t) == [])
    && (forall t: int :: Labels(Own(log, t)) == TxIds(|Own(log, t)|))
  }

  /** How many records and markers an instance has when it stands at its phase. */
  predicate CountsOk(inst: Instance, own: nat) {
    var c, m := inst.counter, |inst.markers|;
    && c >= 1 && c - 1 <= own <= c && (c - 1) / RENEW_EVERY <= m <= c / RENEW_EVERY
    && RENEW_EVERY * m <= own
    && match inst.phase
       case Waiting => false
       case Writing => own == c - 1 && m == (c - 1) / RENEW_EVERY
       case Renewing => own == c && c % RENEW_EVERY == 0 && m == (c - 1) / RENEW_EVERY
       case Sleeping => own == c && m == c / RENEW_EVERY
       case Releasing => true
       case Exited => true
  }

  predicate InstanceOk(log: Log, minted: nat, inst: Instance) {
    match inst.token
    case None =>
      (inst.phase == Waiting || inst.phase == Exited) && inst == NEW_INSTANCE.(phase := inst.phase)
    case Some(t) =>
      var own := Own(log, t);
      && t <= minted
      && CountsOk(inst, |own|)
      && inst.markers == Fifths(own, |inst.markers|)
      && (inst.phase == Renewing ==> inst.last == LastSeq(own))
      && inst.releases == (if inst.phase == Exited then 1 else 0)
  }

  ghost predicate Invariant(s: System) {
    && InStep(s.auditor, s.log)
    && TokensOk(s.log, s.minted)
    && (s.holder.Some? ==> s.holder.value <= s.minted)
    && (forall i :: 0 <= i < |s.insts| ==> InstanceOk(s.log, s.minted, s.insts[i]))
    && (forall i, j :: 0 <= i < j < |s.insts| && s.insts[i].token.Some? ==> s.insts[i].token != s.insts[j].token)
  }

  // ----- the topic -----

  lemma OwnAppend(log: Log, parsed: Parsed, stamp: Stamp, t: int)
    ensures Own(Append(log, parsed, stamp), t) ==
            Own(log, t) + if TokenIn(parsed) == Some(t) then [MakeRecord(log, parsed, stamp)] else []
  {
    var log' := Append(log, parsed, stamp);
    assert log'[..|log'| - 1] == log;
  }

  lemma LabelsAppend(own: Log, r: Record)
    ensures Labels(own + [r]) == Labels(own) + [LabelOf(r)]
  {
  }

  lemma TransactionLabel(counter: nat, token: nat, r: Record)
    requires r.payload.parsed == Transaction(counter, token)
    ensures LabelOf(r) == Str(TxId(counter)) && TokenOf(r) == Some(token)
  {
  }

  /** The next transaction of a token carries the next number. */
  lemma PutKeepsTokens(log: Log, minted: nat, counter: nat, token: nat, stamp: Stamp)
    requires TokensOk(log, minted) && token <= minted && counter == |Own(log, token)| + 1
    ensures TokensOk(Append(log, Transaction(counter, token), stamp), minted)
  {
    var tx := Transaction(counter, token);
    forall t: int
      ensures t > minted ==> Own(Append(log, tx, stamp), t) == []
      ensures Labels(Own(Append(log, tx, stamp), t)) == TxIds(|Own(Append(log, tx, stamp), t)|)
    {
      OwnAppend(log, tx, stamp, t);
      if t == token {
        var r := MakeRecord(log, tx, stamp);
        TransactionLabel(counter, token, r);
        LabelsAppend(Own(log, t), r);
      }
    }
  }

  lemma ForeignKeepsTokens(log: Log, minted: nat, parsed: Parsed, stamp: Stamp)
    requires TokensOk(log, minted) && TokenIn(parsed) == None
    ensures TokensOk(Append(log, parsed, stamp), minted)
  {
    forall t: int
      ensures Own(Append(log, parsed, stamp), t) == Own(log, t)
    {
      OwnAppend(log, parsed, stamp, t);
    }
  }

  // ----- one instance -----

  /** Records of other tokens do not touch an instance. */
  lemma OtherRecordKeepsInstance(log: Log, minted: nat, inst: Instance, parsed: Parsed, stamp: Stamp)
    requires InstanceOk(log, minted, inst)
    requires inst.token.Some? ==> TokenIn(parsed) != Some(inst.token.value as int)
    ensures InstanceOk(Append(log, parsed, stamp), minted, inst)
  {
    if inst.token.Some? { OwnAppend(log, parsed, stamp, inst.token.value); }
  }

  lemma CommitKeepsInstance(log: Log, minted: nat, inst: Instance, stamp: Stamp, answered: bool)
    requires InstanceOk(log, minted, inst) && inst.token.Some? && inst.phase == Writing
    ensures var log' := Append(log, Transaction(inst.counter, inst.token.value), stamp);
            InstanceOk(log', minted, if answered then AfterCommit(inst, LastSeq(log')) else inst.(phase := Releasing))
  {
    var tx := Transaction(inst.counter, inst.token.value);
    OwnAppend(log, tx, stamp, inst.token.value);
    TransactionLabel(inst.counter, inst.token.value, MakeRecord(log, tx, stamp));
    var own, own' := Own(log, inst.token.value), Own(Append(log, tx, stamp), inst.token.value);
    assert own' == own + [MakeRecord(log, tx, stamp)];
    assert Fifths(own', |inst.markers|) == Fifths(own, |inst.markers|);
  }

  lemma MarkerKeepsInstance(log: Log, minted: nat, inst: Instance, p: Phase)
    requires InstanceOk(log, minted, inst) && inst.token.Some? && inst.phase == Renewing
    requires p == Sleeping || p == Releasing
    ensures InstanceOk(log, minted, inst.(markers := inst.markers + [inst.last], phase := p))
  {
    var own, m := Own(log, inst.token.value), |inst.markers|;
    assert RENEW_EVERY * (m + 1) == |own|;
    assert Fifths(own, m + 1) == Fifths(own, m) + [own[RENEW_EVERY * m + 4].seqNo];
  }

  // ----- one step -----

  lemma PollKeeps(s: System)
    requires Invariant(s)
    ensures Invariant(Step(s, Event.Poll))
  {
    PollKeepsStep(s.auditor, s.log);
  }

  lemma ForeignKeeps(s: System, e: Event)
    requires Invariant(s) && e.Foreign? && Enabled(s, e)
    ensures Invariant(Step(s, e))
  {
    AppendKeepsStep(s.auditor, s.log, e.parsed, e.stamp);
    ForeignKeepsTokens(s.log, s.minted, e.parsed, e.stamp);
    forall i | 0 <= i < |s.insts|
      ensures InstanceOk(Step(s, e).log, s.minted, s.insts[i])
    {
      OtherRecordKeepsInstance(s.log, s.minted, s.insts[i], e.parsed, e.stamp);
    }
  }

  /** A publish that lands, answered or not. */
  function Landing(i: nat, stamp: Stamp, answered: bool): Event {
    if answered then Event.Commit(i, stamp) else CommitFails(i, true, stamp)
  }

  lemma CommitKeepsOne(s: System, i: nat, stamp: Stamp, answered: bool, j: nat)
    requires Invariant(s) && At(s, i, Writing) && j < |s.insts|
    ensures var s' := Step(s, Landing(i, stamp, answered));
            && s'.log == Append(s.log, Transaction(s.insts[i].counter, s.insts[i].token.value), stamp)
            && |s'.insts| == |s.insts| && s'.insts[j].token == s.insts[j].token
            && InstanceOk(s'.log, s.minted, s'.insts[j])
  {
    var inst := s.insts[i];
    assert InstanceOk(s.log, s.minted, inst) && InstanceOk(s.log, s.minted, s.insts[j]);
    if j == i {
      CommitKeepsInstance(s.log, s.minted, inst, stamp, answered);
    } else {
      assert s.insts[j].token != inst.token;
      OtherRecordKeepsInstance(s.log, s.minted, s.insts[j], Transaction(inst.counter, inst.token.value), stamp);
    }
  }

  lemma CommitKeeps(s: System, i: nat, stamp: Stamp, answered: bool)
    requires Invariant(s) && At(s, i, Writing)
    ensures Invariant(Step(s, Landing(i, stamp, answered)))
  {
    var inst, s' := s.insts[i], Step(s, Landing(i, stamp, answered));
    AppendKeepsStep(s.auditor, s.log, Transaction(inst.counter, inst.token.value), stamp);
    PutKeepsTokens(s.log, s.minted, inst.counter, inst.token.value, stamp);
    forall j | 0 <= j < |s.insts|
      ensures |s'.insts| == |s.insts| && s'.insts[j].token == s.insts[j].token
      ensures InstanceOk(s'.log, s'.minted, s'.insts[j])
    {
      CommitKeepsOne(s, i, stamp, answered, j);
    }
  }

  /** A new token leaves every instance as it is. */
  lemma MintKeepsInstance(log: Log, minted: nat, later: nat, inst: Instance)
    requires InstanceOk(log, minted, inst) && minted <= later
    ensures InstanceOk(log, later, inst)
  {
  }

  /** The instance that gets the new token stands before its first transaction. */
  lemma GrantedInstance(s: System, e: Event)
    requires Invariant(s) && Enabled(s, e) && (e.Grant? || e.GrantLost?)
    ensures |Step(s, e).insts| == |s.insts|
    ensures InstanceOk(s.log, Mint(s.minted, e.hint), Step(s, e).insts[e.i])
  {
    assert Own(s.log, Mint(s.minted, e.hint)) == [];
    assert InstanceOk(s.log, s.minted, s.insts[e.i]);
  }

  lemma GrantKeeps(s: System, e: Event)
    requires Invariant(s) && Enabled(s, e) && (e.Grant? || e.GrantLost?)
    ensures Invariant(Step(s, e))
  {
    var t, s' := Mint(s.minted, e.hint), Step(s, e);
    assert s'.log == s.log && s'.minted == t && s'.auditor == s.auditor;
    GrantedInstance(s, e);
    forall j | 0 <= j < |s'.insts|
      ensures InstanceOk(s'.log, s'.minted, s'.insts[j])
    {
      if j != e.i { MintKeepsInstance(s.log, s.minted, t, s.insts[j]); }
    }
  }

  /** Moving one instance on, with or without the lease going away. */
  lemma SetKeeps(s: System, i: nat, inst: Instance, holder: Option<nat>)
    requires Invariant(s) && i < |s.insts|
    requires InstanceOk(s.log, s.minted, inst) && inst.token == s.insts[i].token
    requires holder == None || holder == s.holder
    ensures Invariant(SetInst(s, i, inst).(holder := holder))
  {
  }

  /** The ways from phase to phase that write no record. */
  lemma PhaseKeepsInstance(log: Log, minted: nat, inst: Instance)
    requires InstanceOk(log, minted, inst)
    ensures inst.phase == Waiting && inst.token.None? ==> InstanceOk(log, minted, inst.(phase := Exited))
    ensures inst.phase == Writing && inst.token.Some? ==> InstanceOk(log, minted, inst.(phase := Releasing))
    ensures inst.phase == Sleeping && inst.token.Some? ==> InstanceOk(log, minted, inst.(phase := Releasing))
    ensures inst.phase == Sleeping && inst.token.Some? ==> InstanceOk(log, minted, NextWrite(inst))
    ensures inst.phase == Releasing && inst.token.Some? ==>
              InstanceOk(log, minted, inst.(phase := Exited, releases := inst.releases + 1))
  {
  }

  lemma RenewKeeps(s: System, e: Event)
    requires Invariant(s) && Enabled(s, e) && (e.Renew? || e.RenewFails?)
    ensures Invariant(Step(s, e))
  {
    var p := if e.Renew? && e.granted then Sleeping else Releasing;
    var inst := s.insts[e.i];
    assert InstanceOk(s.log, s.minted, inst);
    MarkerKeepsInstance(s.log, s.minted, inst, p);
    SetKeeps(s, e.i, inst.(markers := inst.markers + [inst.last], phase := p), s.holder);
  }

  lemma RefuseKeeps(s: System, i: nat)
    requires Invariant(s) && At(s, i, Waiting)
    ensures Invariant(Step(s, Refuse(i)))
  {
    assert InstanceOk(s.log, s.minted, s.insts[i]);
    SetKeeps(s, i, s.insts[i].(phase := Exited), s.holder);
  }

  lemma WakeKeeps(s: System, i: nat)
    requires Invariant(s) && At(s, i, Sleeping)
    ensures Invariant(Step(s, Wake(i)))
  {
    assert InstanceOk(s.log, s.minted, s.insts[i]);
    PhaseKeepsInstance(s.log, s.minted, s.insts[i]);
    SetKeeps(s, i, NextWrite(s.insts[i]), s.holder);
  }

  lemma ReleaseKeeps(s: System, i: nat, arrives: bool)
    requires Invariant(s) && At(s, i, Releasing)
    ensures Invariant(Step(s, Event.Release(i, arrives)))
  {
    var inst := s.insts[i];
    assert InstanceOk(s.log, s.minted, inst);
    PhaseKeepsInstance(s.log, s.minted, inst);
    SetKeeps(s, i, inst.(phase := Exited, releases := inst.releases + 1),
             if arrives && s.holder == inst.token then None else s.holder);
  }

  /** A publish that raises without effect, or a cancelled sleep. */
  lemma StopKeeps(s: System, i: nat)
    requires Invariant(s) && (At(s, i, Writing) || At(s, i, Sleeping))
    ensures Invariant(SetInst(s, i, s.insts[i].(phase := Releasing)))
  {
    assert InstanceOk(s.log, s.minted, s.insts[i]);
    PhaseKeepsInstance(s.log, s.minted, s.insts[i]);
    SetKeeps(s, i, s.insts[i].(phase := Releasing), s.holder);
  }

  lemma StepKeeps(s: System, e: Event)
    requires Invariant(s)
    ensures Invariant(Apply(s, e))
  {
    if !Enabled(s, e) {
    } else if e.Grant? || e.GrantLost? {
      GrantKeeps(s, e);
    } else if e.Commit? {
      CommitKeeps(s, e.i, e.stamp, true);
    } else if e.CommitFails? && e.landed {
      CommitKeeps(s, e.i, e.stamp, false);
    } else if e.Renew? || e.RenewFails? {
      RenewKeeps(s, e);
    } else if e.Foreign? {
      ForeignKeeps(s, e);
    } else if e.Poll? {
      PollKeeps(s);
    } else if e.Refuse? {
      RefuseKeeps(s, e.i);
    } else if e.Wake? {
      WakeKeeps(s, e.i);
    } else if e.Release? {
      ReleaseKeeps(s, e.i, e.arrives);
    } else if e.CommitFails? || e.Cancel? {
      StopKeeps(s, e.i);
    }
  }

  lemma InitOk(n: nat)
    ensures Invariant(Init(n))
  {
    assert forall t: int :: Own([], t) == [];
    assert forall i :: 0 <= i < n ==> Init(n).insts[i] == NEW_INSTANCE;
  }

  lemma ApplyKeepsCount(s: System, e: Event)
    ensures |Apply(s, e).insts| == |s.insts|
  {
  }

  /** The invariant holds after every run of any number of instances. */
  lemma {:induction false} Reachable(n: nat, run: seq<Event>)
    ensures Invariant(Replay(n, run))
    ensures |Replay(n, run).insts| == n
  {
    if run == [] {
      InitOk(n);
    } else {
      Reachable(n, run[..|run| - 1]);
      ApplyKeepsCount(Replay(n, run[..|run| - 1]), run[|run| - 1]);
      StepKeeps(Replay(n, run[..|run| - 1]), run[|run| - 1]);
    }
  }
}
