/**
 Any number of ledger instances, the lease and topic they share, and one auditor, as a
 state machine over the steps between two `await`s.

 A run is any sequence of events. An event that the state does not allow changes nothing,
 so every sequence is a run and every interleaving is among them.
 */
module LedgerSystem {
  import opened Values
  import opened Decimal
  import opened TopicLog
  import opened Audit

  const RENEW_EVERY := 5

  /** Which `await` an instance stands at. */
  datatype Phase = Waiting | Writing | Renewing | Sleeping | Releasing | Exited

  /** `markers` are the WAL markers handed to `renew_lease` so far; `releases` counts the
      calls of `release_lease`. */
  datatype Instance = Instance(phase: Phase, token: Option<nat>, counter: nat, last: nat,
                               markers: seq<nat>, releases: nat)

  datatype System = System(log: Log, minted: nat, holder: Option<nat>,
                           insts: seq<Instance>, auditor: Auditor)

  datatype Event =
    | Grant(i: nat, hint: nat)                        // the lease is granted and the reply arrives
    | Refuse(i: nat)                                  // no lease: refused, error or shutdown
    | GrantLost(i: nat, hint: nat)                    // granted, but the task was cancelled meanwhile
    | Commit(i: nat, stamp: Stamp)                    // publish returns its event
    | CommitFails(i: nat, landed: bool, stamp: Stamp) // publish raises; the record may have landed
    | Renew(i: nat, granted: bool)                    // renew_lease answers
    | RenewFails(i: nat)                              // renew_lease raises
    | Wake(i: nat)                                    // the sleep ends
    | Cancel(i: nat)                                  // the sleep is cancelled
    | Release(i: nat, arrives: bool)                  // release_lease; the request may get lost
    | Lapse                                           // the grid takes the lease away
    | Foreign(parsed: Parsed, stamp: Stamp)           // another writer on the same topic
    | Poll                                            // one batch of the auditor

  const NEW_INSTANCE := Instance(Waiting, None, 0, 0, [], 0)

  function Init(n: nat): System {
    System([], 0, None, seq(n, _ => NEW_INSTANCE), Audit.FRESH)
  }

  /** The fields of a transaction that anyone reads. */
  function Transaction(counter: nat, token: nat): Parsed {
    Value(Obj(map["txId" := Str(TxId(counter)), "fencingToken" := Num(token)]))
  }

  /** The fencing token a record claims to be written under. */
  function TokenIn(parsed: Parsed): Option<int> {
    match parsed
    case Value(Obj(fields)) =>
      if "fencingToken" in fields && fields["fencingToken"].Num? then Some(fields["fencingToken"].n) else None
    case _ => None
  }

  function TokenOf(r: Record): Option<int> {
    TokenIn(r.payload.parsed)
  }

  predicate At(s: System, i: nat, p: Phase) {
    i < |s.insts| && s.insts[i].phase == p && (p == Waiting || s.insts[i].token.Some?)
  }

  function SetInst(s: System, i: nat, inst: Instance): System
    requires i < |s.insts|
  {
    s.(insts := s.insts[i := inst])
  }

  /** The loop head: count up and start writing the next transaction. */
  function NextWrite(inst: Instance): Instance {
    inst.(phase := Writing, counter := inst.counter + 1)
  }

  function AfterCommit(inst: Instance, seqNo: nat): Instance {
    inst.(phase := if inst.counter % RENEW_EVERY == 0 then Renewing else Sleeping, last := seqNo)
  }

  function Put(s: System, i: nat, stamp: Stamp): System
    requires At(s, i, Writing)
  {
    s.(log := Append(s.log, Transaction(s.insts[i].counter, s.insts[i].token.value), stamp))
  }

  predicate Enabled(s: System, e: Event) {
    match e
    case Grant(i, _) => At(s, i, Waiting)
    case Refuse(i) => At(s, i, Waiting)
    case GrantLost(i, _) => At(s, i, Waiting)
    case Commit(i, _) => At(s, i, Writing)
    case CommitFails(i, _, _) => At(s, i, Writing)
    case Renew(i, granted) => At(s, i, Renewing) && (granted ==> s.holder == s.insts[i].token)
    case RenewFails(i) => At(s, i, Renewing)
    case Wake(i) => At(s, i, Sleeping)
    case Cancel(i) => At(s, i, Sleeping)
    case Release(i, _) => At(s, i, Releasing)
    case Lapse => true
    case Foreign(parsed, _) => TokenIn(parsed) == None
    case Poll => true
  }

  function Step(s: System, e: Event): System
    requires Enabled(s, e)
  {
    match e
    case Grant(i, hint) =>
      var t := Mint(s.minted, hint);
      SetInst(s, i, NextWrite(s.insts[i].(token := Some(t)))).(minted := t, holder := Some(t))
    case Refuse(i) => SetInst(s, i, s.insts[i].(phase := Exited))
    case GrantLost(i, hint) =>
      var t := Mint(s.minted, hint);
      SetInst(s, i, s.insts[i].(phase := Exited)).(minted := t, holder := Some(t))
    case Commit(i, stamp) =>
      var s' := Put(s, i, stamp);
      SetInst(s', i, AfterCommit(s.insts[i], LastSeq(s'.log)))
    case CommitFails(i, landed, stamp) =>
      SetInst(if landed then Put(s, i, stamp) else s, i, s.insts[i].(phase := Releasing))
    case Renew(i, granted) =>
      var inst := s.insts[i].(markers := s.insts[i].markers + [s.insts[i].last]);
      SetInst(s, i, inst.(phase := if granted then Sleeping else Releasing))
    case RenewFails(i) =>
      SetInst(s, i, s.insts[i].(markers := s.insts[i].markers + [s.insts[i].last], phase := Releasing))
    case Wake(i) => SetInst(s, i, NextWrite(s.insts[i]))
    case Cancel(i) => SetInst(s, i, s.insts[i].(phase := Releasing))
    case Release(i, arrives) =>
      var s' := SetInst(s, i, s.insts[i].(phase := Exited, releases := s.insts[i].releases + 1));
      if arrives && s.holder == s.insts[i].token then s'.(holder := None) else s'
    case Lapse => s.(holder := None)
    case Foreign(parsed, stamp) => s.(log := Append(s.log, parsed, stamp))
    case Poll => s.(auditor := Audit.Poll(s.auditor, s.log))
  }

  function Apply(s: System, e: Event): System {
    if Enabled(s, e) then Step(s, e) else s
  }

  /** The state after a run of events that starts with `n` instances and an empty topic. */
  function Replay(n: nat, run: seq<Event>): System {
    if run == [] then Init(n) else Apply(Replay(n, run[..|run| - 1]), run[|run| - 1])
  }

  lemma ReplaySnoc(n: nat, run: seq<Event>, e: Event)
    ensures Replay(n, run + [e]) == Apply(Replay(n, run), e)
  {
    assert (run + [e])[..|run|] == run;
  }

  function Actor(e: Event): Option<nat> {
    match e
    case Lapse => None
    case Foreign(_, _) => None
    case Poll => None
    case _ => Some(e.i)
  }

  /** Whether `e` puts a transaction of instance `i` on the topic. */
  predicate Writes(s: System, e: Event, i: nat) {
    Enabled(s, e) && (e.Commit? || (e.CommitFails? && e.landed)) && e.i == i
  }
}
