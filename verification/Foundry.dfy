/** The model foundry: a training flag, background jobs, and an emergency stop that clears
    the flag but does not cancel the jobs. */
module Foundry {

  datatype Model = V1 | V2Stable

  /** What reaches the service between two turns of the event loop. `JobEnds` is a pending job
      coming out of its sleep; jobs are numbered in the order of their accepted starts. */
  datatype Call = Start | Stop | JobEnds(job: nat)

  /** `pending` are the jobs still asleep, `started` is the number of the next one. */
  datatype State = State(isTraining: bool, model: Model, pending: set<nat>, started: nat)

  const INITIAL := State(false, V1, {}, 0)

  predicate Accepts(s: State, c: Call) {
    match c
    case Start => !s.isTraining
    case Stop => true
    case JobEnds(job) => job in s.pending
  }

  function Step(s: State, c: Call): State {
    if !Accepts(s, c) then s
    else
      match c
      case Start => s.(isTraining := true, pending := s.pending + {s.started}, started := s.started + 1)
      case Stop => s.(isTraining := false)
      case JobEnds(job) => s.(isTraining := false, model := V2Stable, pending := s.pending - {job})
  }

  function Run(calls: seq<Call>): State {
    if calls == [] then INITIAL else Step(Run(calls[..|calls| - 1]), calls[|calls| - 1])
  }

  /** Whether call `k` of the history had its effect. */
  predicate Effective(calls: seq<Call>, k: nat)
    requires k < |calls|
  {
    Accepts(Run(calls[..k]), calls[k])
  }

  /** How many starts were accepted, how many stops came, and how many jobs ended. */
  function Starts(calls: seq<Call>): nat {
    if calls == [] then 0
    else
      var n := |calls| - 1;
      Starts(calls[..n]) + if calls[n].Start? && Effective(calls, n) then 1 else 0
  }

  function Stops(calls: seq<Call>): nat {
    if calls == [] then 0 else Stops(calls[..|calls| - 1]) + if calls[|calls| - 1].Stop? then 1 else 0
  }

  function Ends(calls: seq<Call>): nat {
    if calls == [] then 0
    else
      var n := |calls| - 1;
      Ends(calls[..n]) + if calls[n].JobEnds? && Effective(calls, n) then 1 else 0
  }

  class ModelFoundryService {
    var isTraining: bool
    var currentModel: Model
    ghost var pending: set<nat>
    ghost var started: nat
    ghost var history: seq<Call>

    ghost predicate Valid()
      reads this
    {
      State(isTraining, currentModel, pending, started) == Run(history)
    }

    constructor ()
      ensures Valid() && history == []
    {
      isTraining, currentModel, pending, started, history := false, V1, {}, 0, [];
    }

    /** True when the training is started, false for "already in progress". */
    method StartTraining() returns (isStarted: bool)
      requires Valid()
      modifies this
      ensures Valid() && history == old(history) + [Start]
      ensures isStarted == !old(isTraining) && isTraining && currentModel == old(currentModel)
      ensures pending == old(pending) + if isStarted then {old(started)} else {}
    {
      history := history + [Start];
      assert history[..|history| - 1] == old(history);
      if isTraining { return false; }
      isTraining := true;
      pending, started := pending + {started}, started + 1;
      return true;
    }

    method EmergencyStop() returns (ok: bool)
      requires Valid()
      modifies this
      ensures Valid() && history == old(history) + [Stop]
      ensures ok && !isTraining && pending == old(pending) && currentModel == old(currentModel)
    {
      history := history + [Stop];
      assert history[..|history| - 1] == old(history);
      isTraining := false;
      return true;
    }

    /** The rest of `_simulate_training`, after its sleep. */
    method FinishTraining(ghost job: nat)
      requires Valid() && job in pending
      modifies this
      ensures Valid() && history == old(history) + [JobEnds(job)]
      ensures !isTraining && currentModel == V2Stable && pending == old(pending) - {job}
    {
      history := history + [JobEnds(job)];
      assert history[..|history| - 1] == old(history);
      isTraining := false;
      currentModel := V2Stable;
      pending := pending - {job};
    }
  }

  // ----- the flag and the jobs -----

  /** No call after number `k` had an effect. */
  ghost predicate QuietSince(calls: seq<Call>, k: nat) {
    forall j :: k < j < |calls| ==> !Effective(calls, j)
  }

  /** Call `k` is an accepted start, and nothing but rejected calls has come after it. */
  ghost predicate OpenAt(calls: seq<Call>, k: nat) {
    k < |calls| && calls[k] == Start && Effective(calls, k) && QuietSince(calls, k)
  }

  /** Some accepted start has had neither a stop nor a completion since. */
  ghost predicate OpenStart(calls: seq<Call>) {
    exists k: nat :: OpenAt(calls, k)
  }

  lemma EffectiveSnoc(calls: seq<Call>, c: Call, k: nat)
    requires k <= |calls|
    ensures Effective(calls + [c], k) <==> if k < |calls| then Effective(calls, k) else Accepts(Run(calls), c)
  {
    assert (calls + [c])[..k] == calls[..k];
    assert calls[..|calls|] == calls;
  }

  lemma QuietSnoc(calls: seq<Call>, c: Call, k: nat)
    requires k < |calls|
    ensures QuietSince(calls + [c], k) <==> QuietSince(calls, k) && !Accepts(Run(calls), c)
  {
    EffectiveSnoc(calls, c, |calls|);
    if QuietSince(calls + [c], k) {
      forall j | k < j < |calls|
        ensures !Effective(calls, j)
      {
        EffectiveSnoc(calls, c, j);
      }
    } else {
      var j :| k < j < |calls + [c]| && Effective(calls + [c], j);
      EffectiveSnoc(calls, c, j);
    }
  }

  lemma OpenAtSnoc(calls: seq<Call>, c: Call, k: nat)
    ensures k < |calls| ==> (OpenAt(calls + [c], k) <==> !Accepts(Run(calls), c) && OpenAt(calls, k))
    ensures OpenAt(calls + [c], |calls|) <==> c == Start && Accepts(Run(calls), Start)
  {
    EffectiveSnoc(calls, c, |calls|);
    if k < |calls| {
      EffectiveSnoc(calls, c, k);
      QuietSnoc(calls, c, k);
      assert (calls + [c])[k] == calls[k];
    }
  }

  /** A start is open after one more call: it was open and the call is rejected, or the call
      is a start that is accepted. */
  lemma OpenStartSnoc(calls: seq<Call>, c: Call)
    ensures OpenStart(calls + [c]) <==> if Accepts(Run(calls), c) then c == Start else OpenStart(calls)
  {
    OpenAtSnoc(calls, c, |calls|);
    if OpenStart(calls + [c]) {
      var k: nat :| OpenAt(calls + [c], k);
      OpenAtSnoc(calls, c, k);
    }
    if OpenStart(calls) {
      var k: nat :| OpenAt(calls, k);
      OpenAtSnoc(calls, c, k);
    }
  }

  lemma {:induction false} JobsAreNumbered(calls: seq<Call>)
    ensures forall job :: job in Run(calls).pending ==> job < Run(calls).started
  {
    if calls != [] { JobsAreNumbered(calls[..|calls| - 1]); }
  }

  /** In every interleaving: the flag says whether the last accepted start is still open;
      pending jobs are starts minus completions; the model is v2 once a job has completed. */
  lemma {:induction false} StatusExact(calls: seq<Call>)
    ensures Run(calls).isTraining <==> OpenStart(calls)
    ensures Run(calls).isTraining ==> Run(calls).pending != {}
    ensures |Run(calls).pending| == Starts(calls) - Ends(calls) && Run(calls).started == Starts(calls)
    ensures Run(calls).model == V2Stable <==> Ends(calls) > 0
  {
    if calls != [] {
      var front, c := calls[..|calls| - 1], calls[|calls| - 1];
      StatusExact(front);
      JobsAreNumbered(front);
      OpenStartSnoc(front, c);
      assert calls == front + [c];
    }
  }

  /** Every job beyond the first has been paid for by an emergency stop. */
  lemma {:induction false} StopsAllowJobs(calls: seq<Call>)
    ensures |Run(calls).pending| <= Stops(calls) + if Run(calls).isTraining then 1 else 0
  {
    if calls != [] {
      var front := calls[..|calls| - 1];
      StopsAllowJobs(front);
      StatusExact(calls);
      StatusExact(front);
    }
  }

  lemma {:induction false} NoStopNoCount(calls: seq<Call>)
    requires Stop !in calls
    ensures Stops(calls) == 0
  {
    if calls != [] { NoStopNoCount(calls[..|calls| - 1]); }
  }

  /** Without stops there is never a second job, and the flag tells whether one is running. */
  lemma StopFreeIsExclusive(calls: seq<Call>)
    requires Stop !in calls
    ensures |Run(calls).pending| == if Run(calls).isTraining then 1 else 0
  {
    NoStopNoCount(calls);
    StopsAllowJobs(calls);
    StatusExact(calls);
  }

  lemma RunSnoc(calls: seq<Call>, c: Call)
    ensures Run(calls + [c]) == Step(Run(calls), c)
    ensures Stops(calls + [c]) == Stops(calls) + if c.Stop? then 1 else 0
  {
    assert (calls + [c])[..|calls|] == calls;
  }

  /** With `k` stops there can be `k + 1` jobs at once, so the bound is exact. */
  lemma {:induction false} JobsPileUp(k: nat) returns (calls: seq<Call>)
    ensures Stops(calls) == k && |Run(calls).pending| == k + 1 && Run(calls).isTraining
  {
    if k == 0 {
      RunSnoc([], Start);
      calls := [] + [Start];
    } else {
      var before := JobsPileUp(k - 1);
      JobsAreNumbered(before);
      RunSnoc(before, Stop);
      RunSnoc(before + [Stop], Start);
      calls := before + [Stop] + [Start];
    }
  }

  /** A stop ends no job: the stopped job still releases its model, whatever came before. */
  lemma StoppedJobStillReleases(calls: seq<Call>, job: nat)
    requires job in Run(calls).pending
    ensures var stopped := calls + [Stop];
            && !Run(stopped).isTraining && Run(stopped).pending == Run(calls).pending
            && Run(stopped + [JobEnds(job)]).model == V2Stable
  {
    RunSnoc(calls, Stop);
    RunSnoc(calls + [Stop], JobEnds(job));
  }

  // ----- when the flag tells the truth -----

  /** The jobs that were started and have neither been stopped nor ended. */
  function Active(calls: seq<Call>): set<nat> {
    if calls == [] then {}
    else
      var before, c := calls[..|calls| - 1], calls[|calls| - 1];
      match c
      case Start => if Run(before).isTraining then Active(before) else Active(before) + {Run(before).started}
      case Stop => {}
      case JobEnds(job) => Active(before) - {job}
  }

  /** A job has ended since the last start that was accepted. */
  predicate EndSinceStart(calls: seq<Call>) {
    calls != []
    && (var before, c := calls[..|calls| - 1], calls[|calls| - 1];
        if !Accepts(Run(before), c) || c.Stop? then EndSinceStart(before) else c.JobEnds?)
  }

  /** A job that had been stopped has ended. */
  predicate StoppedJobEnded(calls: seq<Call>) {
    calls != []
    && (var before, c := calls[..|calls| - 1], calls[|calls| - 1];
        StoppedJobEnded(before) || (c.JobEnds? && c.job in Run(before).pending && c.job !in Active(before)))
  }

  lemma {:induction false} ActiveIsPending(calls: seq<Call>)
    ensures Active(calls) <= Run(calls).pending
  {
    if calls != [] { ActiveIsPending(calls[..|calls| - 1]); }
  }

  /** While a job is active the flag is clear exactly if some job, stopped or not, has ended
      since the last accepted start. */
  lemma {:induction false} FlagWhileActive(calls: seq<Call>)
    ensures Run(calls).isTraining ==> Active(calls) != {} && !EndSinceStart(calls)
    ensures Active(calls) != {} ==> (Run(calls).isTraining <==> !EndSinceStart(calls))
  {
    if calls != [] {
      var front, c := calls[..|calls| - 1], calls[|calls| - 1];
      FlagWhileActive(front);
      ActiveIsPending(front);
      if c.JobEnds? && c.job !in Run(front).pending { assert Active(calls) == Active(front); }
    }
  }

  /** So the flag says whether a job is active unless, with one active, a job has ended since
      the last accepted start. */
  lemma FlagIsTruthfulIff(calls: seq<Call>)
    ensures (Run(calls).isTraining <==> Active(calls) != {}) <==> (Active(calls) == {} || !EndSinceStart(calls))
  {
    FlagWhileActive(calls);
  }

  /** It takes the end of a stopped job to mislead the flag: as long as none has ended, at most
      one job is active and the flag says whether one is. */
  lemma {:induction false} OnlyStoppedJobsMislead(calls: seq<Call>)
    requires !StoppedJobEnded(calls)
    ensures Run(calls).isTraining <==> Active(calls) != {}
    ensures |Active(calls)| <= 1
  {
    if calls != [] {
      var front, c := calls[..|calls| - 1], calls[|calls| - 1];
      OnlyStoppedJobsMislead(front);
      ActiveIsPending(front);
      if c.JobEnds? && c.job in Active(front) { SingleJob(Active(front), c.job); }
      if c.JobEnds? && c.job !in Run(front).pending { assert Active(calls) == Active(front); }
    }
  }

  lemma SingleJob(jobs: set<nat>, job: nat)
    requires |jobs| <= 1 && job in jobs
    ensures jobs == {job}
  {
    assert |jobs - {job}| == |jobs| - 1;
  }

  /** Once misled, the flag lets a second job in beside an active one, without a stop between
      them; when one of the two ends, the flag is clear although the other is active and no
      stopped job has ended since the last accepted start. */
  lemma FlagStaysMisled()
    ensures var calls := [Start, Stop, Start, JobEnds(0)];
            && Active(calls) == {1} && !Run(calls).isTraining
            && Active(calls + [Start]) == {1, 2} && Run(calls + [Start]).isTraining
            && Active(calls + [Start] + [JobEnds(1)]) == {2} && !Run(calls + [Start] + [JobEnds(1)]).isTraining
  {
    var c1 := [] + [Start];
    var c2 := c1 + [Stop];
    var c3 := c2 + [Start];
    var c4 := c3 + [JobEnds(0)];
    var c5 := c4 + [Start];
    ActiveSnoc([], Start);
    ActiveSnoc(c1, Stop);
    ActiveSnoc(c2, Start);
    ActiveSnoc(c3, JobEnds(0));
    ActiveSnoc(c4, Start);
    ActiveSnoc(c5, JobEnds(1));
    assert c4 == [Start, Stop, Start, JobEnds(0)];
  }

  lemma ActiveSnoc(calls: seq<Call>, c: Call)
    ensures Run(calls + [c]) == Step(Run(calls), c)
    ensures Active(calls + [c]) ==
            match c
            case Start => if Run(calls).isTraining then Active(calls) else Active(calls) + {Run(calls).started}
            case Stop => {}
            case JobEnds(job) => Active(calls) - {job}
  {
    assert (calls + [c])[..|calls|] == calls;
  }
}
