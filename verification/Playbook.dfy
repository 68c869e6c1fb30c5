/** The attack playbook: what it runs, in which order, and how its results add up. */
module Playbook {
  import opened Values
  import opened TopicLog
  import opened EventBus
  import opened Attacks

  const SENTINEL_MAS := "grid-gauntlet-sentinel"
  const SENTINEL_SERVICE := "GridGauntletSentinel"

  datatype Attack = FalseTattle | LeaseRace | EventFlood | StaleInvoke | PhantomRegistration

  datatype Scenario = Scenario(name: string, attack: Attack, enabled: bool)

  /** One executed scenario: what the clock read, the bus before and after, how its calls were
      answered, and how it ended. */
  datatype Step = Step(scenario: Scenario, clock: seq<string>, before: Wal, after: Wal, calls: Calls, outcome: Outcome)

  /** What each attack guarantees about a result it returns. */
  ghost predicate Contract(attack: Attack, before: Wal, after: Wal, calls: Calls, r: AttackResult) {
    match attack
    case FalseTattle => TattleContract(after, calls, r) && TattlesTally(r.detail.filed, 5, calls)
    case LeaseRace => RaceContract(before, after, SENTINEL_MAS, calls, r)
    case EventFlood => FloodContract(after, calls, r, 1000)
    case StaleInvoke => InvokeContract(before, after, SENTINEL_SERVICE, calls, r)
    case PhantomRegistration => PhantomContract(before, after, calls, r)
  }

  /** What a scenario guarantees however it ends. */
  ghost predicate Always(attack: Attack, clock: seq<string>, before: Wal, after: Wal, calls: Calls) {
    before <= after && (attack == EventFlood ==> FloodWrote(before, after, calls, 1000, clock))
  }

  ghost predicate StepOk(s: Step) {
    && s.outcome != Aborted
    && Always(s.scenario.attack, s.clock, s.before, s.after, s.calls)
    && (s.outcome.Returned? ==> Contract(s.scenario.attack, s.before, s.after, s.calls, s.outcome.result))
  }

  /** A scenario that times out or raises is entered as a lost defence. */
  function ResultOf(s: Step): AttackResult {
    match s.outcome
    case Returned(r) => r
    case _ => AttackResult(s.scenario.name, false, true, true, NoDetail)
  }

  function ResultsOf(steps: seq<Step>): seq<AttackResult> {
    if steps == [] then [] else ResultsOf(steps[..|steps| - 1]) + [ResultOf(steps[|steps| - 1])]
  }

  function ScenariosOf(steps: seq<Step>): seq<Scenario> {
    if steps == [] then [] else ScenariosOf(steps[..|steps| - 1]) + [steps[|steps| - 1].scenario]
  }

  lemma {:induction false} ScenarioCount(steps: seq<Step>)
    ensures |ScenariosOf(steps)| == |ResultsOf(steps)| == |steps|
  {
    if steps != [] { ScenarioCount(steps[..|steps| - 1]); }
  }

  /** One result and one scenario per step, in order. */
  lemma {:induction false} StepAt(steps: seq<Step>, k: nat)
    requires k < |steps|
    ensures k < |ResultsOf(steps)| && k < |ScenariosOf(steps)|
    ensures ResultsOf(steps)[k] == ResultOf(steps[k]) && ScenariosOf(steps)[k] == steps[k].scenario
  {
    var n := |steps| - 1;
    ScenarioCount(steps);
    ScenarioCount(steps[..n]);
    if k < n { StepAt(steps[..n], k); }
  }

  /** Each step keeps its contract, and from one step to the next the bus only grows, up to
      what it is now. */
  ghost predicate History(steps: seq<Step>, now: Wal)
    decreases |steps|
  {
    steps == []
    || (var last := steps[|steps| - 1];
        StepOk(last) && last.after <= now && History(steps[..|steps| - 1], last.before))
  }

  lemma HistorySnoc(steps: seq<Step>, s: Step)
    requires History(steps, s.before) && StepOk(s)
    ensures History(steps + [s], s.after)
    ensures ResultsOf(steps + [s]) == ResultsOf(steps) + [ResultOf(s)]
    ensures ScenariosOf(steps + [s]) == ScenariosOf(steps) + [s.scenario]
  {
    assert (steps + [s])[..|steps|] == steps;
  }

  lemma {:induction false} HistoryAt(steps: seq<Step>, now: Wal, k: nat)
    requires History(steps, now) && k < |steps|
    ensures StepOk(steps[k]) && steps[k].after <= now
    decreases |steps|
  {
    var n := |steps| - 1;
    if k < n { HistoryAt(steps[..n], steps[n].before, k); }
  }

  /** What an earlier step left is still there before every later one. */
  lemma {:induction false} HistoryOrder(steps: seq<Step>, now: Wal, i: nat, j: nat)
    requires History(steps, now) && i < j < |steps|
    ensures steps[i].after <= steps[j].before
    decreases |steps|
  {
    var n := |steps| - 1;
    if j < n { HistoryOrder(steps[..n], steps[n].before, i, j); } else { HistoryAt(steps[..n], steps[n].before, i); }
  }

  function EnabledOnes(scenarios: seq<Scenario>): seq<Scenario> {
    if scenarios == [] then []
    else
      var n := |scenarios| - 1;
      EnabledOnes(scenarios[..n]) + if scenarios[n].enabled then [scenarios[n]] else []
  }

  lemma {:induction false} EnabledPrefix(scenarios: seq<Scenario>, k: nat)
    requires k <= |scenarios|
    ensures EnabledOnes(scenarios[..k]) <= EnabledOnes(scenarios)
  {
    if k < |scenarios| {
      EnabledPrefix(scenarios[..|scenarios| - 1], k);
      assert scenarios[..|scenarios| - 1][..k] == scenarios[..k];
    } else {
      assert scenarios[..k] == scenarios;
    }
  }

  lemma EnabledSnoc(all: seq<Scenario>, k: nat)
    requires k < |all|
    ensures EnabledOnes(all[..k + 1]) == EnabledOnes(all[..k]) + EnabledOnes([all[k]])
  {
    assert all[..k + 1][..k] == all[..k];
    assert [all[k]][..0] == [];
  }

  lemma EnabledOne(s: Scenario)
    ensures EnabledOnes([s]) == if s.enabled then [s] else []
  {
    assert [s][..0] == [];
  }

  lemma ExtendByNext(start: seq<Scenario>, all: seq<Scenario>, k: nat, before: seq<Scenario>, after: seq<Scenario>)
    requires k < |all| && before == start + EnabledOnes(all[..k]) && after == before + EnabledOnes([all[k]])
    ensures after == start + EnabledOnes(all[..k + 1]) && after <= start + EnabledOnes(all)
  {
    EnabledSnoc(all, k);
    EnabledPrefix(all, k + 1);
    var now, total := EnabledOnes(all[..k + 1]), EnabledOnes(all);
    assert after == start + now;
    assert start + now <= start + total;
  }

  predicate FirstNamed(scenarios: seq<Scenario>, name: string, k: nat)
    requires k < |scenarios|
  {
    scenarios[k].name == name && forall j :: 0 <= j < k ==> scenarios[j].name != name
  }

  /** Run the executor registered for an attack, with the default arguments. */
  method Execute(ctx: Context, attack: Attack, clock: seq<string>) returns (o: Outcome)
    requires OwnHarmless(ctx.wal)
    modifies ctx
    ensures old(ctx.wal) <= ctx.wal && OwnHarmless(ctx.wal)
    ensures Explains(ctx.last, o) && Always(attack, clock, old(ctx.wal), ctx.wal, ctx.calls)
    ensures o.Returned? ==> Contract(attack, old(ctx.wal), ctx.wal, ctx.calls, o.result)
  {
    match attack
    case FalseTattle => o := ExecuteFalseTattle(ctx, 5);
    case LeaseRace => o := ExecuteLeaseRace(ctx, SENTINEL_MAS);
    case EventFlood => o := ExecuteEventFlood(ctx, 1000, clock);
    case StaleInvoke => o := ExecuteStaleInvoke(ctx, SENTINEL_SERVICE);
    case PhantomRegistration => o := ExecutePhantomRegistration(ctx);
  }

  class AttackPlaybook {
    var scenarios: seq<Scenario>
    var results: seq<AttackResult>
    ghost var steps: seq<Step>

    ghost predicate Valid(ctx: Context)
      reads this, ctx
    {
      && OwnHarmless(ctx.wal)
      && History(steps, ctx.wal)
      && results == ResultsOf(steps)
    }

    constructor ()
      ensures scenarios == [] && results == [] && steps == []
    {
      scenarios, results, steps := [], [], [];
    }

    method Register(scenario: Scenario)
      modifies this`scenarios
      ensures scenarios == old(scenarios) + [scenario]
    {
      scenarios := scenarios + [scenario];
    }

    /** `_execute_with_timeout`, and the append to the results that follows it. False when the
        whole playbook is cancelled, in which case there is no result. */
    method ExecuteWithTimeout(ctx: Context, scenario: Scenario, clock: seq<string>) returns (recorded: bool)
      requires Valid(ctx) && this != ctx as object
      modifies this`results, this`steps, ctx
      ensures Valid(ctx) && old(ctx.wal) <= ctx.wal
      ensures old(steps) <= steps && old(results) <= results
      ensures |results| == |old(results)| + if recorded then 1 else 0
      ensures recorded <==> !ctx.last.Shutdown?
      ensures recorded ==> var r := results[|results| - 1];
                           && |steps| == |old(steps)| + 1
                           && (r.failed <==> !steps[|old(steps)|].outcome.Returned?)
                           && (ctx.last.Timeout? ==> r.failed)
                           && (r.failed ==> !r.held && r.trigger && r.name == scenario.name)
      ensures !recorded ==> steps == old(steps)
      ensures ScenariosOf(steps) == ScenariosOf(old(steps)) + if recorded then [scenario] else []
    {
      ghost var before := ctx.wal;
      var o := Execute(ctx, scenario.attack, clock);
      recorded := o != Aborted;
      ghost var done := Step(scenario, clock, before, ctx.wal, ctx.calls, o);
      if recorded {
        HistorySnoc(steps, done);
        var result := match o
          case Returned(r) => r
          case _ => AttackResult(scenario.name, false, true, true, NoDetail);
        results := results + [result];
        steps := steps + [done];
      }
    }

    /** One turn of the loop of `execute_all`: a disabled scenario is passed over. */
    method ExecuteNext(ctx: Context, all: seq<Scenario>, k: nat, clock: seq<string>, ghost start: seq<Scenario>)
      returns (more: seq<AttackResult>, goesOn: bool)
      requires Valid(ctx) && this != ctx as object
      requires k < |all| && ScenariosOf(steps) == start + EnabledOnes(all[..k])
      modifies this`results, this`steps, ctx
      ensures Valid(ctx) && results == old(results) + more
      ensures !goesOn ==> ctx.last.Shutdown?
      ensures goesOn ==> ScenariosOf(steps) == start + EnabledOnes(all[..k + 1])
      ensures ScenariosOf(steps) <= start + EnabledOnes(all)
    {
      more, goesOn := [], true;
      ghost var before := ScenariosOf(steps);
      EnabledPrefix(all, k);
      EnabledOne(all[k]);
      ghost var resultsBefore := results;
      if all[k].enabled {
        goesOn := ExecuteWithTimeout(ctx, all[k], clock);
        if goesOn {
          more := [results[|results| - 1]];
          assert results == resultsBefore + more;
        }
      }
      if goesOn { ExtendByNext(start, all, k, before, ScenariosOf(steps)); }
    }

    /** All enabled scenarios in registration order; a cancelled run leaves a prefix. */
    method ExecuteAll(ctx: Context, clock: seq<string>) returns (batch: seq<AttackResult>, completed: bool)
      requires Valid(ctx) && this != ctx as object
      modifies this`results, this`steps, ctx
      ensures Valid(ctx) && results == old(results) + batch
      ensures ScenariosOf(steps) <= ScenariosOf(old(steps)) + EnabledOnes(scenarios)
      ensures !completed ==> ctx.last.Shutdown?
      ensures completed ==> ScenariosOf(steps) == ScenariosOf(old(steps)) + EnabledOnes(scenarios)
    {
      batch, completed := [], true;
      var all, k := scenarios, 0;
      ghost var start := ScenariosOf(steps);
      while k < |all| && completed
        invariant k <= |all| && Valid(ctx) && results == old(results) + batch
        invariant !completed ==> ctx.last.Shutdown?
        invariant completed ==> ScenariosOf(steps) == start + EnabledOnes(all[..k])
        invariant ScenariosOf(steps) <= start + EnabledOnes(all)
        decreases |all| - k
      {
        var more;
        more, completed := ExecuteNext(ctx, all, k, clock, start);
        batch := batch + more;
        k := k + 1;
      }
      assert all[..|all|] == all;
    }

    /** The first scenario of that name, enabled or not. */
    method ExecuteOne(ctx: Context, name: string, clock: seq<string>) returns (result: Option<AttackResult>)
      requires Valid(ctx) && this != ctx as object
      modifies this`results, this`steps, ctx
      ensures Valid(ctx) && old(ctx.wal) <= ctx.wal && old(steps) <= steps
      ensures result.None? ==> steps == old(steps) && results == old(results)
      ensures result.None? ==> ctx.last.Shutdown? || forall k :: 0 <= k < |scenarios| ==> scenarios[k].name != name
      ensures result.Some? ==> results == old(results) + [result.value]
      ensures result.Some? ==>
                exists k :: 0 <= k < |scenarios| && scenarios[k].name == name && FirstNamed(scenarios, name, k)
                            && ScenariosOf(steps) == ScenariosOf(old(steps)) + [scenarios[k]]
    {
      var all := scenarios;
      for k := 0 to |all|
        invariant forall j :: 0 <= j < k ==> all[j].name != name
        invariant scenarios == all && Valid(ctx)
        invariant ctx.wal == old(ctx.wal) && steps == old(steps) && results == old(results)
      {
        if all[k].name == name {
          assert FirstNamed(all, name, k);
          var recorded := ExecuteWithTimeout(ctx, all[k], clock);
          assert scenarios == all;
          if !recorded { return None; }
          assert results == old(results) + [results[|results| - 1]];
          return Some(results[|results| - 1]);
        }
      }
      return None;
    }

    /** `summary`: the three totals, and how they hang together over any history of calls. */
    method Summary(ctx: Context) returns (totalExecuted: nat, defensesHeld: nat, evolutionTriggers: nat)
      requires Valid(ctx)
      ensures totalExecuted == |results|
      ensures defensesHeld == |HeldOnes(results)| && evolutionTriggers == |TriggerOnes(results)|
      ensures defensesHeld <= Returns(steps) && evolutionTriggers >= |steps| - Returns(steps)
      ensures defensesHeld + evolutionTriggers == totalExecuted + StaleReturns(steps)
    {
      totalExecuted, defensesHeld, evolutionTriggers := |results|, 0, 0;
      for k := 0 to |results|
        invariant defensesHeld == HeldCount(results[..k]) && evolutionTriggers == TriggerCount(results[..k])
      {
        assert results[..k + 1][..k] == results[..k];
        if results[k].held { defensesHeld := defensesHeld + 1; }
        if results[k].trigger { evolutionTriggers := evolutionTriggers + 1; }
      }
      assert results[..|results|] == results;
      PlaybookLaw(steps, ctx.wal);
      HeldAreReturned(steps, ctx.wal);
      HeldCountExact(results);
      TriggerCountExact(results);
      ScenarioCount(steps);
    }
  }

  // ----- how the results add up -----

  function HeldCount(results: seq<AttackResult>): nat {
    if results == [] then 0
    else HeldCount(results[..|results| - 1]) + if results[|results| - 1].held then 1 else 0
  }

  function TriggerCount(results: seq<AttackResult>): nat {
    if results == [] then 0
    else TriggerCount(results[..|results| - 1]) + if results[|results| - 1].trigger then 1 else 0
  }

  ghost function HeldOnes(results: seq<AttackResult>): set<nat> {
    set k: nat | k < |results| && results[k].held
  }

  ghost function TriggerOnes(results: seq<AttackResult>): set<nat> {
    set k: nat | k < |results| && results[k].trigger
  }

  /** The counts are of the results that hold, and of those that trigger. */
  lemma {:induction false} HeldCountExact(results: seq<AttackResult>)
    ensures HeldCount(results) == |HeldOnes(results)|
  {
    if results != [] {
      var n := |results| - 1;
      var front := results[..n];
      HeldCountExact(front);
      assert n !in HeldOnes(front);
      assert HeldOnes(results) == HeldOnes(front) + if results[n].held then {n} else {};
    }
  }

  lemma {:induction false} TriggerCountExact(results: seq<AttackResult>)
    ensures TriggerCount(results) == |TriggerOnes(results)|
  {
    if results != [] {
      var n := |results| - 1;
      var front := results[..n];
      TriggerCountExact(front);
      assert n !in TriggerOnes(front);
      assert TriggerOnes(results) == TriggerOnes(front) + if results[n].trigger then {n} else {};
    }
  }

  /** Only an attack that returned can have found a defence that held: a timeout or exception
      is always a lost defence that triggers, under the name of its scenario. */
  lemma OnlyReturnedHold(steps: seq<Step>, now: Wal, k: nat)
    requires History(steps, now) && k < |steps|
    ensures |ResultsOf(steps)| == |steps|
    ensures var r := ResultsOf(steps)[k];
            && (r.failed <==> !steps[k].outcome.Returned?)
            && (r.failed ==> !r.held && r.trigger && r.name == steps[k].scenario.name)
            && (r.held ==> steps[k].outcome.Returned?)
  {
    ScenarioCount(steps);
    StepAt(steps, k);
    HistoryAt(steps, now, k);
  }

  /** Steps whose attack came back with a result of its own. */
  function Returns(steps: seq<Step>): nat {
    if steps == [] then 0
    else Returns(steps[..|steps| - 1]) + if steps[|steps| - 1].outcome.Returned? then 1 else 0
  }

  /** Hence no more defences are counted as held than attacks have returned, and every other
      step is counted as a trigger. */
  lemma {:induction false} HeldAreReturned(steps: seq<Step>, now: Wal)
    requires History(steps, now)
    ensures HeldCount(ResultsOf(steps)) <= Returns(steps) <= |steps|
    ensures TriggerCount(ResultsOf(steps)) >= |steps| - Returns(steps)
    decreases |steps|
  {
    if steps != [] {
      var n := |steps| - 1;
      HeldAreReturned(steps[..n], steps[n].before);
      CountsSnoc(ResultsOf(steps[..n]), ResultOf(steps[n]));
    }
  }

  /** Runs of the stale invocation that came back with a result of their own. */
  function StaleReturns(steps: seq<Step>): nat {
    if steps == [] then 0
    else
      var s := steps[|steps| - 1];
      StaleReturns(steps[..|steps| - 1]) + if s.scenario.attack == StaleInvoke && s.outcome.Returned? then 1 else 0
  }

  lemma CountsSnoc(results: seq<AttackResult>, r: AttackResult)
    ensures HeldCount(results + [r]) == HeldCount(results) + if r.held then 1 else 0
    ensures TriggerCount(results + [r]) == TriggerCount(results) + if r.trigger then 1 else 0
  {
    assert (results + [r])[..|results|] == results;
  }

  /** Held defences and evolution triggers partition the results, except that a returned stale
      invocation counts as both. */
  lemma {:induction false} PlaybookLaw(steps: seq<Step>, now: Wal)
    requires History(steps, now)
    ensures HeldCount(ResultsOf(steps)) + TriggerCount(ResultsOf(steps)) == |steps| + StaleReturns(steps)
    decreases |steps|
  {
    if steps != [] {
      var n := |steps| - 1;
      PlaybookLaw(steps[..n], steps[n].before);
      var r := ResultOf(steps[n]);
      assert ResultsOf(steps) == ResultsOf(steps[..n]) + [r];
      CountsSnoc(ResultsOf(steps[..n]), r);
    }
  }

  // ----- what earlier attacks do to later verdicts -----

  predicate IsReturned(s: Step, attack: Attack) {
    s.scenario.attack == attack && s.outcome.Returned?
  }

  /** A hundred flood events have landed, whatever became of the flood after that. */
  predicate FloodGotThrough(s: Step) {
    s.scenario.attack == EventFlood && Landings(FloodSends(s.calls)) >= 100
  }

  /** The window of the phantom scan is then full, also if the flood was cut off. */
  lemma FloodFillsWindow(s: Step)
    requires StepOk(s) && FloodGotThrough(s)
    ensures |On(s.after, TELEMETRY)| >= 100
  {
    RecordsAreLandings(FloodSends(s.calls), FloodEvents(s.clock));
    TopicsGrow(s.before, s.after, TELEMETRY);
  }

  /** A flood has got through once a hundred publishes succeeded; a flood that returns has if
      it counted at most 900 errors. */
  lemma CountersShowFlood(s: Step)
    requires StepOk(s) && s.scenario.attack == EventFlood
    ensures Hits(FloodSends(s.calls)) >= 100 ==> FloodGotThrough(s)
    ensures s.outcome.Returned? && s.outcome.result.detail.errors <= 900 ==> FloodGotThrough(s)
  {
    FloodAccounting(FloodSends(s.calls));
    SuccessesLand(FloodSends(s.calls));
  }

  predicate ScanAnswered(s: Step) {
    OneAnswer(s.calls.answers, true)
  }

  /** What the telemetry scan of a phantom attack saw. */
  lemma ScannedTelemetry(s: Step) returns (mid: Log)
    requires StepOk(s) && IsReturned(s, PhantomRegistration) && ScanAnswered(s)
    ensures On(s.before, TELEMETRY) <= mid <= On(s.after, TELEMETRY)
    ensures s.outcome.result.held <==> SomeMention(Take(mid, 100))
  {
    var at :| PhantomScan(s.before, at, s.after, s.calls, s.outcome.result);
    TopicsGrow(s.before, at, TELEMETRY);
    TopicsGrow(at, s.after, TELEMETRY);
    mid := On(at, TELEMETRY);
  }

  /** A phantom verdict is held only if its one read got through. */
  lemma HeldMeansScanned(s: Step)
    requires StepOk(s) && IsReturned(s, PhantomRegistration) && s.outcome.result.held
    ensures ScanAnswered(s)
  {
    var at :| PhantomScan(s.before, at, s.after, s.calls, s.outcome.result);
  }

  /** Whatever the telemetry scan of a phantom attack sees, it sees among the first hundred
      records; once those are there, before the attack, its verdict is settled. */
  lemma PhantomVerdictSettled(early: Wal, s: Step)
    requires StepOk(s) && IsReturned(s, PhantomRegistration) && early <= s.before
    requires |On(early, TELEMETRY)| >= 100 && ScanAnswered(s)
    ensures s.outcome.result.held <==> SomeMention(Take(On(early, TELEMETRY), 100))
  {
    var mid := ScannedTelemetry(s);
    TopicsGrow(early, s.before, TELEMETRY);
    WindowIsSettled(On(early, TELEMETRY), mid, 100);
  }

  /** With no more than a hundred records the scan is exact. */
  lemma PhantomVerdictExact(s: Step)
    requires StepOk(s) && IsReturned(s, PhantomRegistration)
    requires |On(s.after, TELEMETRY)| <= 100 && ScanAnswered(s)
    ensures SomeMention(On(s.before, TELEMETRY)) ==> s.outcome.result.held
    ensures s.outcome.result.held ==> SomeMention(On(s.after, TELEMETRY))
  {
    var mid := ScannedTelemetry(s);
    assert Take(mid, 100) == mid;
    MentionGrows(On(s.before, TELEMETRY), mid);
    MentionGrows(mid, On(s.after, TELEMETRY));
  }

  lemma MentionGrows(a: Log, b: Log)
    requires a <= b
    ensures SomeMention(a) ==> SomeMention(b)
  {
    if SomeMention(a) {
      var k :| 0 <= k < |a| && MentionsPhantom(a[k].payload);
      assert MentionsPhantom(b[k].payload);
    }
  }

  /** In any history a flood that got a hundred events through, returned or not, decides every later phantom
      verdict: a tattle that answers the phantom registration comes too late to be seen. */
  lemma FloodSealsPhantom(steps: seq<Step>, now: Wal, f: nat, p: nat)
    requires History(steps, now) && f < p < |steps|
    requires FloodGotThrough(steps[f])
    requires IsReturned(steps[p], PhantomRegistration)
    ensures steps[p].outcome.result.held <==>
            ScanAnswered(steps[p]) && SomeMention(Take(On(steps[f].after, TELEMETRY), 100))
  {
    HistoryAt(steps, now, f);
    HistoryAt(steps, now, p);
    HistoryOrder(steps, now, f, p);
    FloodFillsWindow(steps[f]);
    if steps[p].outcome.result.held { HeldMeansScanned(steps[p]); }
    if ScanAnswered(steps[p]) {
      PhantomVerdictSettled(steps[f].after, steps[p]);
    }
  }

  /** Somebody other than the attacks put a record on the topic that their scan looks for. */
  ghost predicate OthersDecided(wal: Wal, topic: string) {
    exists j :: 0 <= j < |wal| && wal[j].topic == topic && !wal[j].own && !Harmless(topic, wal[j].payload)
  }

  /** A telling record among the first of a topic was not put there by the attacks. */
  lemma TellingRecordIsForeign(seen: Wal, now: Wal, topic: string, mid: Log, k: nat)
    requires OwnHarmless(now) && seen <= now && mid <= On(seen, topic)
    requires k < |mid| && !Harmless(topic, mid[k].payload)
    ensures OthersDecided(now, topic)
  {
    TopicsGrow(seen, now, topic);
    assert On(now, topic)[k] == mid[k];
    var j := RecordWasCommitted(now, topic, k);
    if now[j].own { OwnHarmlessAt(now, j); }
  }

  /** No record of the attacks themselves can hold a phantom defence: if nobody else mentions
      the phantom, the verdict is always a lost defence. */
  lemma PhantomNeedsOthers(now: Wal, s: Step)
    requires StepOk(s) && IsReturned(s, PhantomRegistration)
    requires OwnHarmless(now) && s.after <= now
    requires s.outcome.result.held
    ensures OthersDecided(now, TELEMETRY)
  {
    HeldMeansScanned(s);
    var mid := ScannedTelemetry(s);
    var k :| 0 <= k < |Take(mid, 100)| && MentionsPhantom(Take(mid, 100)[k].payload);
    TellingRecordIsForeign(s.after, now, TELEMETRY, mid, k);
  }

  /** The playbook never trips its own lease-race alarm: a lost verdict needs a transfer
      record that came from someone else. */
  lemma RaceNeedsOthers(now: Wal, s: Step)
    requires StepOk(s) && IsReturned(s, LeaseRace)
    requires OwnHarmless(now) && s.after <= now
    requires !s.outcome.result.held
    ensures OthersDecided(now, SERVICE_STATE)
  {
    var topic := On(s.after, SERVICE_STATE);
    var k := TransferSeen(Take(topic, 50), SENTINEL_MAS);
    TellingRecordIsForeign(s.after, now, SERVICE_STATE, topic, k);
  }

  // ----- the provocateur -----

  const STANDARD := [
    Scenario("false_tattle", FalseTattle, true),
    Scenario("lease_race", LeaseRace, true),
    Scenario("event_flood", EventFlood, true),
    Scenario("stale_invoke", StaleInvoke, true),
    Scenario("phantom_registration", PhantomRegistration, true)]

  lemma {:induction false} AllEnabled(scenarios: seq<Scenario>)
    requires forall k :: 0 <= k < |scenarios| ==> scenarios[k].enabled
    ensures EnabledOnes(scenarios) == scenarios
  {
    if scenarios != [] { AllEnabled(scenarios[..|scenarios| - 1]); }
  }

  /** Every result carries the name under which its attack is registered. */
  lemma ResultName(s: Step, k: nat)
    requires StepOk(s) && k < |STANDARD| && s.scenario == STANDARD[k]
    ensures ResultOf(s).name == STANDARD[k].name
  {
  }

  class ProvocateurService {
    const playbook: AttackPlaybook
    var executionStarted: bool

    constructor ()
      ensures fresh(playbook) && playbook.scenarios == STANDARD && !executionStarted
      ensures playbook.results == [] && playbook.steps == []
    {
      playbook := new AttackPlaybook();
      executionStarted := false;
      new;
      playbook.Register(Scenario("false_tattle", FalseTattle, true));
      playbook.Register(Scenario("lease_race", LeaseRace, true));
      playbook.Register(Scenario("event_flood", EventFlood, true));
      playbook.Register(Scenario("stale_invoke", StaleInvoke, true));
      playbook.Register(Scenario("phantom_registration", PhantomRegistration, true));
    }

    /** The playbook run of `main`. When it completes there is one result per attack in the
        fixed order, and after a flood that got through the phantom verdict had been decided
        before the phantom was registered. */
    method RunPlaybook(ctx: Context, clock: seq<string>) returns (completed: bool)
      requires playbook.scenarios == STANDARD && playbook.results == [] && playbook.steps == []
      requires playbook.Valid(ctx) && playbook != ctx as object
      modifies this`executionStarted, playbook, ctx
      ensures executionStarted && playbook.Valid(ctx)
      ensures !completed ==> ctx.last.Shutdown?
      ensures completed ==> |playbook.results| == |playbook.steps| == 5 && ScenariosOf(playbook.steps) == STANDARD
      ensures completed ==> forall k :: 0 <= k < 5 ==> playbook.results[k].name == STANDARD[k].name
      ensures completed && FloodGotThrough(playbook.steps[2]) && !playbook.results[4].failed ==>
                (playbook.results[4].held <==>
                 ScanAnswered(playbook.steps[4])
                 && SomeMention(Take(On(playbook.steps[2].after, TELEMETRY), 100)))
    {
      executionStarted := true;
      AllEnabled(STANDARD);
      var batch;
      batch, completed := playbook.ExecuteAll(ctx, clock);
      if completed {
        ghost var steps := playbook.steps;
        ScenarioCount(steps);
        StepAt(steps, 2);
        StepAt(steps, 4);
        HistoryAt(steps, ctx.wal, 2);
        HistoryAt(steps, ctx.wal, 4);
        forall k | 0 <= k < 5
          ensures playbook.results[k].name == STANDARD[k].name
        {
          StepAt(steps, k);
          HistoryAt(steps, ctx.wal, k);
          ResultName(steps[k], k);
        }
        if FloodGotThrough(playbook.steps[2]) && !playbook.results[4].failed {
          FloodSealsPhantom(steps, ctx.wal, 2, 4);
        }
      }
    }
  }
}
