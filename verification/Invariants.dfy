/** The Sentinel's invariant checker and what its findings mean for a whole trace of calls. */
module Invariants {
  import opened Values

  /** A recorded violation; its evidence names the running value and the offending one. */
  datatype Violation =
    | TokenRegress(previous: int, current: int)
    | SequenceRegress(topic: string, previousSeq: int, currentSeq: int)
    | LeaseMissing(masId: string)

  datatype Call =
    | CheckToken(token: int)
    | CheckOrder(topic: string, seqNo: int)
    | CheckLease(present: bool, masId: string)
    | RecordTattle(tattle: map<string, Json>)

  datatype State = State(lastToken: Option<int>, topics: map<string, int>,
                         violations: seq<Violation>, tattles: seq<map<string, Json>>)

  const EMPTY := State(None, map[], [], [])

  /** What one call leaves behind. */
  function Step(s: State, c: Call): State {
    match c
    case CheckToken(t) =>
      if s.lastToken.Some? && t <= s.lastToken.value
      then s.(violations := s.violations + [TokenRegress(s.lastToken.value, t)])
      else s.(lastToken := Some(t))
    case CheckOrder(topic, n) =>
      if topic in s.topics && n <= s.topics[topic]
      then s.(violations := s.violations + [SequenceRegress(topic, s.topics[topic], n)])
      else s.(topics := s.topics[topic := n])
    case CheckLease(present, masId) =>
      if present then s else s.(violations := s.violations + [LeaseMissing(masId)])
    case RecordTattle(tattle) => s.(tattles := s.tattles + [tattle])
  }

  function Run(trace: seq<Call>): State {
    if trace == [] then EMPTY else Step(Run(trace[..|trace| - 1]), trace[|trace| - 1])
  }

  class InvariantChecker {
    var violations: seq<Violation>
    var lastFencingToken: Option<int>
    var topicSequences: map<string, int>
    var tattleEvidence: seq<map<string, Json>>
    ghost var trace: seq<Call>

    ghost function View(): State
      reads this
    {
      State(lastFencingToken, topicSequences, violations, tattleEvidence)
    }

    ghost predicate Valid()
      reads this
    {
      View() == Run(trace)
    }

    constructor ()
      ensures Valid() && trace == []
    {
      violations, lastFencingToken, topicSequences, tattleEvidence, trace := [], None, map[], [], [];
    }

    method CheckFencingToken(newToken: int) returns (ok: bool)
      requires Valid()
      modifies this
      ensures Valid() && trace == old(trace) + [CheckToken(newToken)]
      ensures ok == (violations == old(violations))
      ensures ok <==> old(lastFencingToken).None? || old(lastFencingToken).value < newToken
      ensures lastFencingToken == if ok then Some(newToken) else old(lastFencingToken)
      ensures !ok ==> violations == old(violations) + [TokenRegress(old(lastFencingToken).value, newToken)]
    {
      trace := trace + [CheckToken(newToken)];
      assert trace[..|trace| - 1] == old(trace);
      if lastFencingToken.Some? && newToken <= lastFencingToken.value {
        violations := violations + [TokenRegress(lastFencingToken.value, newToken)];
        return false;
      }
      lastFencingToken := Some(newToken);
      return true;
    }

    method CheckEventOrdering(topic: string, seqNo: int) returns (ok: bool)
      requires Valid()
      modifies this
      ensures Valid() && trace == old(trace) + [CheckOrder(topic, seqNo)]
      ensures ok == (violations == old(violations))
      ensures ok <==> topic !in old(topicSequences) || old(topicSequences)[topic] < seqNo
      ensures topicSequences == if ok then old(topicSequences)[topic := seqNo] else old(topicSequences)
      ensures !ok ==> violations == old(violations) + [SequenceRegress(topic, old(topicSequences)[topic], seqNo)]
    {
      trace := trace + [CheckOrder(topic, seqNo)];
      assert trace[..|trace| - 1] == old(trace);
      if topic in topicSequences && seqNo <= topicSequences[topic] {
        violations := violations + [SequenceRegress(topic, topicSequences[topic], seqNo)];
        return false;
      }
      topicSequences := topicSequences[topic := seqNo];
      return true;
    }

    method CheckLeasePresent(present: bool, masId: string) returns (ok: bool)
      requires Valid()
      modifies this
      ensures Valid() && trace == old(trace) + [CheckLease(present, masId)]
      ensures ok == present == (violations == old(violations))
      ensures !ok ==> violations == old(violations) + [LeaseMissing(masId)]
    {
      trace := trace + [CheckLease(present, masId)];
      assert trace[..|trace| - 1] == old(trace);
      if !present {
        violations := violations + [LeaseMissing(masId)];
        return false;
      }
      return true;
    }

    method RecordTattleAgainstUs(tattle: map<string, Json>)
      requires Valid()
      modifies this
      ensures Valid() && trace == old(trace) + [RecordTattle(tattle)]
      ensures violations == old(violations) && tattleEvidence == old(tattleEvidence) + [tattle]
    {
      trace := trace + [RecordTattle(tattle)];
      assert trace[..|trace| - 1] == old(trace);
      tattleEvidence := tattleEvidence + [tattle];
    }

    /** The health flag is a statement about the whole trace. */
    method IsHealthy() returns (healthy: bool)
      requires Valid()
      ensures healthy <==> Increasing(Tokens(trace)) && AllTopicsIncreasing(trace) && NoLeaseMissing(trace)
    {
      HealthyIffAllIncreasing(trace);
      healthy := |violations| == 0;
    }
  }

  // ----- the streams in a trace -----

  function Tokens(trace: seq<Call>): seq<int> {
    if trace == [] then []
    else
      var before := Tokens(trace[..|trace| - 1]);
      if trace[|trace| - 1].CheckToken? then before + [trace[|trace| - 1].token] else before
  }

  function Seqs(trace: seq<Call>, topic: string): seq<int> {
    if trace == [] then []
    else
      var before, c := Seqs(trace[..|trace| - 1], topic), trace[|trace| - 1];
      if c.CheckOrder? && c.topic == topic then before + [c.seqNo] else before
  }

  function MissingLeases(trace: seq<Call>): seq<Violation> {
    if trace == [] then []
    else
      var before, c := MissingLeases(trace[..|trace| - 1]), trace[|trace| - 1];
      if c.CheckLease? && !c.present then before + [LeaseMissing(c.masId)] else before
  }

  ghost predicate Increasing(xs: seq<int>) {
    forall i, j :: 0 <= i < j < |xs| ==> xs[i] < xs[j]
  }

  ghost predicate AllTopicsIncreasing(trace: seq<Call>) {
    forall topic :: Increasing(Seqs(trace, topic))
  }

  ghost predicate NoLeaseMissing(trace: seq<Call>) {
    forall c :: c in trace && c.CheckLease? ==> c.present
  }

  // ----- strict left-to-right maxima -----

  ghost predicate IsMax(xs: seq<int>, m: int) {
    m in xs && forall x :: x in xs ==> x <= m
  }

  ghost predicate SetsRecord(xs: seq<int>, i: nat)
    requires i < |xs|
  {
    forall j :: 0 <= j < i ==> xs[j] < xs[i]
  }

  /** The greatest element so far. */
  function Max(xs: seq<int>): (m: int)
    requires xs != []
    ensures IsMax(xs, m)
  {
    var last := xs[|xs| - 1];
    assert xs == xs[..|xs| - 1] + [last];
    if |xs| == 1 then last
    else
      var before := Max(xs[..|xs| - 1]);
      if last > before then last else before
  }

  /** The elements that are no strict left-to-right maxima, each with the maximum it failed
      to exceed. */
  ghost function Failures(xs: seq<int>): seq<(int, int)> {
    if xs == [] then []
    else
      var n := |xs| - 1;
      Failures(xs[..n]) + if SetsRecord(xs, n) then [] else [(Max(xs[..n]), xs[n])]
  }

  /** An element sets a record exactly when it exceeds the maximum before it. */
  lemma MaxSnoc(xs: seq<int>, x: int)
    ensures Max(xs + [x]) == if xs == [] || Max(xs) < x then x else Max(xs)
    ensures Failures(xs + [x]) == Failures(xs) + if xs == [] || Max(xs) < x then [] else [(Max(xs), x)]
  {
    var ys := xs + [x];
    assert ys[..|xs|] == xs;
    if xs != [] {
      var k :| 0 <= k < |xs| && xs[k] == Max(xs);
      assert ys[k] == Max(xs);
      assert forall j :: 0 <= j < |xs| ==> ys[j] in xs;
      assert SetsRecord(ys, |xs|) <==> Max(xs) < x;
    }
  }

  // ----- findings, stream by stream -----

  function TokenFindings(vs: seq<Violation>): seq<(int, int)> {
    if vs == [] then []
    else
      var before, v := TokenFindings(vs[..|vs| - 1]), vs[|vs| - 1];
      if v.TokenRegress? then before + [(v.previous, v.current)] else before
  }

  function TopicFindings(vs: seq<Violation>, topic: string): seq<(int, int)> {
    if vs == [] then []
    else
      var before, v := TopicFindings(vs[..|vs| - 1], topic), vs[|vs| - 1];
      if v.SequenceRegress? && v.topic == topic then before + [(v.previousSeq, v.currentSeq)] else before
  }

  function LeaseFindings(vs: seq<Violation>): seq<Violation> {
    if vs == [] then []
    else
      var before, v := LeaseFindings(vs[..|vs| - 1]), vs[|vs| - 1];
      if v.LeaseMissing? then before + [v] else before
  }

  lemma FindingsSnoc(vs: seq<Violation>, v: Violation, topic: string)
    ensures TokenFindings(vs + [v]) == TokenFindings(vs) + if v.TokenRegress? then [(v.previous, v.current)] else []
    ensures TopicFindings(vs + [v], topic) == TopicFindings(vs, topic)
            + if v.SequenceRegress? && v.topic == topic then [(v.previousSeq, v.currentSeq)] else []
    ensures LeaseFindings(vs + [v]) == LeaseFindings(vs) + if v.LeaseMissing? then [v] else []
  {
    assert (vs + [v])[..|vs|] == vs;
  }

  lemma StepFindings(s: State, c: Call, topic: string)
    ensures TokenFindings(Step(s, c).violations) == TokenFindings(s.violations)
            + if c.CheckToken? && s.lastToken.Some? && c.token <= s.lastToken.value
              then [(s.lastToken.value, c.token)] else []
    ensures TopicFindings(Step(s, c).violations, topic) == TopicFindings(s.violations, topic)
            + if IsTopicCall(c, topic) && topic in s.topics && c.seqNo <= s.topics[topic]
              then [(s.topics[topic], c.seqNo)] else []
    ensures LeaseFindings(Step(s, c).violations) == LeaseFindings(s.violations)
            + if c.CheckLease? && !c.present then [LeaseMissing(c.masId)] else []
  {
    var vs' := Step(s, c).violations;
    if vs' != s.violations {
      FindingsSnoc(s.violations, vs'[|s.violations|], topic);
    }
  }

  /** After any trace: the stored token is the maximum of the tokens fed, and the token
      violations are exactly the tokens that set no new maximum, with the true maximum. */
  lemma {:induction false} TokensExact(trace: seq<Call>)
    ensures var xs := Tokens(trace);
            && Run(trace).lastToken == (if xs == [] then None else Some(Max(xs)))
            && TokenFindings(Run(trace).violations) == Failures(xs)
  {
    if trace != [] {
      var front, c := trace[..|trace| - 1], trace[|trace| - 1];
      TokensExact(front);
      StepFindings(Run(front), c, "");
      if c.CheckToken? { MaxSnoc(Tokens(front), c.token); }
    }
  }

  /** The same for every topic. */
  lemma {:induction false} TopicExact(trace: seq<Call>, topic: string)
    ensures var xs := Seqs(trace, topic);
            && (topic in Run(trace).topics <==> xs != [])
            && (xs != [] ==> Run(trace).topics[topic] == Max(xs))
            && TopicFindings(Run(trace).violations, topic) == Failures(xs)
  {
    if trace != [] {
      var front, c := trace[..|trace| - 1], trace[|trace| - 1];
      TopicExact(front, topic);
      StepFindings(Run(front), c, topic);
      if IsTopicCall(c, topic) { MaxSnoc(Seqs(front, topic), c.seqNo); }
    }
  }

  lemma {:induction false} LeasesExact(trace: seq<Call>)
    ensures LeaseFindings(Run(trace).violations) == MissingLeases(trace)
    ensures MissingLeases(trace) == [] <==> NoLeaseMissing(trace)
  {
    if trace != [] {
      var front := trace[..|trace| - 1];
      LeasesExact(front);
      assert trace == front + [trace[|trace| - 1]];
      StepFindings(Run(front), trace[|trace| - 1], "");
    }
  }

  lemma {:induction false} NoFailuresIffIncreasing(xs: seq<int>)
    ensures Failures(xs) == [] <==> Increasing(xs)
  {
    if xs != [] {
      var n := |xs| - 1;
      NoFailuresIffIncreasing(xs[..n]);
      if Increasing(xs[..n]) && SetsRecord(xs, n) {
        forall i, j | 0 <= i < j < |xs|
          ensures xs[i] < xs[j]
        {
          if j < n { assert xs[..n][i] < xs[..n][j]; }
        }
      }
      if Increasing(xs) {
        assert forall i, j :: 0 <= i < j < n ==> xs[..n][i] == xs[i] && xs[..n][j] == xs[j];
      }
    }
  }

  /** A violation shows up among the findings of its stream. */
  lemma {:induction false} FindingsComplete(vs: seq<Violation>)
    requires TokenFindings(vs) == [] && LeaseFindings(vs) == []
    requires forall topic :: TopicFindings(vs, topic) == []
    ensures vs == []
  {
    if vs != [] {
      var v := vs[|vs| - 1];
      if v.SequenceRegress? { assert TopicFindings(vs, v.topic) != []; }
    }
  }

  /** No violation is recorded exactly when every stream was strictly increasing and the lease
      was present at every check. */
  lemma HealthyIffAllIncreasing(trace: seq<Call>)
    ensures Run(trace).violations == [] <==>
            Increasing(Tokens(trace)) && AllTopicsIncreasing(trace) && NoLeaseMissing(trace)
  {
    TokensExact(trace);
    NoFailuresIffIncreasing(Tokens(trace));
    LeasesExact(trace);
    forall topic
      ensures TopicFindings(Run(trace).violations, topic) == [] <==> Increasing(Seqs(trace, topic))
    {
      TopicExact(trace, topic);
      NoFailuresIffIncreasing(Seqs(trace, topic));
    }
    if Increasing(Tokens(trace)) && AllTopicsIncreasing(trace) && NoLeaseMissing(trace) {
      FindingsComplete(Run(trace).violations);
    }
  }

  // ----- concurrent monitors -----

  predicate IsTokenCall(c: Call) { c.CheckToken? }

  predicate IsTopicCall(c: Call, topic: string) { c.CheckOrder? && c.topic == topic }

  function OnlyTokens(trace: seq<Call>): seq<Call> {
    if trace == [] then []
    else
      var before := OnlyTokens(trace[..|trace| - 1]);
      if IsTokenCall(trace[|trace| - 1]) then before + [trace[|trace| - 1]] else before
  }

  function OnlyTopic(trace: seq<Call>, topic: string): seq<Call> {
    if trace == [] then []
    else
      var before := OnlyTopic(trace[..|trace| - 1], topic);
      if IsTopicCall(trace[|trace| - 1], topic) then before + [trace[|trace| - 1]] else before
  }

  lemma {:induction false} OnlyTokensStream(trace: seq<Call>)
    ensures Tokens(OnlyTokens(trace)) == Tokens(trace)
  {
    if trace != [] {
      OnlyTokensStream(trace[..|trace| - 1]);
      var before := OnlyTokens(trace[..|trace| - 1]);
      assert (before + [trace[|trace| - 1]])[..|before|] == before;
    }
  }

  lemma {:induction false} OnlyTopicStream(trace: seq<Call>, topic: string)
    ensures Seqs(OnlyTopic(trace, topic), topic) == Seqs(trace, topic)
  {
    if trace != [] {
      OnlyTopicStream(trace[..|trace| - 1], topic);
      var before := OnlyTopic(trace[..|trace| - 1], topic);
      assert (before + [trace[|trace| - 1]])[..|before|] == before;
    }
  }

  /** One checker shared by all monitors finds, stream by stream, what a checker of its own
      would find for each stream. */
  lemma SharedCheckerIsSeparable(trace: seq<Call>, topic: string)
    ensures TokenFindings(Run(trace).violations) == TokenFindings(Run(OnlyTokens(trace)).violations)
    ensures Run(trace).lastToken == Run(OnlyTokens(trace)).lastToken
    ensures TopicFindings(Run(trace).violations, topic) == TopicFindings(Run(OnlyTopic(trace, topic)).violations, topic)
    ensures topic in Run(trace).topics <==> topic in Run(OnlyTopic(trace, topic)).topics
    ensures topic in Run(trace).topics ==> Run(trace).topics[topic] == Run(OnlyTopic(trace, topic)).topics[topic]
  {
    TokensExact(trace);
    TokensExact(OnlyTokens(trace));
    OnlyTokensStream(trace);
    TopicExact(trace, topic);
    TopicExact(OnlyTopic(trace, topic), topic);
    OnlyTopicStream(trace, topic);
  }

  /** Two interleavings of the same streams. */
  ghost predicate SameStreams(a: seq<Call>, b: seq<Call>) {
    && Tokens(a) == Tokens(b)
    && MissingLeases(a) == MissingLeases(b)
    && forall topic :: Seqs(a, topic) == Seqs(b, topic)
  }

  /** The order in which the monitors run changes neither a stream's findings, nor what is
      stored, nor the health flag. */
  lemma InterleavingIsIrrelevant(a: seq<Call>, b: seq<Call>)
    requires SameStreams(a, b)
    ensures Run(a).lastToken == Run(b).lastToken && Run(a).topics == Run(b).topics
    ensures TokenFindings(Run(a).violations) == TokenFindings(Run(b).violations)
    ensures LeaseFindings(Run(a).violations) == LeaseFindings(Run(b).violations)
    ensures forall topic :: TopicFindings(Run(a).violations, topic) == TopicFindings(Run(b).violations, topic)
    ensures Run(a).violations == [] <==> Run(b).violations == []
  {
    TokensExact(a);
    TokensExact(b);
    LeasesExact(a);
    LeasesExact(b);
    forall topic
      ensures TopicFindings(Run(a).violations, topic) == TopicFindings(Run(b).violations, topic)
      ensures topic in Run(a).topics <==> topic in Run(b).topics
      ensures topic in Run(a).topics ==> Run(a).topics[topic] == Run(b).topics[topic]
    {
      TopicExact(a, topic);
      TopicExact(b, topic);
    }
    HealthyIffAllIncreasing(a);
    HealthyIffAllIncreasing(b);
  }
}
