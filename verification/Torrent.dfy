/**
 The bidirectional telemetry stream: the writer and the acknowledgement reader of the
 client, the worker, and the two bounded channels between them, step by step.
 */
module Torrent {
  import opened Values

  /** `received` are the acknowledgements the reader counted; `held` is the chunk the worker
      has counted and not yet acknowledged. */
  datatype Stream = Stream(
    total: nat, chunkSize: nat, requestCap: nat, ackCap: nat,
    written: nat, completed: bool, aborted: bool,
    requests: seq<nat>, held: Option<nat>, totalBytes: nat, chunkCount: nat,
    acks: seq<nat>, received: seq<nat>,
    workerDone: bool, failed: bool, readerDone: bool)

  datatype Action =
    | Write      // RequestStream.WriteAsync finds room
    | Complete   // RequestStream.CompleteAsync
    | Abort      // WriteAsync throws because the call is over
    | Read       // the worker takes the next chunk and counts it
    | Ack        // the worker's WriteAsync finds room
    | Finish     // the request stream ends and StreamData returns
    | Fail       // an exception ends the worker's loop; StreamData logs it and returns
    | Receive    // the reader counts an acknowledgement
    | EndRead    // the response stream ends and the reader with it

  function Init(total: nat, chunkSize: nat, requestCap: nat, ackCap: nat): Stream {
    Stream(total, chunkSize, requestCap, ackCap, 0, false, false, [], None, 0, 0, [], [], false, false, false)
  }

  predicate Enabled(s: Stream, a: Action) {
    match a
    case Write => !s.aborted && s.written < s.total && !s.workerDone && |s.requests| < s.requestCap
    case Complete => !s.aborted && !s.completed && s.written == s.total
    case Abort => !s.aborted && s.written < s.total && s.workerDone
    case Read => !s.workerDone && s.held == None && s.requests != []
    case Ack => !s.workerDone && s.held.Some? && |s.acks| < s.ackCap
    case Finish => !s.workerDone && s.held == None && s.requests == [] && s.completed
    case Fail => !s.workerDone
    case Receive => !s.readerDone && s.acks != []
    case EndRead => !s.readerDone && s.acks == [] && s.workerDone
  }

  function Step(s: Stream, a: Action): Stream
    requires Enabled(s, a)
  {
    match a
    case Write => s.(requests := s.requests + [s.written], written := s.written + 1)
    case Complete => s.(completed := true)
    case Abort => s.(aborted := true)
    case Read => s.(held := Some(s.requests[0]), requests := s.requests[1..],
                    totalBytes := s.totalBytes + s.chunkSize, chunkCount := s.chunkCount + 1)
    case Ack => s.(acks := s.acks + [s.held.value], held := None)
    case Finish => s.(workerDone := true)
    case Fail => s.(workerDone := true, failed := true)
    case Receive => s.(received := s.received + [s.acks[0]], acks := s.acks[1..])
    case EndRead => s.(readerDone := true)
  }

  /** `Main` is over: the stream was completed and the reader awaited, or a write threw. */
  predicate Over(s: Stream) {
    (s.completed && s.readerDone) || s.aborted
  }

  function Upto(n: nat): seq<nat> {
    seq(n, i => i)
  }

  function Held(s: Stream): seq<nat> {
    if s.held.Some? then [s.held.value] else []
  }

  /** Every chunk written is in exactly one place, and the places in order read 0, 1, 2, ... */
  predicate Conserved(s: Stream) {
    s.received + s.acks + Held(s) + s.requests == Upto(s.written)
  }

  predicate Invariant(s: Stream) {
    && Conserved(s)
    && s.written <= s.total
    && |s.requests| <= s.requestCap && |s.acks| <= s.ackCap
    && s.chunkCount == |s.received| + |s.acks| + |Held(s)|
    && s.totalBytes == s.chunkCount * s.chunkSize
    && (s.completed ==> s.written == s.total && !s.aborted)
    && (s.aborted ==> s.failed)
    && (s.failed ==> s.workerDone)
    && (s.workerDone && !s.failed ==> s.completed && s.held == None && s.requests == [])
    && (s.readerDone ==> s.workerDone && s.acks == [])
  }

  lemma UptoSnoc(n: nat)
    ensures Upto(n + 1) == Upto(n) + [n]
  {
  }

  lemma WriteFlow(r: seq<nat>, a: seq<nat>, h: seq<nat>, q: seq<nat>, x: nat)
    ensures r + a + h + (q + [x]) == r + a + h + q + [x]
  {
  }

  lemma ReadFlow(r: seq<nat>, a: seq<nat>, q: seq<nat>)
    requires q != []
    ensures r + a + [q[0]] + q[1..] == r + a + [] + q
  {
  }

  lemma AckFlow(r: seq<nat>, a: seq<nat>, x: nat, q: seq<nat>)
    ensures r + (a + [x]) + [] + q == r + a + [x] + q
  {
  }

  lemma ReceiveFlow(r: seq<nat>, a: seq<nat>, h: seq<nat>, q: seq<nat>)
    requires a != []
    ensures (r + [a[0]]) + a[1..] + h + q == r + a + h + q
  {
    assert (r + [a[0]]) + a[1..] == r + a;
  }

  /** A chunk that moves on keeps its place in the order. */
  lemma StepConserves(s: Stream, a: Action)
    requires Conserved(s) && Enabled(s, a)
    ensures Conserved(Step(s, a))
  {
    match a
    case Write =>
      UptoSnoc(s.written);
      WriteFlow(s.received, s.acks, Held(s), s.requests, s.written);
    case Read => ReadFlow(s.received, s.acks, s.requests);
    case Ack => AckFlow(s.received, s.acks, s.held.value, s.requests);
    case Receive => ReceiveFlow(s.received, s.acks, Held(s), s.requests);
    case _ =>
  }

  lemma StepKeeps(s: Stream, a: Action)
    requires Invariant(s) && Enabled(s, a)
    ensures Invariant(Step(s, a))
  {
    StepConserves(s, a);
    if a == Read {
      OneMore(s.chunkCount, s.chunkSize);
    }
  }

  lemma OneMore(n: nat, d: nat)
    ensures (n + 1) * d == n * d + d
  {
  }

  // ----- runs -----

  /** Every action of the run is possible when its turn comes. */
  ghost predicate IsRun(s: Stream, run: seq<Action>)
    decreases |run|
  {
    run == [] || (Enabled(s, run[0]) && IsRun(Step(s, run[0]), run[1..]))
  }

  ghost function After(s: Stream, run: seq<Action>): Stream
    requires IsRun(s, run)
    decreases |run|
  {
    if run == [] then s else After(Step(s, run[0]), run[1..])
  }

  lemma {:induction false} RunKeeps(s: Stream, run: seq<Action>)
    requires Invariant(s) && IsRun(s, run)
    ensures Invariant(After(s, run))
    ensures Params(After(s, run)) == Params(s)
    ensures !s.failed && Fail !in run ==> !After(s, run).failed
    decreases |run|
  {
    if run != [] {
      StepKeeps(s, run[0]);
      RunKeeps(Step(s, run[0]), run[1..]);
    }
  }

  function Params(s: Stream): (nat, nat, nat, nat) {
    (s.total, s.chunkSize, s.requestCap, s.ackCap)
  }

  /** In every reachable state acknowledgements counted, acknowledgements in flight, the chunk
      in the worker's hand and the chunks in flight read 0, 1, 2, ... up to the last one
      written, the channels hold no more than they can, and the worker has counted exactly
      the chunks that have left the request channel. */
  lemma ReachableConserves(total: nat, chunkSize: nat, requestCap: nat, ackCap: nat, run: seq<Action>)
    requires IsRun(Init(total, chunkSize, requestCap, ackCap), run)
    ensures var s := After(Init(total, chunkSize, requestCap, ackCap), run);
            && s.received + s.acks + Held(s) + s.requests == Upto(s.written) && s.written <= total
            && |s.requests| <= requestCap && |s.acks| <= ackCap
            && s.chunkCount == s.written - |s.requests| && s.totalBytes == s.chunkCount * chunkSize
  {
    var s := Init(total, chunkSize, requestCap, ackCap);
    RunKeeps(s, run);
    var end := After(s, run);
    assert |end.received + end.acks + Held(end) + end.requests| == end.written;
  }

  /** A stream that is over and had no failure has every chunk acknowledged once, in order,
      and the worker has counted the bytes of all of them. */
  lemma CompletionIsExact(s: Stream)
    requires Invariant(s) && Over(s) && !s.failed
    ensures s.received == Upto(s.total)
    ensures |s.received| == s.total == s.chunkCount && s.totalBytes == s.total * s.chunkSize
  {
    assert s.received + s.acks + Held(s) + s.requests == s.received;
  }

  /** Even after a failure the acknowledgements counted are those of the first chunks. */
  lemma AcksAreAPrefix(s: Stream)
    requires Invariant(s)
    ensures s.received == Upto(|s.received|) && |s.received| <= s.chunkCount <= s.written <= s.total
  {
    var flow := s.received + s.acks + Held(s) + s.requests;
    assert |flow| == s.written;
    assert forall i :: 0 <= i < |s.received| ==> s.received[i] == flow[i] == i;
  }

  /** A reader that has come to the end of the stream has counted every acknowledgement the
      worker sent: those of all chunks it counted but the one it may still hold. */
  lemma ReadToTheEnd(s: Stream)
    requires Invariant(s) && s.readerDone
    ensures |Held(s)| <= s.chunkCount && s.received == Upto(s.chunkCount - |Held(s)|)
    ensures |s.received| * s.chunkSize <= s.totalBytes <= |s.received| * s.chunkSize + s.chunkSize
  {
    AcksAreAPrefix(s);
    OneMore(|s.received|, s.chunkSize);
  }

  /** Some task that is not failing can always go on until `Main` is over. */
  lemma NeverStuck(s: Stream) returns (a: Action)
    requires Invariant(s) && s.requestCap >= 1 && s.ackCap >= 1 && !Over(s)
    ensures Enabled(s, a) && a != Fail
  {
    if s.acks != [] {
      a := Receive;
    } else if s.workerDone {
      a := if !s.readerDone then EndRead else if s.written < s.total then Abort else Complete;
    } else if s.held.Some? {
      a := Ack;
    } else if s.requests != [] {
      a := Read;
    } else {
      a := if s.completed then Finish else if s.written < s.total then Write else Complete;
    }
  }

  /** Work left: a chunk has four moves ahead of it when unsent, three in the request
      channel, two in the worker's hand and one as an acknowledgement in flight. */
  function Work(s: Stream): nat
    requires s.written <= s.total
  {
    4 * (s.total - s.written) + 3 * |s.requests| + 2 * |Held(s)| + |s.acks|
    + (if s.completed || s.aborted then 0 else 1) + (if s.workerDone then 0 else 1) + (if s.readerDone then 0 else 1)
  }

  lemma WorkDecreases(s: Stream, a: Action)
    requires Invariant(s) && Enabled(s, a)
    ensures Step(s, a).written <= Step(s, a).total && Work(Step(s, a)) < Work(s)
  {
  }

  /** No interleaving is longer than the work there is, failures included. */
  lemma {:induction false} RunsAreBounded(s: Stream, run: seq<Action>)
    requires Invariant(s) && IsRun(s, run)
    ensures |run| <= Work(s)
    decreases |run|
  {
    if run != [] {
      StepKeeps(s, run[0]);
      WorkDecreases(s, run[0]);
      RunsAreBounded(Step(s, run[0]), run[1..]);
    }
  }

  /** Every interleaving that goes as far as it can ends `Main`; without a failure every chunk
      is then acknowledged. This holds for all channel capacities of at least one. */
  lemma EveryRunEnds(total: nat, chunkSize: nat, requestCap: nat, ackCap: nat, run: seq<Action>)
    requires requestCap >= 1 && ackCap >= 1
    requires IsRun(Init(total, chunkSize, requestCap, ackCap), run)
    ensures var end := After(Init(total, chunkSize, requestCap, ackCap), run);
            && |run| <= 4 * total + 3
            && ((forall a :: Enabled(end, a) ==> a == Fail) ==> Over(end))
            && (Over(end) && Fail !in run ==>
                  end.received == Upto(total) && end.totalBytes == total * chunkSize)
  {
    var s := Init(total, chunkSize, requestCap, ackCap);
    RunsAreBounded(s, run);
    RunKeeps(s, run);
    var end := After(s, run);
    if !Over(end) {
      var a := NeverStuck(end);
    } else if !end.failed {
      CompletionIsExact(end);
    }
  }

  // ----- why the reader runs beside the writer -----

  /** A client that would write everything first and read acknowledgements afterwards. */
  ghost predicate IsSequentialRun(s: Stream, run: seq<Action>)
    decreases |run|
  {
    run == []
    || (Enabled(s, run[0]) && run[0] != Fail && (run[0] == Receive ==> s.completed)
        && IsSequentialRun(Step(s, run[0]), run[1..]))
  }

  ghost predicate SequentialStuck(s: Stream) {
    !Over(s) && forall a :: Enabled(s, a) && a != Fail ==> a == Receive && !s.completed
  }

  lemma {:induction false} SequentialIsRun(s: Stream, run: seq<Action>)
    requires IsSequentialRun(s, run)
    ensures IsRun(s, run) && Fail !in run
    decreases |run|
  {
    if run != [] { SequentialIsRun(Step(s, run[0]), run[1..]); }
  }

  lemma {:induction false} SequentialReceivesLate(s: Stream, run: seq<Action>)
    requires IsSequentialRun(s, run) && IsRun(s, run) && (s.received != [] ==> s.completed)
    ensures After(s, run).received != [] ==> After(s, run).completed
    decreases |run|
  {
    if run != [] { SequentialReceivesLate(Step(s, run[0]), run[1..]); }
  }

  /** With room for every chunk the sequential client would get through as well. */
  lemma SequentialFits(total: nat, chunkSize: nat, requestCap: nat, ackCap: nat, run: seq<Action>)
    requires requestCap >= 1 && ackCap >= 1 && total <= requestCap + ackCap + 1
    requires IsSequentialRun(Init(total, chunkSize, requestCap, ackCap), run)
    ensures IsRun(Init(total, chunkSize, requestCap, ackCap), run)
    ensures !SequentialStuck(After(Init(total, chunkSize, requestCap, ackCap), run))
  {
    var s := Init(total, chunkSize, requestCap, ackCap);
    SequentialIsRun(s, run);
    RunKeeps(s, run);
    SequentialReceivesLate(s, run);
    var end := After(s, run);
    if !Over(end) && !end.completed {
      assert |end.received + end.acks + Held(end) + end.requests| == end.written;
      assert !end.failed && end.received == [];
      assert Enabled(end, Write) || Enabled(end, Complete) || Enabled(end, Read) || Enabled(end, Ack);
    } else if !Over(end) {
      var a := NeverStuck(end);
    }
  }

  lemma {:induction false} RunThenRun(s: Stream, a: seq<Action>, b: seq<Action>)
    requires IsSequentialRun(s, a) && IsRun(s, a) && IsSequentialRun(After(s, a), b)
    ensures IsSequentialRun(s, a + b) && IsRun(s, a + b)
    ensures IsRun(After(s, a), b) && After(s, a + b) == After(After(s, a), b)
    decreases |a|
  {
    SequentialIsRun(After(s, a), b);
    if a == [] {
      assert a + b == b;
    } else {
      RunThenRun(Step(s, a[0]), a[1..], b);
      assert (a + b)[1..] == a[1..] + b;
    }
  }

  /** Write `k` more chunks into a request channel with room for them. */
  lemma {:induction false} FillRequests(s: Stream, k: nat) returns (run: seq<Action>)
    requires !s.aborted && !s.workerDone && s.written + k <= s.total && |s.requests| + k <= s.requestCap
    ensures IsSequentialRun(s, run) && IsRun(s, run)
    ensures After(s, run) == s.(requests := After(s, run).requests, written := s.written + k)
    ensures |After(s, run).requests| == |s.requests| + k
    decreases k
  {
    run := [];
    if k > 0 {
      var rest := FillRequests(Step(s, Write), k - 1);
      run := [Write] + rest;
      assert run[1..] == rest;
    }
  }

  /** Push `k` chunks through the worker into an acknowledgement channel with room for them. */
  lemma {:induction false} FillAcks(s: Stream, k: nat) returns (run: seq<Action>)
    requires !s.aborted && !s.workerDone && s.held == None && s.requests == [] && s.requestCap >= 1
    requires s.written + k <= s.total && |s.acks| + k <= s.ackCap
    ensures IsSequentialRun(s, run) && IsRun(s, run)
    ensures var t := After(s, run);
            t == s.(acks := t.acks, written := s.written + k, totalBytes := t.totalBytes, chunkCount := t.chunkCount)
            && |t.acks| == |s.acks| + k
    decreases k
  {
    run := [];
    if k > 0 {
      var s1 := Step(s, Write);
      var s2 := Step(s1, Read);
      var s3 := Step(s2, Ack);
      var rest := FillAcks(s3, k - 1);
      run := [Write] + ([Read] + ([Ack] + rest));
      assert ([Ack] + rest)[1..] == rest;
      assert IsSequentialRun(s2, [Ack] + rest) && IsRun(s2, [Ack] + rest) && After(s2, [Ack] + rest) == After(s3, rest);
      assert ([Read] + ([Ack] + rest))[1..] == [Ack] + rest;
      assert run[1..] == [Read] + ([Ack] + rest);
    }
  }

  /** With one chunk more than the channels and the worker's hand can take, the sequential
      client has an interleaving that gets stuck. */
  lemma SequentialCanGetStuck(total: nat, chunkSize: nat, requestCap: nat, ackCap: nat) returns (run: seq<Action>)
    requires requestCap >= 1 && ackCap >= 1 && total > requestCap + ackCap + 1
    ensures IsSequentialRun(Init(total, chunkSize, requestCap, ackCap), run)
    ensures IsRun(Init(total, chunkSize, requestCap, ackCap), run)
    ensures SequentialStuck(After(Init(total, chunkSize, requestCap, ackCap), run))
  {
    var s := Init(total, chunkSize, requestCap, ackCap);
    run := FillAcks(s, ackCap);
    var s1 := After(s, run);
    var one := [Write, Read];
    assert one[1..] == [Read] && [Read][1..] == [];
    assert IsSequentialRun(Step(s1, Write), [Read]) && IsRun(Step(s1, Write), [Read]);
    RunThenRun(s, run, one);
    run := run + one;
    var s2 := After(s, run);
    assert After(Step(s1, Write), [Read]) == Step(Step(s1, Write), Read);
    var fill := FillRequests(s2, requestCap);
    RunThenRun(s, run, fill);
    run := run + fill;
  }
  ghost predicate GetsStuck(s: Stream, run: seq<Action>) {
    IsSequentialRun(s, run) && IsRun(s, run) && SequentialStuck(After(s, run))
  }

  /** Reading the acknowledgements beside the writing is needed exactly when the chunks do not
      all fit into the two channels and the worker's hand. */
  lemma ConcurrentReaderIsNeeded(total: nat, chunkSize: nat, requestCap: nat, ackCap: nat)
    requires requestCap >= 1 && ackCap >= 1
    ensures (exists run :: GetsStuck(Init(total, chunkSize, requestCap, ackCap), run)) <==>
            total > requestCap + ackCap + 1
  {
    var s := Init(total, chunkSize, requestCap, ackCap);
    if total > requestCap + ackCap + 1 {
      var run := SequentialCanGetStuck(total, chunkSize, requestCap, ackCap);
      assert GetsStuck(s, run);
    } else if run :| GetsStuck(s, run) {
      SequentialFits(total, chunkSize, requestCap, ackCap, run);
    }
  }
}
