/** The client and the worker of the telemetry torrent as they assign their variables. */
module TorrentProgram {
  import opened Values
  import opened Torrent

  // ----- how many chunks -----

  /** C# `(int)` of a `long`, unchecked. */
  function ToInt32(n: int): int {
    var low := n % 0x1_0000_0000;
    if low >= 0x8000_0000 then low - 0x1_0000_0000 else low
  }

  /** C# division of non-negative longs. */
  function TotalChunks(targetBytes: nat, chunkSize: nat): int
    requires chunkSize > 0
  {
    ToInt32(targetBytes / chunkSize)
  }

  /** Chunks the `for` loop really writes. */
  function ChunksSent(totalChunks: int): nat {
    if totalChunks < 0 then 0 else totalChunks
  }

  lemma DivMod(n: nat, d: nat)
    requires d > 0
    ensures n / d * d <= n < n / d * d + d
  {
    assert n == n / d * d + n % d;
  }

  /** The stream carries the target to within one chunk exactly while the chunk count fits
      into an `int`. */
  lemma WithinOneChunk(targetBytes: nat, chunkSize: nat)
    requires chunkSize > 0
    ensures var sent := ChunksSent(TotalChunks(targetBytes, chunkSize)) * chunkSize;
            sent <= targetBytes < sent + chunkSize <==> targetBytes / chunkSize < 0x8000_0000
  {
    var q := targetBytes / chunkSize;
    var c := ChunksSent(TotalChunks(targetBytes, chunkSize));
    DivMod(targetBytes, chunkSize);
    if q < 0x8000_0000 {
      assert c == q;
    } else {
      assert c + 1 <= q;
      ProductsOrdered(c + 1, q, q, chunkSize);
      OneMore(c, chunkSize);
    }
  }

  /** 50 MB in chunks of 100 KB: 512 chunks and nothing left over. */
  lemma FiftyMegabytes()
    ensures TotalChunks(50 * 1024 * 1024, 100 * 1024) == 512
    ensures 512 * (100 * 1024) == 50 * 1024 * 1024
  {
  }

  // ----- the running session -----

  /** The variables of the three tasks and the two channels between them. */
  class Session {
    const totalChunks: nat
    const chunkSize: nat
    const requestCap: nat
    const ackCap: nat
    // client
    var i: nat
    var completed: bool
    var aborted: bool
    var totalAcks: nat
    var readerDone: bool
    // worker
    var totalBytes: nat
    var chunkCount: nat
    var held: Option<nat>
    var workerDone: bool
    var failed: bool
    // channels
    var requests: seq<nat>
    var acks: seq<nat>
    ghost var received: seq<nat>

    ghost function View(): Stream
      reads this
    {
      Stream(totalChunks, chunkSize, requestCap, ackCap, i, completed, aborted, requests, held,
             totalBytes, chunkCount, acks, received, workerDone, failed, readerDone)
    }

    ghost predicate Valid()
      reads this
    {
      Invariant(View()) && totalAcks == |received|
    }

    constructor (totalChunks: nat, chunkSize: nat, requestCap: nat, ackCap: nat)
      ensures Valid() && View() == Init(totalChunks, chunkSize, requestCap, ackCap)
    {
      this.totalChunks, this.chunkSize, this.requestCap, this.ackCap := totalChunks, chunkSize, requestCap, ackCap;
      i, completed, aborted, totalAcks, readerDone := 0, false, false, 0, false;
      totalBytes, chunkCount, held, workerDone, failed := 0, 0, None, false, false;
      requests, acks, received := [], [], [];
    }

    /** What the client's writing task does when it is scheduled. */
    method WriterStep() returns (a: Option<Action>)
      requires Valid()
      modifies this
      ensures Valid()
      ensures a.None? <==> WriterBlocked(old(View()))
      ensures Moved(old(View()), View(), a) && a != Some(Fail)
    {
      a := None;
      if aborted || completed {
        assert Valid();
      } else if i < totalChunks {
        if workerDone {
          a := Some(Abort);
          StepKeeps(View(), Abort);
          aborted := true;
        } else if |requests| < requestCap {
          a := Some(Write);
          StepKeeps(View(), Write);
          requests := requests + [i];
          i := i + 1;
        }
      } else {
        a := Some(Complete);
        StepKeeps(View(), Complete);
        completed := true;
      }
    }

    /** The worker takes the next chunk and counts it. */
    method TakeChunk()
      requires Valid() && Enabled(View(), Read)
      modifies this
      ensures Valid() && View() == Step(old(View()), Read)
    {
      StepKeeps(View(), Read);
      held := Some(requests[0]);
      requests := requests[1..];
      totalBytes := totalBytes + chunkSize;
      chunkCount := chunkCount + 1;
    }

    /** The worker acknowledges the chunk it holds. */
    method SendAck()
      requires Valid() && Enabled(View(), Ack)
      modifies this
      ensures Valid() && View() == Step(old(View()), Ack)
    {
      StepKeeps(View(), Ack);
      acks := acks + [held.value];
      held := None;
    }

    /** `StreamData` returns, after an exception or at the end of the requests. */
    method EndStream(faulty: bool)
      requires Valid() && Enabled(View(), if faulty then Fail else Finish)
      modifies this
      ensures Valid() && View() == Step(old(View()), if faulty then Fail else Finish)
    {
      StepKeeps(View(), if faulty then Fail else Finish);
      workerDone := true;
      if faulty { failed := true; }
    }

    /** What the worker's loop does when it is scheduled; `faulty` makes a read or write throw. */
    method WorkerStep(faulty: bool) returns (a: Option<Action>)
      requires Valid()
      modifies this
      ensures Valid()
      ensures a.None? ==> WorkerBlocked(old(View()))
      ensures faulty && Enabled(old(View()), Fail) ==> a == Some(Fail)
      ensures Moved(old(View()), View(), a) && (a == Some(Fail) ==> faulty)
    {
      a := None;
      if workerDone {
      } else if faulty {
        a := Some(Fail);
        EndStream(true);
      } else if held.Some? {
        if |acks| < ackCap {
          a := Some(Ack);
          SendAck();
        }
      } else if requests != [] {
        a := Some(Read);
        TakeChunk();
      } else if completed {
        a := Some(Finish);
        EndStream(false);
      }
    }

    /** What the acknowledgement reader does when it is scheduled. */
    method ReaderStep() returns (a: Option<Action>)
      requires Valid()
      modifies this
      ensures Valid()
      ensures a.None? <==> ReaderBlocked(old(View()))
      ensures Moved(old(View()), View(), a) && a != Some(Fail)
    {
      a := None;
      if readerDone {
      } else if acks != [] {
        a := Some(Receive);
        StepKeeps(View(), Receive);
        received := received + [acks[0]];
        acks := acks[1..];
        totalAcks := totalAcks + 1;
      } else if workerDone {
        a := Some(EndRead);
        StepKeeps(View(), EndRead);
        readerDone := true;
      }
    }
  }

  /** Which task the scheduler would like to run next; a faulty worker throws. */
  datatype Choice = Writer | Worker(faulty: bool) | Reader

  function ChoiceAt(schedule: seq<Choice>, k: nat): Choice {
    if k < |schedule| then schedule[k] else Worker(false)
  }

  /** None of the writer's, worker's, reader's next moves is possible. */
  predicate WriterBlocked(s: Stream) {
    !Enabled(s, Write) && !Enabled(s, Complete) && !Enabled(s, Abort)
  }

  predicate WorkerBlocked(s: Stream) {
    !Enabled(s, Read) && !Enabled(s, Ack) && !Enabled(s, Finish)
  }

  predicate ReaderBlocked(s: Stream) {
    !Enabled(s, Receive) && !Enabled(s, EndRead)
  }

  lemma SomeTaskCanMove(s: Stream)
    requires Invariant(s) && s.requestCap >= 1 && s.ackCap >= 1 && !Over(s)
    ensures !WriterBlocked(s) || !WorkerBlocked(s) || !ReaderBlocked(s)
  {
    var a := NeverStuck(s);
  }

  ghost predicate Moved(before: Stream, after: Stream, a: Option<Action>) {
    match a
    case None => after == before
    case Some(action) => Enabled(before, action) && after == Step(before, action)
  }

  /** One choice of the scheduler: a blocked task yields to the next one. */
  method Schedule(session: Session, first: Choice) returns (a: Option<Action>)
    requires session.Valid() && session.requestCap >= 1 && session.ackCap >= 1 && !Over(session.View())
    modifies session
    ensures session.Valid() && a.Some?
    ensures Moved(old(session.View()), session.View(), a)
    ensures a == Some(Fail) ==> first == Worker(true)
  {
    ghost var before := session.View();
    SomeTaskCanMove(before);
    if first == Worker(true) { a := session.WorkerStep(true); } else { a := None; }
    if a == None && first == Writer { a := session.WriterStep(); }
    if a == None && first == Worker(false) { a := session.WorkerStep(false); }
    if a == None { a := session.ReaderStep(); }
    if a == None { a := session.WorkerStep(false); }
    if a == None { a := session.WriterStep(); }
  }

  /** The scheduler runs the three tasks until `Main` is over, which always happens. */
  method Drive(session: Session, schedule: seq<Choice>)
    requires session.Valid() && session.requestCap >= 1 && session.ackCap >= 1
    modifies session
    ensures session.Valid() && Over(session.View())
    ensures session.failed ==> old(session.failed) || Worker(true) in schedule
  {
    var k := 0;
    while !((session.completed && session.readerDone) || session.aborted)
      invariant session.Valid()
      invariant session.failed ==> old(session.failed) || Worker(true) in schedule
      decreases Work(session.View())
    {
      WorkDecreasesAll(session.View());
      var a := Schedule(session, ChoiceAt(schedule, k));
      k := k + 1;
    }
  }

  /** The whole program under any schedule. It always comes to an end, by an exception only if
      the worker failed. Otherwise the client has counted every acknowledgement that was sent,
      all but that of a chunk the worker may have held when it failed; without a fault that is
      one per chunk, and the worker has counted all of the bytes. */
  method RunTorrent(targetBytes: nat, chunkSize: nat, requestCap: nat, ackCap: nat, schedule: seq<Choice>)
    returns (totalAcks: nat, totalBytes: nat, failed: bool, aborted: bool)
    requires chunkSize > 0 && requestCap >= 1 && ackCap >= 1
    ensures failed ==> Worker(true) in schedule
    ensures aborted ==> failed
    ensures !failed ==> totalAcks == ChunksSent(TotalChunks(targetBytes, chunkSize))
    ensures !failed ==> totalBytes == totalAcks * chunkSize
    ensures !aborted ==> totalBytes == totalAcks * chunkSize || totalBytes == (totalAcks + 1) * chunkSize
    ensures totalAcks * chunkSize <= totalBytes <= ChunksSent(TotalChunks(targetBytes, chunkSize)) * chunkSize
  {
    var totalChunks := TotalChunks(targetBytes, chunkSize);
    var session := new Session(ChunksSent(totalChunks), chunkSize, requestCap, ackCap);
    Drive(session, schedule);
    totalAcks, totalBytes, failed := session.totalAcks, session.totalBytes, session.failed;
    aborted := session.aborted;
    AcksAreAPrefix(session.View());
    if !failed { CompletionIsExact(session.View()); }
    if !aborted { ReadToTheEnd(session.View()); }
    ProductsOrdered(totalAcks, session.chunkCount, session.totalChunks, chunkSize);
  }

  lemma ProductsOrdered(a: nat, b: nat, c: nat, d: nat)
    requires a <= b <= c
    ensures a * d <= b * d <= c * d
  {
    assert (b - a) * d >= 0 && (c - b) * d >= 0;
  }

  lemma WorkDecreasesAll(s: Stream)
    requires Invariant(s)
    ensures forall a :: Enabled(s, a) ==> Step(s, a).written <= Step(s, a).total && Work(Step(s, a)) < Work(s)
  {
    forall a | Enabled(s, a)
      ensures Step(s, a).written <= Step(s, a).total && Work(Step(s, a)) < Work(s)
    {
      WorkDecreases(s, a);
    }
  }
}
