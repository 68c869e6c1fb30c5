/** The listener of the signed chat, the second consumer that reads by cursor. */
module Chat {
  import opened Values
  import opened TopicLog

  const BATCH := 5

  /** What became of one record: printed, skipped because its payload is not a JSON object,
      or in hand when printing failed. */
  datatype Fate = Shown(line: Line) | Skipped | Lost(line: Line)

  datatype Line = Line(verified: bool, user: Json, msg: Json)

  function GetOr(fields: map<string, Json>, key: string, default: Json): Json {
    if key in fields then fields[key] else default
  }

  /** The badge asks for a signature that is not empty, unlike the auditor. */
  predicate Badge(r: Record) {
    r.signature.Some? && r.signature.value != ""
  }

  /** None when decoding, parsing or `.get` fails. */
  function LineOf(r: Record): Option<Line> {
    match r.payload.parsed
    case Value(Obj(fields)) =>
      Some(Line(Badge(r), GetOr(fields, "user", Str("???")), GetOr(fields, "msg", Str(""))))
    case _ => None
  }

  /** What a reader of the record expects of its line: verified if the record carries a
      signature that is not empty, with the fields `user` and `msg` or what stands for them. */
  ghost predicate Reads(line: Line, r: Record, fields: map<string, Json>) {
    && (line.verified <==> r.signature.Some? && |r.signature.value| > 0)
    && (if "user" in fields then line.user == fields["user"] else line.user == Str("???"))
    && (if "msg" in fields then line.msg == fields["msg"] else line.msg == Str(""))
  }

  /** The line on the screen is that of a record up to the cursor. */
  ghost predicate ComesFrom(log: Log, lastSeq: nat, line: Line, k: nat) {
    k < |log| && log[k].seqNo <= lastSeq
    && exists fields :: log[k].payload.parsed == Value(Obj(fields)) && Reads(line, log[k], fields)
  }

  /** Every line is that of a record up to the cursor, in log order. */
  ghost predicate ScreenReads(log: Log, lastSeq: nat, screen: seq<Line>) {
    exists at: seq<nat> :: ScreenAt(log, lastSeq, screen, at)
  }

  ghost predicate ScreenAt(log: Log, lastSeq: nat, screen: seq<Line>, at: seq<nat>) {
    && |at| == |screen|
    && (forall i, j :: 0 <= i < j < |at| ==> at[i] < at[j])
    && forall i :: 0 <= i < |at| ==> ComesFrom(log, lastSeq, screen[i], at[i])
  }

  ghost predicate FateFits(r: Record, f: Fate) {
    match f
    case Skipped => LineOf(r) == None
    case Shown(line) => LineOf(r) == Some(line)
    case Lost(line) => LineOf(r) == Some(line)
  }

  /** The fate of a record that is taken in hand while the terminal refuses `printFails`. */
  function FateOf(r: Record, printFails: set<nat>): Fate {
    match LineOf(r)
    case None => Skipped
    case Some(line) => if r.seqNo in printFails then Lost(line) else Shown(line)
  }

  /** A record that is no JSON object is skipped; of the others, those the terminal refuses
      are lost and the rest are shown, as they read. */
  lemma FateExact(r: Record, printFails: set<nat>)
    ensures match r.payload.parsed
            case Value(Obj(fields)) =>
              (match FateOf(r, printFails)
               case Skipped => false
               case Lost(line) => r.seqNo in printFails && Reads(line, r, fields)
               case Shown(line) => r.seqNo !in printFails && Reads(line, r, fields))
            case _ => FateOf(r, printFails) == Skipped
  {
  }

  /** Every record up to the cursor has met exactly one fate, in log order; no other has. */
  ghost predicate Accounted(log: Log, lastSeq: nat, fates: seq<Fate>) {
    && Ordered(log)
    && |fates| <= |log|
    && lastSeq == CursorBehind(log, |fates|)
    && forall k :: 0 <= k < |fates| ==> FateFits(log[k], fates[k])
  }

  function ShownLines(fates: seq<Fate>): seq<Line> {
    if fates == [] then []
    else
      var before := ShownLines(fates[..|fates| - 1]);
      match fates[|fates| - 1]
      case Shown(line) => before + [line]
      case _ => before
  }

  /** What happens between two reads: others commit messages, then the read fails or
      succeeds, then the terminal takes some of the lines. */
  datatype Round = Round(commits: seq<(Parsed, Stamp)>, readFails: bool, printFails: set<nat>)

  function GoodReads(rounds: seq<Round>): nat {
    if rounds == [] then 0
    else GoodReads(rounds[..|rounds| - 1]) + if rounds[|rounds| - 1].readFails then 0 else 1
  }

  function Grow(log: Log, commits: seq<(Parsed, Stamp)>): Log
    decreases |commits|
  {
    if commits == [] then log
    else Grow(Append(log, commits[0].0, commits[0].1), commits[1..])
  }

  lemma {:induction false} GrowKeepsAccount(log: Log, commits: seq<(Parsed, Stamp)>, lastSeq: nat, fates: seq<Fate>)
    requires Accounted(log, lastSeq, fates)
    ensures Accounted(Grow(log, commits), lastSeq, fates)
    ensures log <= Grow(log, commits)
    decreases |commits|
  {
    if commits != [] {
      AppendKeepsOrder(log, commits[0].0, commits[0].1);
      GrowKeepsAccount(Append(log, commits[0].0, commits[0].1), commits[1..], lastSeq, fates);
    }
  }

  function LostCount(fates: seq<Fate>): nat {
    if fates == [] then 0
    else LostCount(fates[..|fates| - 1]) + (if fates[|fates| - 1].Lost? then 1 else 0)
  }

  /** Taking the next record in hand moves the cursor past it, whatever becomes of it. */
  lemma FateExtends(log: Log, lastSeq: nat, fates: seq<Fate>, f: Fate)
    requires Accounted(log, lastSeq, fates) && |fates| < |log|
    requires FateFits(log[|fates|], f)
    ensures Accounted(log, log[|fates|].seqNo, fates + [f])
    ensures ShownLines(fates + [f]) == ShownLines(fates) + (if f.Shown? then [f.line] else [])
    ensures LostCount(fates + [f]) == LostCount(fates) + (if f.Lost? then 1 else 0)
  {
    assert (fates + [f])[..|fates|] == fates;
  }

  /** `events` are the records of the log from position `k` on. */
  predicate NextIn(log: Log, k: nat, events: Log) {
    k + |events| <= |log| && forall m :: 0 <= m < |events| ==> log[k + m] == events[m]
  }

  lemma NextOne(log: Log, k: nat, events: Log, m: nat)
    requires NextIn(log, k, events) && m < |events|
    ensures k + m < |log| && log[k + m] == events[m]
  {
  }

  function FatesOf(records: Log, printFails: set<nat>): seq<Fate> {
    seq(|records|, m requires 0 <= m < |records| => FateOf(records[m], printFails))
  }

  lemma FatesNext(events: Log, j: nat, before: seq<Fate>, fates: seq<Fate>, printFails: set<nat>)
    requires j < |events| && fates == before + FatesOf(events[..j], printFails)
    ensures fates + [FateOf(events[j], printFails)] == before + FatesOf(events[..j + 1], printFails)
  {
    assert FatesOf(events[..j + 1], printFails) ==
           FatesOf(events[..j], printFails) + [FateOf(events[j], printFails)];
  }

  class Listener {
    var lastSeq: nat
    var screen: seq<Line>
    ghost var fates: seq<Fate>

    ghost predicate Valid(log: Log)
      reads this
    {
      Accounted(log, lastSeq, fates) && screen == ShownLines(fates)
    }

    constructor ()
      ensures lastSeq == 0 && screen == [] && fates == []
    {
      lastSeq, screen, fates := 0, [], [];
    }

    /** The body of the `for` loop. */
    method ShowOne(log: Log, event: Record, printFails: set<nat>) returns (failed: bool)
      requires Valid(log) && |fates| < |log| && event == log[|fates|]
      modifies this
      ensures Valid(log)
      ensures fates == old(fates) + [FateOf(event, printFails)]
      ensures failed == FateOf(event, printFails).Lost?
      ensures LostCount(fates) == LostCount(old(fates)) + if failed then 1 else 0
    {
      FateExtends(log, lastSeq, fates, FateOf(event, printFails));
      fates := fates + [FateOf(event, printFails)];
      failed := false;
      lastSeq := event.seqNo;
      match LineOf(event)
      case None =>
      case Some(line) =>
        if event.seqNo in printFails {
          failed := true;
        } else {
          screen := screen + [line];
        }
    }

    /** The `for` loop over the records that are next; it is left early when printing fails. */
    method ShowEvents(log: Log, events: Log, printFails: set<nat>) returns (failed: bool, handled: nat)
      requires Valid(log) && NextIn(log, |fates|, events)
      modifies this
      ensures Valid(log) && handled <= |events|
      ensures fates == old(fates) + FatesOf(events[..handled], printFails)
      ensures LostCount(fates) == LostCount(old(fates)) + if failed then 1 else 0
      ensures if failed then handled > 0 else handled == |events|
    {
      ghost var before := fates;
      failed, handled := false, 0;
      while handled < |events| && !failed
        invariant handled <= |events| && Valid(log)
        invariant |fates| == |before| + handled
        invariant fates == before + FatesOf(events[..handled], printFails)
        invariant LostCount(fates) == LostCount(before) + if failed then 1 else 0
        invariant failed ==> handled > 0
        decreases |events| - handled
      {
        NextOne(log, |before|, events, handled);
        FatesNext(events, handled, before, fates, printFails);
        failed := ShowOne(log, events[handled], printFails);
        handled := handled + 1;
      }
    }

    /** One pass over a batch. */
    method ShowBatch(log: Log, events: Log, printFails: set<nat>) returns (failed: bool, handled: nat)
      requires Valid(log) && events == Consume(log, lastSeq, BATCH)
      modifies this
      ensures Valid(log) && handled <= |events|
      ensures fates == old(fates) + FatesOf(events[..handled], printFails)
      ensures LostCount(fates) == LostCount(old(fates)) + if failed then 1 else 0
      ensures if failed then handled > 0 else handled == |events|
      ensures |events| == Min(5, |log| - |old(fates)|)
    {
      BehindIsAt(log, |fates|);
      ConsumeAt(log, |fates|, lastSeq, BATCH);
      failed, handled := ShowEvents(log, events, printFails);
    }

    /** Others commit, then the listener reads, if the read goes through. */
    method PlayRound(start: Log, round: Round) returns (log: Log)
      requires Valid(start)
      modifies this
      ensures start <= log && Valid(log) && |old(fates)| <= |fates| && old(fates) == fates[..|old(fates)|]
      ensures LostCount(fates) <= LostCount(old(fates)) + 1
      ensures round.readFails ==> fates == old(fates)
      ensures !round.readFails && LostCount(fates) == LostCount(old(fates)) ==>
                |fates| == Min(|log|, |old(fates)| + 5)
      ensures !round.readFails && |old(fates)| < |start| ==> |fates| > |old(fates)|
    {
      GrowKeepsAccount(start, round.commits, lastSeq, fates);
      log := Grow(start, round.commits);
      if !round.readFails {
        var events := Consume(log, lastSeq, BATCH);
        var failed, handled := ShowBatch(log, events, round.printFails);
      }
    }

    /** The listener's loop over any rounds: reads fail, payloads are bad, printing fails and
        others keep committing, and still every record up to the cursor is accounted for. At
        most one record is lost per round, and every read that succeeds makes progress. */
    method Listen(start: Log, rounds: seq<Round>) returns (log: Log)
      requires Valid(start)
      modifies this
      ensures start <= log && Valid(log) && old(fates) <= fates
      ensures LostCount(fates) <= LostCount(old(fates)) + |rounds|
      ensures |fates| >= Min(|start|, |old(fates)| + GoodReads(rounds))
      ensures ScreenReads(log, lastSeq, screen)
    {
      log := start;
      for r := 0 to |rounds|
        invariant start <= log && Valid(log) && old(fates) <= fates
        invariant LostCount(fates) <= LostCount(old(fates)) + r
        invariant |fates| >= Min(|start|, |old(fates)| + GoodReads(rounds[..r]))
      {
        assert rounds[..r + 1][..r] == rounds[..r];
        log := PlayRound(log, rounds[r]);
      }
      assert rounds[..|rounds|] == rounds;
      ScreenIsRead(log, lastSeq, fates);
    }
  }

  /** Where the lines on the screen come from. */
  function Origins(fates: seq<Fate>): seq<nat> {
    if fates == [] then []
    else
      var n := |fates| - 1;
      Origins(fates[..n]) + if fates[n].Shown? then [n] else []
  }

  /** The i-th line on the screen comes from the i-th shown record: the screen is a
      subsequence of the log, so no message is shown twice or out of order, and no shown
      record is missing from it. */
  lemma {:induction false} ScreenFollowsFates(fates: seq<Fate>)
    ensures |Origins(fates)| == |ShownLines(fates)|
    ensures forall i, j :: 0 <= i < j < |Origins(fates)| ==> Origins(fates)[i] < Origins(fates)[j]
    ensures forall i :: 0 <= i < |Origins(fates)| ==> Origins(fates)[i] < |fates|
    ensures forall i :: 0 <= i < |Origins(fates)| ==> fates[Origins(fates)[i]] == Shown(ShownLines(fates)[i])
    ensures forall k :: 0 <= k < |fates| && fates[k].Shown? ==> k in Origins(fates)
  {
    if fates != [] {
      var front := fates[..|fates| - 1];
      ScreenFollowsFates(front);
      assert forall i :: 0 <= i < |Origins(front)| ==> fates[Origins(front)[i]] == front[Origins(front)[i]];
    }
  }

  /** And what it shows is what that record says, with the cursor already past it. */
  lemma ScreenFollowsLog(log: Log, lastSeq: nat, fates: seq<Fate>, i: nat)
    requires Accounted(log, lastSeq, fates) && i < |ShownLines(fates)|
    ensures |Origins(fates)| == |ShownLines(fates)| && Origins(fates)[i] < |fates|
    ensures LineOf(log[Origins(fates)[i]]) == Some(ShownLines(fates)[i])
    ensures log[Origins(fates)[i]].seqNo <= lastSeq
    ensures i + 1 < |Origins(fates)| ==> Origins(fates)[i] < Origins(fates)[i + 1]
  {
    ScreenFollowsFates(fates);
    BehindIsAt(log, |fates|);
    assert FateFits(log[Origins(fates)[i]], fates[Origins(fates)[i]]);
  }
  lemma ScreenIsRead(log: Log, lastSeq: nat, fates: seq<Fate>)
    requires Accounted(log, lastSeq, fates)
    ensures ScreenReads(log, lastSeq, ShownLines(fates))
  {
    ScreenFollowsFates(fates);
    forall i | 0 <= i < |Origins(fates)|
      ensures ComesFrom(log, lastSeq, ShownLines(fates)[i], Origins(fates)[i])
    {
      ScreenFollowsLog(log, lastSeq, fates, i);
      FateExact(log[Origins(fates)[i]], {});
    }
    assert ScreenAt(log, lastSeq, ShownLines(fates), Origins(fates));
  }
}
