/**
 An append-only topic and the cursor by which its consumers read it.

 The grid that stores the topics is not part of the repository. What the applications
 rely on is written here: every commit gets a number above all earlier ones, the first
 number is at least 1, and `consume(after, count)` gives the first `count` records above
 `after`, in order.
 */
module TopicLog {
  import opened Values

  datatype Record = Record(seqNo: nat, payload: Payload,
                           signature: Option<string>, certificate: Option<string>)

  type Log = seq<Record>

  /** What the grid decides when it commits a record: a number it would like to use, the
      text of the serialized payload, and what the fabric attached. */
  datatype Stamp = Stamp(hint: nat, text: string,
                         signature: Option<string>, certificate: Option<string>)

  ghost predicate Ordered(log: Log) {
    && (forall i :: 0 <= i < |log| ==> 1 <= log[i].seqNo)
    && (forall i, j :: 0 <= i < j < |log| ==> log[i].seqNo < log[j].seqNo)
  }

  function LastSeq(log: Log): nat {
    if log == [] then 0 else log[|log| - 1].seqNo
  }

  /** Any number above `last` can be minted, and no other. */
  function Mint(last: nat, hint: nat): (n: nat)
    ensures n > last
    ensures hint > last ==> n == hint
  {
    if hint > last then hint else last + 1
  }

  function MakeRecord(log: Log, parsed: Parsed, stamp: Stamp): Record {
    Record(Mint(LastSeq(log), stamp.hint), Payload(stamp.text, parsed), stamp.signature, stamp.certificate)
  }

  function Append(log: Log, parsed: Parsed, stamp: Stamp): Log {
    log + [MakeRecord(log, parsed, stamp)]
  }

  lemma AppendKeepsOrder(log: Log, parsed: Parsed, stamp: Stamp)
    requires Ordered(log)
    ensures Ordered(Append(log, parsed, stamp))
  {
  }

  function Consume(log: Log, after: nat, count: nat): Log {
    if log == [] || count == 0 then []
    else if log[0].seqNo > after then [log[0]] + Consume(log[1..], after, count - 1)
    else Consume(log[1..], after, count)
  }

  /** Cursor `c` stands behind exactly the first `k` records. */
  ghost predicate CursorAt(log: Log, k: nat, c: nat) {
    && k <= |log|
    && (forall j :: 0 <= j < k ==> log[j].seqNo <= c)
    && (forall j :: k <= j < |log| ==> log[j].seqNo > c)
  }

  /** A read at a cursor gives the next `count` records, no gap and no repeat. */
  lemma {:induction false} ConsumeAt(log: Log, k: nat, c: nat, count: nat)
    requires CursorAt(log, k, c)
    ensures Consume(log, c, count) == Take(log[k..], count)
  {
    if log == [] || count == 0 {
    } else if k > 0 {
      ConsumeAt(log[1..], k - 1, c, count);
      assert log[1..][k - 1..] == log[k..];
    } else {
      ConsumeAt(log[1..], 0, c, count - 1);
      assert log[1..][0..] == log[1..];
      assert Take(log[0..], count) == [log[0]] + Take(log[1..], count - 1);
    }
  }

  /** Where a cursor stands that has passed the first `k` records one by one. */
  function CursorBehind(log: Log, k: nat): nat
    requires k <= |log|
  {
    if k == 0 then 0 else log[k - 1].seqNo
  }

  lemma BehindIsAt(log: Log, k: nat)
    requires Ordered(log) && k <= |log|
    ensures CursorAt(log, k, CursorBehind(log, k))
  {
  }

  /** Moving the cursor to the number of record `k - 1` puts it behind exactly `k` records. */
  lemma CursorAfter(log: Log, k: nat)
    requires Ordered(log) && 0 < k <= |log|
    ensures CursorAt(log, k, log[k - 1].seqNo)
  {
  }

  /** Commits leave a cursor where it is. */
  lemma CursorSurvivesAppend(log: Log, k: nat, c: nat, parsed: Parsed, stamp: Stamp)
    requires Ordered(log) && CursorAt(log, k, c)
    requires c <= LastSeq(log)
    ensures CursorAt(Append(log, parsed, stamp), k, c)
    ensures c <= LastSeq(Append(log, parsed, stamp))
  {
  }

  /** From cursor 0 a read is a window at the front of the topic. */
  lemma ConsumeFromStart(log: Log, count: nat)
    requires Ordered(log)
    ensures Consume(log, 0, count) == Take(log, count)
  {
    ConsumeAt(log, 0, 0, count);
    assert log[0..] == log;
  }
}
