/** The sovereign beacon: its lifecycle on the event bus under failures and cancellation. */
module Beacon {

  datatype Published = Startup | Heartbeat(count: nat) | Shutdown(heartbeats: nat)

  /** How one publish goes. An error is logged and swallowed, a cancellation is not; in both
      cases the event may have landed. */
  datatype Outcome = Sent | Error(landed: bool) | Cancelled(landed: bool)

  predicate Lands(o: Outcome) {
    o == Sent || o == Error(true) || o == Cancelled(true)
  }

  /** The counts of the heartbeat events on the bus, in order. */
  function Beats(log: seq<Published>): seq<nat> {
    if log == [] then []
    else
      var front := Beats(log[..|log| - 1]);
      if log[|log| - 1].Heartbeat? then front + [log[|log| - 1].count] else front
  }

  lemma {:induction false} BeatsConcat(a: seq<Published>, b: seq<Published>)
    ensures Beats(a + b) == Beats(a) + Beats(b)
  {
    if b == [] {
      assert a + b == a;
    } else {
      assert (a + b)[..|a + b| - 1] == a + b[..|b| - 1];
      BeatsConcat(a, b[..|b| - 1]);
    }
  }

  /** The heartbeats that were tried: all of them, up to the first cancelled one. */
  function Tried(outcomes: seq<Outcome>): nat {
    if outcomes == [] then 0 else if outcomes[0].Cancelled? then 1 else 1 + Tried(outcomes[1..])
  }

  lemma TriedNext(outcomes: seq<Outcome>, k: nat)
    requires k < |outcomes|
    ensures Tried(outcomes[k..]) == if outcomes[k].Cancelled? then 1 else 1 + Tried(outcomes[k + 1..])
  {
    assert outcomes[k..][0] == outcomes[k] && outcomes[k..][1..] == outcomes[k + 1..];
  }

  lemma BeatsNext(log: seq<Published>, count: nat, lands: bool)
    ensures Beats(if lands then log + [Heartbeat(count)] else log + []) == Beats(log) + if lands then [count] else []
  {
    if lands {
      assert (log + [Heartbeat(count)])[..|log|] == log;
    } else {
      assert log + [] == log;
    }
  }

  lemma {:induction false} TriedBounded(outcomes: seq<Outcome>)
    ensures Tried(outcomes) <= |outcomes|
  {
    if outcomes != [] { TriedBounded(outcomes[1..]); }
  }

  /** The counts of the first `n` heartbeats that landed. */
  function Landed(outcomes: seq<Outcome>, n: nat): seq<nat>
    requires n <= |outcomes|
  {
    if n == 0 then [] else Landed(outcomes, n - 1) + if Lands(outcomes[n - 1]) then [n] else []
  }

  /** Landed heartbeats carry increasing counts from 1 on. There are as many of them as the
      shutdown event claims exactly if no publish was lost. */
  lemma {:induction false} LandedFacts(outcomes: seq<Outcome>, n: nat)
    requires n <= |outcomes|
    ensures forall i, j :: 0 <= i < j < |Landed(outcomes, n)| ==> Landed(outcomes, n)[i] < Landed(outcomes, n)[j]
    ensures forall c :: c in Landed(outcomes, n) <==> 1 <= c <= n && Lands(outcomes[c - 1])
    ensures forall k :: 0 <= k < n && outcomes[k] == Sent ==> k + 1 in Landed(outcomes, n)
    ensures |Landed(outcomes, n)| <= n
    ensures |Landed(outcomes, n)| == n <==> forall k :: 0 <= k < n ==> Lands(outcomes[k])
  {
    if n > 0 {
      LandedFacts(outcomes, n - 1);
      var front := Landed(outcomes, n - 1);
      assert forall i :: 0 <= i < |front| ==> front[i] in front;
    }
  }

  class Service {
    var heartbeatCount: nat
    var bus: seq<Published>

    constructor ()
      ensures heartbeatCount == 0 && bus == []
    {
      heartbeatCount, bus := 0, [];
    }

    /** `_publish_event`; true when the caller is cancelled. */
    method PublishEvent(event: Published, o: Outcome) returns (cancelled: bool)
      modifies this`bus
      ensures bus == old(bus) + if Lands(o) then [event] else []
      ensures cancelled == o.Cancelled?
    {
      if Lands(o) { bus := bus + [event]; }
      cancelled := o.Cancelled?;
    }

    /** `_heartbeat_loop` until the schedule stops it between two beats or a beat is cancelled. */
    method HeartbeatLoop(outcomes: seq<Outcome>)
      requires heartbeatCount == 0 && Beats(bus) == []
      modifies this
      ensures heartbeatCount == Tried(outcomes) <= |outcomes|
      ensures forall k :: 0 <= k < heartbeatCount - 1 ==> !outcomes[k].Cancelled?
      ensures heartbeatCount < |outcomes| ==> heartbeatCount > 0 && outcomes[heartbeatCount - 1].Cancelled?
      ensures Beats(bus) == Landed(outcomes, heartbeatCount)
      ensures old(bus) <= bus && forall k :: |old(bus)| <= k < |bus| ==> bus[k].Heartbeat?
    {
      TriedBounded(outcomes);
      assert outcomes[0..] == outcomes;
      var cancelled := false;
      while heartbeatCount < |outcomes| && !cancelled
        invariant heartbeatCount <= |outcomes|
        invariant Tried(outcomes) == heartbeatCount + if cancelled then 0 else Tried(outcomes[heartbeatCount..])
        invariant old(bus) <= bus && forall k :: |old(bus)| <= k < |bus| ==> bus[k].Heartbeat?
        invariant Beats(bus) == Landed(outcomes, heartbeatCount)
        invariant forall k :: 0 <= k < heartbeatCount && (k < heartbeatCount - 1 || !cancelled) ==> !outcomes[k].Cancelled?
        invariant cancelled ==> heartbeatCount > 0 && outcomes[heartbeatCount - 1].Cancelled?
        decreases |outcomes| - heartbeatCount
      {
        var o := outcomes[heartbeatCount];
        TriedNext(outcomes, heartbeatCount);
        heartbeatCount := heartbeatCount + 1;
        BeatsNext(bus, heartbeatCount, Lands(o));
        cancelled := PublishEvent(Heartbeat(heartbeatCount), o);
      }
    }

    /**
     The whole life. A run cancelled in its startup publish leaves nothing further on the bus.
     Otherwise the bus holds the startup event, heartbeats with increasing counts, and the
     shutdown event, less those that were lost. The shutdown event reports the heartbeats
     that were tried.
     */
    method Live(startup: Outcome, beats: seq<Outcome>, shutdown: Outcome)
      requires heartbeatCount == 0 && bus == []
      modifies this
      ensures startup.Cancelled? ==> heartbeatCount == 0 && bus == if Lands(startup) then [Startup] else []
      ensures !startup.Cancelled? ==> heartbeatCount == Tried(beats) <= |beats|
      ensures !startup.Cancelled? ==> Beats(bus) == Landed(beats, heartbeatCount)
      ensures Startup in bus <==> Lands(startup)
      ensures forall k :: 0 <= k < |bus| && bus[k].Startup? ==> k == 0
      ensures forall k :: 0 <= k < |bus| && bus[k].Shutdown? ==> k == |bus| - 1 && bus[k].heartbeats == heartbeatCount
      ensures !startup.Cancelled? ==> (Shutdown(heartbeatCount) in bus <==> Lands(shutdown))
    {
      var cancelled := PublishEvent(Startup, startup);
      assert bus == [] || bus[..|bus| - 1] == [];
      if cancelled { return; }
      ghost var begun := bus;
      HeartbeatLoop(beats);
      ghost var before := bus;
      var _ := PublishEvent(Shutdown(heartbeatCount), shutdown);
      BeatsConcat(before, if Lands(shutdown) then [Shutdown(heartbeatCount)] else []);
      if Lands(shutdown) { assert Shutdown(heartbeatCount) in bus; }
      if Lands(startup) { assert bus[0] == begun[0]; }
    }
  }
}
