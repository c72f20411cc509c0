/** The heartbeat timer of a lease: ticks that may take longer than the interval, and a drain that is
    meant to wait until none is running. */
module Heartbeat {
  import opened Wrappers

  /** `inFlight` is the tick whose promise the timer holds; `running` is every tick not yet settled. */
  datatype Timer = Timer(armed: bool, inFlight: Option<nat>, running: set<nat>, next: nat)

  const IDLE := Timer(false, None, {}, 0)

  datatype Event =
    | Start
    | Fire             // the interval elapses: a tick begins
    | BeatFails(tick: nat)   // its beat throws: the timer stops, the failure callback runs on
    | Settle(tick: nat)
    | Stop

  predicate Enabled(t: Timer, e: Event) {
    match e
    case Fire => t.armed
    case BeatFails(k) => k in t.running
    case Settle(k) => k in t.running
    case _ => true
  }

  function Next(t: Timer, e: Event): Timer {
    match e
    case Start => t.(armed := true)
    case Fire => t.(inFlight := Some(t.next), running := t.running + {t.next}, next := t.next + 1)
    case BeatFails(_) => t.(armed := false)
    case Settle(k) => t.(running := t.running - {k})
    case Stop => t.(armed := false)
  }

  /** An armed timer may fire; a tick that runs may fail and may settle. */
  lemma {:induction false} TicksMayEnd(t: Timer, k: nat)
    ensures Enabled(t, Fire) <==> t.armed
    ensures Enabled(t, BeatFails(k)) <==> k in t.running
    ensures Enabled(t, Settle(k)) <==> k in t.running
    ensures k !in Next(t, Settle(k)).running && !Next(t, BeatFails(k)).armed && !Next(t, Stop).armed
    ensures var v := Next(t, Fire); v.inFlight == Some(t.next) && t.next in v.running
  {
  }

  /** What `drain` waits for: the one promise the timer holds. */
  predicate Drained(t: Timer) {
    t.inFlight.None? || t.inFlight.value !in t.running
  }

  predicate Quiet(t: Timer) {
    t.running == {}
  }

  /** Every tick but the latest has settled. */
  predicate OlderSettled(t: Timer) {
    forall k :: k in t.running ==> t.inFlight == Some(k)
  }

  ghost predicate Possible(t: Timer, events: seq<Event>)
    decreases |events|
  {
    events == [] || (Enabled(t, events[0]) && Possible(Next(t, events[0]), events[1..]))
  }

  function Run(t: Timer, events: seq<Event>): Timer
    decreases |events|
  {
    if events == [] then t else Run(Next(t, events[0]), events[1..])
  }

  /** Stopped and not started again. */
  predicate Stays(events: seq<Event>) {
    forall k :: 0 <= k < |events| ==> !events[k].Start?
  }

  lemma {:induction false} StoppedKeeps(t: Timer, events: seq<Event>)
    requires !t.armed && OlderSettled(t) && Stays(events) && Possible(t, events)
    ensures OlderSettled(Run(t, events)) && !Run(t, events).armed
    decreases |events|
  {
    if events != [] {
      assert !events[0].Start? && !events[0].Fire?;
      StoppedKeeps(Next(t, events[0]), events[1..]);
    }
  }

  /** After a stop, a completed drain means that no tick is running, in every continuation, if and only
      if every tick but the latest had settled when the timer stopped. */
  lemma {:induction false} DrainIsQuietIff(t: Timer)
    requires !t.armed
    ensures OlderSettled(t) <==>
            forall events :: Stays(events) && Possible(t, events) && Drained(Run(t, events)) ==> Quiet(Run(t, events))
  {
    if OlderSettled(t) {
      forall events | Stays(events) && Possible(t, events) && Drained(Run(t, events)) ensures Quiet(Run(t, events)) {
        StoppedKeeps(t, events);
      }
    } else {
      var events := Unlucky(t);
    }
  }

  /** If an older tick is still running, settling the latest completes the drain too early. */
  lemma {:induction false} Unlucky(t: Timer) returns (events: seq<Event>)
    requires !t.armed && !OlderSettled(t)
    ensures Stays(events) && Possible(t, events) && Drained(Run(t, events)) && !Quiet(Run(t, events))
  {
    var k :| k in t.running && t.inFlight != Some(k);
    if Drained(t) {
      events := [];
    } else {
      events := [Settle(t.inFlight.value)];
      assert events[1..] == [];
      assert k in Run(t, events).running;
    }
  }

  /** Each tick begins only when the one before has settled. */
  ghost predicate NoOverlap(t: Timer, events: seq<Event>)
    decreases |events|
  {
    events == [] || ((events[0].Fire? ==> t.running == {}) && NoOverlap(Next(t, events[0]), events[1..]))
  }

  /** Without overlapping ticks a completed drain always means quiet. */
  lemma {:induction false} WithoutOverlapDrainIsQuiet(t: Timer, events: seq<Event>)
    requires OlderSettled(t) && Possible(t, events) && NoOverlap(t, events)
    ensures OlderSettled(Run(t, events))
    ensures Drained(Run(t, events)) ==> Quiet(Run(t, events))
    decreases |events|
  {
    if events != [] { WithoutOverlapDrainIsQuiet(Next(t, events[0]), events[1..]); }
  }

  /** Two overlapping ticks, a stop, and the second settling: drained, and the first still runs. */
  lemma {:induction false} OverlapDrainsEarly()
    ensures var events := [Start, Fire, Fire, Stop, Settle(1)];
            Possible(IDLE, events) && Drained(Run(IDLE, events)) && !Quiet(Run(IDLE, events))
  {
    var events := [Start, Fire, Fire, Stop, Settle(1)];
    var a := Timer(true, None, {}, 0);
    var b := Timer(true, Some(0), {0}, 1);
    var c := Timer(true, Some(1), {0, 1}, 2);
    var d := Timer(false, Some(1), {0, 1}, 2);
    var e := Timer(false, Some(1), {0}, 2);
    assert Next(IDLE, Start) == a && Next(a, Fire) == b && Next(b, Fire) == c && Next(c, Stop) == d && Next(d, Settle(1)) == e;
    assert events[1..] == [Fire, Fire, Stop, Settle(1)] && events[1..][1..] == [Fire, Stop, Settle(1)];
    assert [Fire, Stop, Settle(1)][1..] == [Stop, Settle(1)] && [Stop, Settle(1)][1..] == [Settle(1)] && [Settle(1)][1..] == [];
    assert Possible(e, []) && Run(e, []) == e;
    assert Possible(d, [Settle(1)]) && Run(d, [Settle(1)]) == e;
    assert Possible(c, [Stop, Settle(1)]) && Run(c, [Stop, Settle(1)]) == e;
    assert Possible(b, [Fire, Stop, Settle(1)]) && Run(b, [Fire, Stop, Settle(1)]) == e;
    assert Possible(a, [Fire, Fire, Stop, Settle(1)]) && Run(a, [Fire, Fire, Stop, Settle(1)]) == e;
    assert 0 in e.running;
  }

  class LeaseHeartbeat {
    var handle: bool
    var inFlight: Option<nat>
    ghost var running: set<nat>
    var ticks: nat

    ghost function State(): Timer
      reads this
    {
      Timer(handle, inFlight, running, ticks)
    }

    constructor ()
      ensures State() == IDLE
    {
      handle, inFlight, running, ticks := false, None, {}, 0;
    }

    method Begin()
      modifies this`handle
      ensures State() == Next(old(State()), Start)
    {
      if handle { return; }
      handle := true;
    }

    method Halt()
      modifies this`handle
      ensures State() == Next(old(State()), Stop)
    {
      if !handle { return; }
      handle := false;
    }

    method Tick()
      requires handle
      modifies this
      ensures State() == Next(old(State()), Fire)
    {
      inFlight := Some(ticks);
      running := running + {ticks};
      ticks := ticks + 1;
    }

    method FailBeat(tick: nat)
      modifies this`handle
      ensures State() == Next(old(State()), BeatFails(tick))
    {
      Halt();
    }
  }
}
