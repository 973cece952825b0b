/**
 * The RF listing step of the console handler (src/classes/RCEManager.ts, the
 * `BROADCAST_RECEIVED` block): the server's list of active frequencies is
 * reconciled with the frequencies of a `rf.listboardcaster` answer.
 *
 * `LostPhase` and `Receive` follow the two `forEach` loops of the source one
 * element at a time; `UpdateRf` runs those loops, and the lemmas below say
 * what they achieve.
 */
module Rf {
  import opened Lists
  import opened Events
  import opened Patterns

  datatype RfResult = RfResult(active: seq<nat>, events: seq<Event>)

  function Frequencies(bs: seq<Broadcast>): (r: seq<nat>)
    ensures |r| == |bs| && forall k :: 0 <= k < |bs| ==> r[k] == bs[k].frequency
  {
    seq(|bs|, k requires 0 <= k < |bs| => bs[k].frequency)
  }

  /** The oil rig announcement that precedes the reception of frequency 4765 or 4768. */
  function OilRig(f: nat): (r: seq<Event>)
    ensures f == 4765 ==> r == [EventStart("Small Oil Rig", false)]
    ensures f == 4768 ==> r == [EventStart("Oil Rig", false)]
    ensures f != 4765 && f != 4768 ==> r == []
  {
    if f == 4765 then [EventStart("Small Oil Rig", false)]
    else if f == 4768 then [EventStart("Oil Rig", false)]
    else []
  }

  /** The first loop: every listed-before frequency in `rest` that the listing lacks is
      reported lost and filtered out of `active`. */
  function LostPhase(active: seq<nat>, rest: seq<nat>, freqs: seq<nat>): RfResult
    decreases rest
  {
    if rest == [] then RfResult(active, [])
    else if rest[0] in freqs then LostPhase(active, rest[1..], freqs)
    else
      var r := LostPhase(Filter(active, f => f != rest[0]), rest[1..], freqs);
      RfResult(r.active, [FrequencyLost(rest[0])] + r.events)
  }

  /** The second loop: every listed frequency not yet active is appended and announced. */
  function Receive(active: seq<nat>, bs: seq<Broadcast>): RfResult
    decreases bs
  {
    if bs == [] then RfResult(active, [])
    else if bs[0].frequency in active then Receive(active, bs[1..])
    else
      var r := Receive(active + [bs[0].frequency], bs[1..]);
      RfResult(r.active, OilRig(bs[0].frequency) + [FrequencyReceived(bs[0].frequency, bs[0].coordinates, bs[0].range)]
                         + r.events)
  }

  /** The whole RF step for the server's active list `current` and the parsed listing `bs`. */
  function RfUpdate(current: seq<nat>, bs: seq<Broadcast>): RfResult
  {
    var lost := LostPhase(current, current, Frequencies(bs));
    var received := Receive(lost.active, bs);
    RfResult(received.active, lost.events + received.events)
  }

  /** The first `forEach`: report and drop the active frequencies the listing lacks. */
  method DropLost(current: seq<nat>, freqs: seq<nat>) returns (active: seq<nat>, events: seq<Event>)
    ensures RfResult(active, events) == LostPhase(current, current, freqs)
  {
    active, events := current, [];
    var i := 0;
    while i < |current|
      invariant 0 <= i <= |current|
      invariant var r := LostPhase(active, current[i..], freqs);
        RfResult(r.active, events + r.events) == LostPhase(current, current, freqs)
    {
      var frequency := current[i];
      assert current[i..][0] == frequency && current[i..][1..] == current[i + 1..];
      if frequency !in freqs {
        events := events + [FrequencyLost(frequency)];
        active := Filter(active, f => f != frequency);
      }
      i := i + 1;
    }
  }

  /** The second `forEach`: append and announce the listed frequencies not yet active. */
  method AddReceived(kept: seq<nat>, bs: seq<Broadcast>) returns (active: seq<nat>, events: seq<Event>)
    ensures RfResult(active, events) == Receive(kept, bs)
  {
    active, events := kept, [];
    var j := 0;
    while j < |bs|
      invariant 0 <= j <= |bs|
      invariant var r := Receive(active, bs[j..]); RfResult(r.active, events + r.events) == Receive(kept, bs)
    {
      var b := bs[j];
      assert bs[j..][0] == b && bs[j..][1..] == bs[j + 1..];
      ghost var e0 := events;
      if b.frequency !in active {
        ghost var announced := events + OilRig(b.frequency);
        active := active + [b.frequency];
        if b.frequency == 4765 {
          events := events + [EventStart("Small Oil Rig", false)];
        } else if b.frequency == 4768 {
          events := events + [EventStart("Oil Rig", false)];
        }
        assert events == announced;
        ghost var r := Receive(active, bs[j + 1..]);
        events := events + [FrequencyReceived(b.frequency, b.coordinates, b.range)];
        assert events + r.events
            == e0 + (OilRig(b.frequency) + [FrequencyReceived(b.frequency, b.coordinates, b.range)] + r.events);
      }
      j := j + 1;
    }
  }

  /** The RF step run on the values the handler holds. */
  method UpdateRf(current: seq<nat>, bs: seq<Broadcast>) returns (active: seq<nat>, events: seq<Event>)
    ensures RfResult(active, events) == RfUpdate(current, bs)
  {
    var kept, lost := DropLost(current, Frequencies(bs));
    var received;
    active, received := AddReceived(kept, bs);
    events := lost + received;
  }

  /** The frequencies of the `FrequencyLost` events, in order. */
  function LostFrequencies(evs: seq<Event>): seq<nat>
  {
    if evs == [] then [] else (if evs[0].FrequencyLost? then [evs[0].frequency] else []) + LostFrequencies(evs[1..])
  }

  /** The frequencies of the `FrequencyReceived` events, in order. */
  function ReceivedFrequencies(evs: seq<Event>): seq<nat>
  {
    if evs == [] then []
    else (if evs[0].FrequencyReceived? then [evs[0].frequency] else []) + ReceivedFrequencies(evs[1..])
  }

  lemma {:induction false} LostFrequenciesAppend(a: seq<Event>, b: seq<Event>)
    ensures LostFrequencies(a + b) == LostFrequencies(a) + LostFrequencies(b)
  {
    if a == [] {
      assert a + b == b;
    } else {
      var head := if a[0].FrequencyLost? then [a[0].frequency] else [];
      assert (a + b)[0] == a[0] && (a + b)[1..] == a[1..] + b;
      assert LostFrequencies(a + b) == head + LostFrequencies(a[1..] + b);
      LostFrequenciesAppend(a[1..], b);
      assert LostFrequencies(a) == head + LostFrequencies(a[1..]);
    }
  }

  lemma {:induction false} ReceivedFrequenciesAppend(a: seq<Event>, b: seq<Event>)
    ensures ReceivedFrequencies(a + b) == ReceivedFrequencies(a) + ReceivedFrequencies(b)
  {
    if a == [] {
      assert a + b == b;
    } else {
      var head := if a[0].FrequencyReceived? then [a[0].frequency] else [];
      assert (a + b)[0] == a[0] && (a + b)[1..] == a[1..] + b;
      assert ReceivedFrequencies(a + b) == head + ReceivedFrequencies(a[1..] + b);
      ReceivedFrequenciesAppend(a[1..], b);
      assert ReceivedFrequencies(a) == head + ReceivedFrequencies(a[1..]);
    }
  }

  lemma FrequenciesAppend(a: seq<Event>, b: seq<Event>)
    ensures LostFrequencies(a + b) == LostFrequencies(a) + LostFrequencies(b)
    ensures ReceivedFrequencies(a + b) == ReceivedFrequencies(a) + ReceivedFrequencies(b)
  {
    LostFrequenciesAppend(a, b);
    ReceivedFrequenciesAppend(a, b);
  }

  /** The lost phase filters out exactly the scanned frequencies the listing lacks, and reports
      each scanned element the listing lacks, in scan order. */
  lemma {:induction false} LostPhaseEffect(active: seq<nat>, rest: seq<nat>, freqs: seq<nat>)
    ensures LostPhase(active, rest, freqs).active == Filter(active, f => !(f in rest && f !in freqs))
    ensures LostFrequencies(LostPhase(active, rest, freqs).events) == Filter(rest, f => f !in freqs)
    ensures ReceivedFrequencies(LostPhase(active, rest, freqs).events) == []
    decreases rest
  {
    if rest == [] {
      FilterKeepsAll(active, f => !(f in rest && f !in freqs));
    } else {
      var c := rest[0];
      assert rest == [c] + rest[1..];
      FilterAppend([c], rest[1..], f => f !in freqs);
      if c in freqs {
        LostPhaseEffect(active, rest[1..], freqs);
        FilterAgree(active, f => !(f in rest[1..] && f !in freqs), f => !(f in rest && f !in freqs));
      } else {
        var filtered := Filter(active, f => f != c);
        LostPhaseEffect(filtered, rest[1..], freqs);
        FilterFilter(active, f => f != c, f => !(f in rest[1..] && f !in freqs),
                     f => f != c && !(f in rest[1..] && f !in freqs));
        FilterAgree(active, f => f != c && !(f in rest[1..] && f !in freqs), f => !(f in rest && f !in freqs));
        FrequenciesAppend([FrequencyLost(c)], LostPhase(filtered, rest[1..], freqs).events);
      }
    }
  }

  /** The listed frequencies the receive phase appends: each one not yet active, once, in
      listing order. */
  function NewFrequencies(active: seq<nat>, bs: seq<Broadcast>): seq<nat>
    decreases bs
  {
    if bs == [] then []
    else if bs[0].frequency in active then NewFrequencies(active, bs[1..])
    else [bs[0].frequency] + NewFrequencies(active + [bs[0].frequency], bs[1..])
  }

  /** The receive phase appends exactly the new frequencies and reports each of them received. */
  lemma {:induction false} ReceiveAppends(active: seq<nat>, bs: seq<Broadcast>)
    ensures Receive(active, bs).active == active + NewFrequencies(active, bs)
    ensures ReceivedFrequencies(Receive(active, bs).events) == NewFrequencies(active, bs)
    ensures LostFrequencies(Receive(active, bs).events) == []
    decreases bs
  {
    if bs != [] {
      var f := bs[0].frequency;
      if f in active {
        ReceiveAppends(active, bs[1..]);
      } else {
        ReceiveAppends(active + [f], bs[1..]);
        var received := FrequencyReceived(f, bs[0].coordinates, bs[0].range);
        FrequenciesAppend(OilRig(f) + [received], Receive(active + [f], bs[1..]).events);
        FrequenciesAppend(OilRig(f), [received]);
      }
    }
  }

  /** The new frequencies are the listed ones that were not active, without repeats. */
  lemma {:induction false} NewFrequenciesMembers(active: seq<nat>, bs: seq<Broadcast>)
    ensures NoDup(NewFrequencies(active, bs))
    ensures forall f :: f in NewFrequencies(active, bs) <==> f in Frequencies(bs) && f !in active
    decreases bs
  {
    if bs != [] {
      var f := bs[0].frequency;
      assert Frequencies(bs) == [f] + Frequencies(bs[1..]);
      if f in active {
        NewFrequenciesMembers(active, bs[1..]);
      } else {
        NewFrequenciesMembers(active + [f], bs[1..]);
        NoDupAppend([f], NewFrequencies(active + [f], bs[1..]));
      }
    }
  }

  /** Every new frequency 4765 comes with one "Small Oil Rig" event and every new 4768 with one
      "Oil Rig" event; there are no others. */
  lemma {:induction false} ReceiveOilRigs(active: seq<nat>, bs: seq<Broadcast>)
    ensures multiset(Receive(active, bs).events)[EventStart("Small Oil Rig", false)]
         == multiset(NewFrequencies(active, bs))[4765]
    ensures multiset(Receive(active, bs).events)[EventStart("Oil Rig", false)]
         == multiset(NewFrequencies(active, bs))[4768]
    decreases bs
  {
    if bs != [] {
      var f := bs[0].frequency;
      if f in active {
        ReceiveOilRigs(active, bs[1..]);
      } else {
        var r := Receive(active + [f], bs[1..]);
        var e := [FrequencyReceived(f, bs[0].coordinates, bs[0].range)];
        assert Receive(active, bs).events == OilRig(f) + e + r.events;
        assert NewFrequencies(active, bs) == [f] + NewFrequencies(active + [f], bs[1..]);
        hide Receive, NewFrequencies;
        ReceiveOilRigs(active + [f], bs[1..]);
      }
    }
  }

  /** After an RF listing the active frequencies are exactly the listed ones. */
  lemma RfActiveMatchesListing(current: seq<nat>, bs: seq<Broadcast>)
    ensures forall f :: f in RfUpdate(current, bs).active <==> f in Frequencies(bs)
    ensures NoDup(current) ==> NoDup(RfUpdate(current, bs).active)
  {
    var freqs := Frequencies(bs);
    LostPhaseEffect(current, current, freqs);
    var kept := LostPhase(current, current, freqs).active;
    FilterAgree(current, f => !(f in current && f !in freqs), f => f in freqs);
    ReceiveAppends(kept, bs);
    NewFrequenciesMembers(kept, bs);
    if NoDup(current) {
      FilterNoDup(current, f => f in freqs);
      NoDupAppend(kept, NewFrequencies(kept, bs));
    }
  }

  /** Each previously active frequency missing from the listing is reported lost once (for an
      active list without repeats, which the handler keeps), and nothing else is. */
  lemma RfLostOnce(current: seq<nat>, bs: seq<Broadcast>)
    requires NoDup(current)
    ensures var lost := LostFrequencies(RfUpdate(current, bs).events);
      forall f :: multiset(lost)[f] == if f in current && f !in Frequencies(bs) then 1 else 0
  {
    var freqs := Frequencies(bs);
    LostPhaseEffect(current, current, freqs);
    var lp := LostPhase(current, current, freqs);
    ReceiveAppends(lp.active, bs);
    FrequenciesAppend(lp.events, Receive(lp.active, bs).events);
    var lost := Filter(current, f => f !in freqs);
    assert LostFrequencies(RfUpdate(current, bs).events) == lost;
    FilterNoDup(current, f => f !in freqs);
    forall f ensures multiset(lost)[f] == if f in current && f !in freqs then 1 else 0 {
      NoDupCount(lost, f);
    }
  }

  /** Each listed frequency that was not active is reported received exactly once, however often
      the listing repeats it; a frequency that was already active is not reported. */
  lemma RfReceivedOnce(current: seq<nat>, bs: seq<Broadcast>)
    ensures var received := ReceivedFrequencies(RfUpdate(current, bs).events);
      forall f :: multiset(received)[f] == if f in Frequencies(bs) && f !in current then 1 else 0
  {
    var freqs := Frequencies(bs);
    LostPhaseEffect(current, current, freqs);
    var lp := LostPhase(current, current, freqs);
    FilterAgree(current, f => !(f in current && f !in freqs), f => f in freqs);
    ReceiveAppends(lp.active, bs);
    NewFrequenciesMembers(lp.active, bs);
    FrequenciesAppend(lp.events, Receive(lp.active, bs).events);
    var added := NewFrequencies(lp.active, bs);
    assert ReceivedFrequencies(RfUpdate(current, bs).events) == added;
    forall f ensures multiset(added)[f] == if f in freqs && f !in current then 1 else 0 {
      NoDupCount(added, f);
    }
  }

  /** "Small Oil Rig" is announced exactly when 4765 is received and "Oil Rig" exactly when 4768 is. */
  lemma RfOilRigs(current: seq<nat>, bs: seq<Broadcast>)
    ensures var r := RfUpdate(current, bs);
      && multiset(r.events)[EventStart("Small Oil Rig", false)] == multiset(ReceivedFrequencies(r.events))[4765]
      && multiset(r.events)[EventStart("Oil Rig", false)] == multiset(ReceivedFrequencies(r.events))[4768]
  {
    var freqs := Frequencies(bs);
    var lp := LostPhase(current, current, freqs);
    LostPhaseEffect(current, current, freqs);
    ReceiveAppends(lp.active, bs);
    ReceiveOilRigs(lp.active, bs);
    FrequenciesAppend(lp.events, Receive(lp.active, bs).events);
    LostOnlyLost(current, current, freqs);
    assert EventStart("Small Oil Rig", false) !in lp.events && EventStart("Oil Rig", false) !in lp.events;
  }

  lemma {:induction false} LostOnlyLost(active: seq<nat>, rest: seq<nat>, freqs: seq<nat>)
    ensures forall e :: e in LostPhase(active, rest, freqs).events ==> e.FrequencyLost?
    decreases rest
  {
    if rest != [] {
      if rest[0] in freqs {
        LostOnlyLost(active, rest[1..], freqs);
      } else {
        LostOnlyLost(Filter(active, f => f != rest[0]), rest[1..], freqs);
      }
    }
  }

  /** The events an RF step can report. */
  predicate RfEvent(e: Event)
  {
    e.FrequencyLost? || e.FrequencyReceived? || e == EventStart("Small Oil Rig", false) || e == EventStart("Oil Rig", false)
  }

  lemma {:induction false} ReceiveOnlyRf(active: seq<nat>, bs: seq<Broadcast>)
    ensures forall e :: e in Receive(active, bs).events ==> RfEvent(e)
    decreases bs
  {
    if bs != [] {
      var f := bs[0].frequency;
      if f in active {
        ReceiveOnlyRf(active, bs[1..]);
      } else {
        ReceiveOnlyRf(active + [f], bs[1..]);
      }
    }
  }

  /** An RF step reports lost and received frequencies and oil rig starts, nothing else. */
  lemma RfUpdateOnlyRf(current: seq<nat>, bs: seq<Broadcast>)
    ensures forall e :: e in RfUpdate(current, bs).events ==> RfEvent(e)
  {
    var lp := LostPhase(current, current, Frequencies(bs));
    LostOnlyLost(current, current, Frequencies(bs));
    ReceiveOnlyRf(lp.active, bs);
  }
}
