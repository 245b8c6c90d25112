/** The channel itself: its fields, and the methods that change them. */
module Channel {
  import opened ChannelRuns
  import opened Options

  lemma CalledOne(before: seq<nat>, calls: seq<nat>, l: nat)
    requires before <= calls
    ensures before <= calls + [l]
    ensures multiset((calls + [l])[|before|..]) == multiset(calls[|before|..]) + multiset{l}
  {
    assert (calls + [l])[|before|..] == calls[|before|..] + [l];
  }

  class Channel {
    var listeners: set<nat>
    var abort: Option<nat>
    var failures: nat
    /** Set by a hello and cleared by `Stops`: what tells a later hello from the first. */
    var heardOnce: bool
    var settling: Option<nat>
    var polling: Option<nat>
    var retrying: Option<nat>
    var standing: Standing

    // What it runs among: timers pending, and calls to `connect` not yet finished.
    var timers: map<nat, Timer>
    var running: map<nat, Conn>
    var nextId: nat
    /** The listeners called so far, in turn. */
    var calls: seq<nat>
    ghost var owed: bool
    ghost var unread: bool

    ghost function Now(): State
      reads this
    {
      State(listeners, abort, failures, heardOnce, settling, polling, retrying, standing, timers, running, nextId,
            owed, unread)
    }

    constructor ()
      ensures Now() == START && Good(Now())
    {
      listeners, abort, failures, heardOnce := {}, None, 0, false;
      settling, polling, retrying, standing := None, None, None, Off;
      timers, running, nextId, calls, owed, unread := map[], map[], 0, [], false, false;
    }

    method SetTimer(kind: Timer) returns (t: nat)
      modifies this
      ensures t == old(nextId)
      ensures Now() == old(Now()).(timers := old(timers)[t := kind], nextId := t + 1)
    {
      t := nextId;
      timers, nextId := timers[t := kind], t + 1;
    }

    method ClearTimer(t: Option<nat>)
      modifies this
      ensures Now() == old(Now()).(timers := Cleared(old(timers), t))
    {
      if t.Some? {
        timers := timers - {t.value};
      }
    }

    method AbortCurrent()
      modifies this
      ensures Now() == old(Now()).(running := Aborted(old(running), old(abort)))
    {
      if abort.Some? && abort.value in running {
        running := running[abort.value := running[abort.value].(aborted := true)];
      }
    }

    /** One more listener; the first connects. */
    method Subscribes(l: nat)
      modifies this
      ensures Now() == Subscribe(old(Now()), l)
      ensures old(Good(Now())) && l !in old(listeners) ==> Good(Now())
    {
      hide Good;
      if Good(Now()) && l !in listeners {
        SubscribeKeeps(Now(), l);
      }
      listeners := listeners + {l};
      if |listeners| == 1 {
        Connects();
      }
    }

    /** One listener fewer; without any, the channel stops. */
    method Unsubscribes(l: nat)
      modifies this
      ensures Now() == Unsubscribe(old(Now()), l)
      ensures old(Good(Now())) ==> Good(Now())
    {
      hide Good;
      if Good(Now()) {
        UnsubscribeKeeps(Now(), l);
      }
      listeners := listeners - {l};
      if |listeners| == 0 {
        Stops();
      }
    }

    /** Listeners are told, and a channel neither live nor connecting connects. */
    method Nudges()
      modifies this
      ensures Now() == Nudge(old(Now()))
      ensures old(Good(Now())) ==> Good(Now())
    {
      hide Good;
      if Good(Now()) {
        NudgeKeeps(Now());
      }
      if |listeners| == 0 {
        return;
      }
      Tells();
      if standing != Live && standing != Connecting {
        failures := 0;
        ClearTimer(retrying);
        retrying := None;
        Connects();
      }
    }

    method Stops()
      modifies this
      ensures Now() == Stop(old(Now()))
    {
      hide Aborted;
      AbortCurrent();
      abort := None;
      ClearTimer(settling);
      ClearTimer(retrying);
      ClearTimer(polling);
      settling, retrying, polling := None, None, None;
      failures, heardOnce, standing := 0, false, Off;
      owed, unread := false, false;
    }

    /** As far as the stream being asked for; the rest is `Reads` and `Ended`. */
    method Connects()
      modifies this
      ensures Now() == Connect(old(Now()))
    {
      hide Aborted;
      var c := nextId;
      AbortCurrent();
      running, nextId := running[c := CALLED], c + 1;
      abort := Some(c);
      retrying := None;
      if standing != Polling {
        standing := Connecting;
      }
    }

    /** A chunk of `n` frames comes on a connection, and the loop it wakes runs. */
    method Reads(c: nat, n: nat)
      requires c in running && n <= |running[c].queue|
      modifies this
      ensures Now() == Deliver(old(Now()), c, n)
      ensures old(Good(Now()) && !running[c].aborted) ==> Good(Now())
    {
      hide Good;
      if Good(Now()) && !running[c].aborted {
        DeliverKeeps(Now(), c, n);
      }
      var frames := running[c].queue[..n];
      running := running[c := running[c].(queue := running[c].queue[n..])];
      ghost var begun := Now();
      assert frames[0..] == frames;
      for i := 0 to n
        invariant c in running
        invariant HearAll(begun, c, frames) == HearAll(Now(), c, frames[i..])
      {
        assert frames[i..][0] == frames[i] && frames[i..][1..] == frames[i + 1..];
        Hears(c, frames[i]);
      }
      assert frames[n..] == [];
    }

    method Hears(c: nat, frame: Sent)
      requires c in running
      modifies this
      ensures Now() == Hear(old(Now()), c, frame)
    {
      if frame == Hello {
        running := running[c := running[c].(hello := true, quiet := false)];
        failures := 0;
        standing := Live;
        ClearTimer(polling);
        polling := None;
        // Nothing to catch up with at a hello unless one came before it.
        if heardOnce {
          Settles();
        }
        heardOnce := true;
      } else if frame == Changed {
        Settles();
      }
    }

    /** A call to `connect` goes on past its loop. */
    method Ended(c: nat)
      requires c in running
      modifies this
      ensures Now() == End(old(Now()), c)
      ensures old(Good(Now())) ==> Good(Now())
    {
      hide Good, StartRetry, StartPoll;
      if Good(Now()) {
        EndKeeps(Now(), c);
      }
      var hello := running[c].hello;
      running := running - {c};
      if abort != Some(c) {
        return;
      }
      abort := None;
      if hello {
        standing := Connecting;
        Retries();
      } else {
        failures := failures + 1;
        Polls();
        Retries();
      }
    }

    method Retries()
      modifies this
      ensures Now() == StartRetry(old(Now()))
    {
      var t := SetTimer(Retry);
      retrying := Some(t);
    }

    method Polls()
      modifies this
      ensures Now() == StartPoll(old(Now()))
    {
      standing := Polling;
      if polling.Some? {
        return;
      }
      var t := SetTimer(Poll);
      polling := Some(t);
    }

    method Settles()
      modifies this
      ensures Now() == StartSettle(old(Now()))
    {
      if settling.Some? {
        return;
      }
      var t := SetTimer(Settle);
      settling := Some(t);
    }

    /** Calls everyone listening once each, and nobody else; nothing is owed them then. */
    method Tells()
      modifies this
      ensures Now() == Tell(old(Now()))
      ensures old(calls) <= calls && multiset(calls[|old(calls)|..]) == multiset(listeners)
    {
      var rest := listeners;
      while rest != {}
        invariant Now() == old(Now()) && rest <= listeners
        invariant old(calls) <= calls && multiset(calls[|old(calls)|..]) == multiset(listeners - rest)
        decreases rest
      {
        var l :| l in rest;
        CalledOne(old(calls), calls, l);
        calls := calls + [l];
        assert listeners - (rest - {l}) == (listeners - rest) + {l};
        rest := rest - {l};
      }
      assert listeners - {} == listeners;
      owed, unread := false, false;
    }

    /** A timer goes off. */
    method TimerFires(t: nat)
      requires t in timers
      modifies this
      ensures Now() == Fire(old(Now()), t)
      ensures old(Good(Now())) ==> Good(Now())
    {
      hide Good;
      if Good(Now()) {
        FireKeeps(Now(), t);
      }
      match timers[t] {
        case Settle =>
          timers := timers - {t};
          settling := None;
          Tells();
        case Poll =>
          Tells();
        case Retry =>
          timers := timers - {t};
          Connects();
      }
    }

    /** The wait for a connection's hello runs out. */
    method QuietFires(c: nat)
      requires c in running
      modifies this
      ensures Now() == GiveUp(old(Now()), c)
      ensures old(Good(Now()) && running[c].quiet) ==> Good(Now())
    {
      hide Good;
      if Good(Now()) && running[c].quiet {
        GiveUpKeeps(Now(), c);
      }
      running := running[c := running[c].(quiet := false, aborted := true)];
    }
  }
}
