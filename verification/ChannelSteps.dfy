/** Which events start, tell, count and stop what: for each, in every state a channel can be in. */
module ChannelSteps {
  import opened ChannelRuns
  import opened Options

  // ---------- A nudge ----------

  /** A channel that polls is tried again at once: a connection never there before, not
      given up, in place of any wait, and with no failures counted. One that is live or
      connecting is left as it is. With nobody listening nothing happens. */
  lemma NudgeTries(s: State)
    requires Good(s)
    ensures s.listeners == {} ==> Nudge(s) == s
    ensures
      var u := Nudge(s);
      s.standing == Polling ==>
        && u.abort.Some? && u.abort.value !in s.running && u.abort.value in u.running
        && !u.running[u.abort.value].aborted && u.running[u.abort.value].quiet && !u.running[u.abort.value].hello
        && u.retrying == None && (forall t :: t in u.timers ==> u.timers[t] != Retry)
        && u.failures == 0 && u.standing == Polling && u.polling == s.polling && u.settling == s.settling
        && !u.owed && !u.unread
    ensures
      var u := Nudge(s);
      s.standing == Live || s.standing == Connecting ==>
        && u.abort == s.abort && u.running == s.running && u.retrying == s.retrying && u.timers == s.timers
        && u.failures == s.failures && u.standing == s.standing && !u.owed && !u.unread
  {
    hide StreamsRight, Covered;
  }

  // ---------- Connecting ----------

  /** A connection is asked for. */
  ghost predicate Asks(s: State, u: State) {
    exists c :: c in u.running && c !in s.running
  }

  /** The first to listen, a nudge while polling, and a wait that is over ask for a
      connection, and nothing else does. */
  lemma ConnectsExactly(s: State, e: Event)
    requires Good(s) && Enabled(s, e)
    ensures Asks(s, Next(s, e)) <==>
      || (e.Subscribes? && s.listeners == {})
      || (e.Nudges? && s.standing == Polling)
      || (e.Fires? && s.timers[e.t] == Retry)
    ensures
      var u := Next(s, e);
      Asks(s, u) ==>
        && u.abort.Some? && u.abort.value !in s.running && u.abort.value in u.running
        && u.running[u.abort.value] == CALLED
        && (forall c :: c in s.running && Some(c) == s.abort ==> c in u.running && u.running[c].aborted)
  {
    hide Good, Next, Deliver, Subscribe, Unsubscribe, Nudge, Fire, End;
    var u := Next(s, e);
    match e
    case Subscribes(l) => SubscribeWhere(s, l);
    case Unsubscribes(l) => UnsubscribeWhere(s, l);
    case Nudges =>
      NudgeTries(s);
      NudgeWhere(s);
    case Fires(t) => FireWhere(s, t);
    case Delivers(c, n) => DeliverRuns(s, c, n);
    case Ends(c) => EndRuns(s, c);
    case _ => OthersRun(s, e);
  }

  /** None is asked for. */
  lemma OthersRun(s: State, e: Event)
    requires Enabled(s, e) && (e.GivesUp? || e.Opens? || e.Drops? || e.Changes? || e.Says?)
    ensures Next(s, e).running.Keys == s.running.Keys
  {
  }

  lemma EndRuns(s: State, c: nat)
    requires Enabled(s, Ends(c))
    ensures Next(s, Ends(c)).running == s.running - {c}
  {
  }

  lemma {:induction false} HearAllRuns(s: State, c: nat, frames: seq<Sent>)
    requires c in s.running
    ensures HearAll(s, c, frames).running.Keys == s.running.Keys
    decreases |frames|
  {
    if frames != [] {
      HearAllRuns(Hear(s, c, frames[0]), c, frames[1..]);
    }
  }

  lemma DeliverRuns(s: State, c: nat, n: nat)
    requires Enabled(s, Delivers(c, n))
    ensures Next(s, Delivers(c, n)).running.Keys == s.running.Keys
  {
    HearAllRuns(s.(running := s.running[c := s.running[c].(queue := s.running[c].queue[n..])]), c,
                s.running[c].queue[..n]);
  }

  lemma NudgeWhere(s: State)
    requires Good(s)
    ensures Next(s, Nudges) == Nudge(s)
    ensures s.standing == Polling ==> Nudge(s).running.Keys == s.running.Keys + {s.nextId} && s.nextId !in s.running
    ensures s.standing == Polling ==>
      && Nudge(s).abort == Some(s.nextId) && Nudge(s).running[s.nextId] == CALLED
      && (forall c :: c in s.running && Some(c) == s.abort ==> Nudge(s).running[c].aborted)
    ensures s.standing != Polling ==> Nudge(s).running == s.running
  {
    hide StreamsRight, Covered;
  }

  // ---------- Listening ----------

  /** The first to listen connects; to one more, nothing else changes. */
  lemma SubscribeWhere(s: State, l: nat)
    requires Good(s) && l !in s.listeners
    ensures Next(s, Subscribes(l)) == Subscribe(s, l)
    ensures s.listeners != {} ==> Subscribe(s, l) == s.(listeners := s.listeners + {l})
    ensures
      var u := Subscribe(s, l);
      s.listeners == {} ==>
        && u.listeners == {l} && u.abort == Some(s.nextId) && u.standing == Connecting && s.nextId !in s.running
        && u.running.Keys == s.running.Keys + {s.nextId} && u.running[s.nextId] == CALLED
        && u.timers == s.timers == map[] && s.abort == None
  {
    hide StreamsRight, Covered;
    var more := s.(listeners := s.listeners + {l});
    assert |more.listeners| == |s.listeners| + 1;
    assert s.listeners != {} ==> |s.listeners| > 0;
    assert s.listeners == {} ==> more.listeners == {l};
  }

  /** The last to stop listening turns all of it off: no timer left pending, every
      connection given up, no hello remembered. */
  lemma UnsubscribeWhere(s: State, l: nat)
    requires Good(s)
    ensures Next(s, Unsubscribes(l)) == Unsubscribe(s, l)
    ensures s.listeners != {} && s.listeners != {l} ==> Unsubscribe(s, l) == s.(listeners := s.listeners - {l})
    ensures
      var u := Unsubscribe(s, l);
      s.listeners <= {l} ==>
        && u.listeners == {} && u.timers == map[] && u.abort == None && u.standing == Off && !u.heardOnce
        && u.failures == 0 && u.running.Keys == s.running.Keys
        && (forall c :: c in u.running ==> u.running[c].aborted)
        && !u.owed && !u.unread
  {
    hide StreamsRight, Covered;
    var less := s.(listeners := s.listeners - {l});
    if s.listeners <= {l} {
      assert less.listeners == {};
    } else {
      var m :| m in s.listeners && m != l;
      assert m in less.listeners;
    }
  }

  // ---------- Endings, and how many failed ----------

  /** The end of any connection but the current one changes nothing else. The current
      one's is followed by a wait to try again: after a hello the channel says it is
      connecting, and without one that it polls, an interval runs, and it counts. */
  lemma EndWhere(s: State, c: nat)
    requires Good(s) && c in s.running
    ensures s.abort != Some(c) ==> End(s, c) == s.(running := s.running - {c})
    ensures
      var u := End(s, c);
      s.abort == Some(c) ==>
        && u.abort == None && c !in u.running && u.heardOnce == s.heardOnce && u.settling == s.settling
        && u.retrying.Some? && u.retrying.value !in s.timers && u.retrying.value in u.timers
        && u.timers[u.retrying.value] == Retry && u.owed == s.owed && u.unread == s.unread
        && (if s.running[c].hello then
              && u.standing == Connecting && u.failures == s.failures && u.polling == None
            else
              && u.standing == Polling && u.failures == s.failures + 1
              && u.polling.Some? && u.polling.value in u.timers && u.timers[u.polling.value] == Poll
              && (s.polling.Some? ==> u.polling == s.polling))
  {
    hide StreamsRight, Covered;
  }

  /** The endings without a hello are counted, one after another, and the count is begun
      again by a hello, by a nudge that tries again, and when nobody is left listening. */
  lemma FailuresCounted(s: State, e: Event)
    requires Good(s) && Enabled(s, e)
    ensures
      Next(s, e).failures ==
      match e
      case Ends(c) => if s.abort == Some(c) && !s.running[c].hello then s.failures + 1 else s.failures
      case Delivers(c, n) => if Hello in s.running[c].queue[..n] then 0 else s.failures
      case Nudges => if s.standing == Polling then 0 else s.failures
      case Unsubscribes(l) => if s.listeners <= {l} then 0 else s.failures
      case _ => s.failures
  {
    hide Good, Deliver, Subscribe, Unsubscribe, Nudge, Fire, End;
    match e
    case Subscribes(l) => SubscribeCounts(s, l);
    case Unsubscribes(l) => UnsubscribeWhere(s, l);
    case Nudges =>
      NudgeTries(s);
      if s.standing == Off {
        OffCountsNothing(s);
      }
    case Fires(t) => FireCounts(s, t);
    case Delivers(c, n) => DeliverWhere(s, c, n);
    case Ends(c) => EndWhere(s, c);
    case _ =>
  }

  lemma OffCountsNothing(s: State)
    requires Good(s) && s.standing == Off
    ensures s.listeners == {}
  {
    hide StreamsRight, Covered;
  }

  lemma SubscribeCounts(s: State, l: nat)
    ensures Subscribe(s, l).failures == s.failures
  {
  }

  lemma FireCounts(s: State, t: nat)
    requires t in s.timers
    ensures Fire(s, t).failures == s.failures
  {
  }

  // ---------- Frames ----------

  /** A chunk with a hello in it makes the channel live, stops the interval and counts no
      failures; with a change in it, or a hello that follows another, a settle is
      pending after. Without either nothing is settled or live that was not. */
  lemma DeliverWhere(s: State, c: nat, n: nat)
    requires Good(s) && c in s.running && !s.running[c].aborted && n <= |s.running[c].queue|
    ensures
      var u, frames := Deliver(s, c, n), s.running[c].queue[..n];
      && u.failures == (if Hello in frames then 0 else s.failures)
      && u.standing == (if Hello in frames then Live else s.standing)
      && u.heardOnce == (Hello in frames || s.heardOnce)
      && u.polling == (if Hello in frames then None else s.polling)
      && (u.settling.Some? <==> s.settling.Some? || Changed in frames || (Hello in frames && s.heardOnce))
      && u.abort == s.abort && u.retrying == s.retrying
  {
    var conn := s.running[c];
    var frames := conn.queue[..n];
    StartsWithHello(s, c, n);
    OneHello(s, c, n);
    hide Good;
    HearAllWhere(s.(running := s.running[c := conn.(queue := conn.queue[n..])]), c, frames);
  }

  /** A hello comes once on a stream, before all else. */
  lemma OneHello(s: State, c: nat, n: nat)
    requires Good(s) && c in s.running && n <= |s.running[c].queue|
    ensures var frames := s.running[c].queue[..n]; frames == [] || Hello !in frames[1..]
  {
    hide Fields, Covered;
    var conn := s.running[c];
    assert StreamRight(conn);
    if n > 0 {
      assert conn.queue[..n][1..] <= conn.queue[1..];
      assert forall f :: f in conn.queue[..n][1..] ==> f in conn.queue[1..];
    }
  }

  lemma {:induction false} HearAllWhere(s: State, c: nat, frames: seq<Sent>)
    requires c in s.running && (frames == [] || Hello !in frames[1..])
    ensures
      var u := HearAll(s, c, frames);
      && u.failures == (if Hello in frames then 0 else s.failures)
      && u.standing == (if Hello in frames then Live else s.standing)
      && u.heardOnce == (Hello in frames || s.heardOnce)
      && u.polling == (if Hello in frames then None else s.polling)
      && (u.settling.Some? <==> s.settling.Some? || Changed in frames || (Hello in frames && s.heardOnce))
      && u.abort == s.abort && u.retrying == s.retrying
    decreases |frames|
  {
    if frames != [] {
      var rest := frames[1..];
      assert forall f :: f in frames <==> f == frames[0] || f in rest;
      assert rest == [] || forall f :: f in rest[1..] ==> f in rest;
      HearAllWhere(Hear(s, c, frames[0]), c, rest);
      HearWhere(s, c, frames[0]);
      hide Hear;
    }
  }

  lemma HearWhere(s: State, c: nat, frame: Sent)
    requires c in s.running
    ensures
      var u := Hear(s, c, frame);
      && u.failures == (if frame == Hello then 0 else s.failures)
      && u.standing == (if frame == Hello then Live else s.standing)
      && u.heardOnce == (frame == Hello || s.heardOnce)
      && u.polling == (if frame == Hello then None else s.polling)
      && (u.settling.Some? <==> s.settling.Some? || frame == Changed || (frame == Hello && s.heardOnce))
      && u.abort == s.abort && u.retrying == s.retrying
  {
    hide Cleared;
  }

  // ---------- Timers ----------

  /** A settle that goes off is gone, and a poll comes again; each tells. The wait to try
      again that is over is gone, and asks for a connection. */
  lemma FireWhere(s: State, t: nat)
    requires Good(s) && t in s.timers
    ensures Next(s, Fires(t)) == Fire(s, t)
    ensures
      var u := Fire(s, t);
      match s.timers[t]
      case Settle => u.settling == None && u.timers == s.timers - {t} && u.running == s.running && !u.owed && !u.unread
      case Poll => u.polling == Some(t) && u.timers == s.timers && u.running == s.running && !u.owed && !u.unread
      case Retry =>
        && u.retrying == None && u.timers == s.timers - {t} && u.abort == Some(s.nextId) && s.nextId !in s.running
        && u.running.Keys == s.running.Keys + {s.nextId} && u.running[s.nextId] == CALLED
        && (forall c :: c in s.running && Some(c) == s.abort ==> u.running[c].aborted)
        && u.owed == s.owed && u.unread == s.unread
  {
    hide StreamsRight, Covered;
  }
}
