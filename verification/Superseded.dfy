/** A connection that another took the place of, and a run as if it had never been. */
module Superseded {
  import opened ChannelRuns
  import opened Options

  /** The state without connection `c`. */
  function Without(s: State, c: nat): State {
    s.(running := s.running - {c})
  }

  /** Asked for once, and given up or followed by another. */
  predicate GivenUp(s: State, c: nat) {
    c < s.nextId && s.abort != Some(c)
  }

  /** Something that befalls connection `c`, and no other. */
  predicate About(e: Event, c: nat) {
    match e
    case Delivers(at, n) => at == c
    case Ends(at) => at == c
    case GivesUp(at) => at == c
    case Opens(at) => at == c
    case Drops(at, n) => at == c
    case Says(at) => at == c
    case _ => false
  }

  /** The rest of what happens. */
  function Others(es: seq<Event>, c: nat): seq<Event> {
    if es == [] then [] else (if About(es[0], c) then [] else [es[0]]) + Others(es[1..], c)
  }

  lemma SetWithout(running: map<nat, Conn>, c: nat, at: nat, conn: Conn)
    requires at != c
    ensures running[at := conn] - {c} == (running - {c})[at := conn]
  {
  }

  lemma HearWithout(s: State, c: nat, at: nat, frame: Sent)
    requires at in s.running && at != c
    ensures Without(Hear(s, at, frame), c) == Hear(Without(s, c), at, frame)
    ensures Hear(s, at, frame).abort == s.abort && Hear(s, at, frame).nextId >= s.nextId
  {
    SetWithout(s.running, c, at, s.running[at].(hello := true, quiet := false));
  }

  lemma {:induction false} HearAllWithout(s: State, c: nat, at: nat, frames: seq<Sent>)
    requires at in s.running && at != c
    ensures Without(HearAll(s, at, frames), c) == HearAll(Without(s, c), at, frames)
    ensures HearAll(s, at, frames).abort == s.abort && HearAll(s, at, frames).nextId >= s.nextId
    decreases |frames|
  {
    if frames != [] {
      HearWithout(s, c, at, frames[0]);
      HearAllWithout(Hear(s, at, frames[0]), c, at, frames[1..]);
    }
  }

  lemma DeliverWithout(s: State, c: nat, at: nat, n: nat)
    requires at in s.running && at != c && n <= |s.running[at].queue|
    ensures Without(Deliver(s, at, n), c) == Deliver(Without(s, c), at, n)
    ensures Deliver(s, at, n).abort == s.abort && Deliver(s, at, n).nextId >= s.nextId
  {
    var conn := s.running[at];
    var rest := conn.(queue := conn.queue[n..]);
    SetWithout(s.running, c, at, rest);
    HearAllWithout(s.(running := s.running[at := rest]), c, at, conn.queue[..n]);
  }

  lemma AbortedWithout(s: State, c: nat)
    requires s.abort != Some(c)
    ensures Aborted(s.running, s.abort) - {c} == Aborted(s.running - {c}, s.abort)
  {
    if s.abort.Some? && s.abort.value in s.running {
      SetWithout(s.running, c, s.abort.value, s.running[s.abort.value].(aborted := true));
    }
  }

  lemma ConnectWithout(s: State, c: nat)
    requires GivenUp(s, c)
    ensures Without(Connect(s), c) == Connect(Without(s, c)) && GivenUp(Connect(s), c)
  {
    AbortedWithout(s, c);
    SetWithout(Aborted(s.running, s.abort), c, s.nextId, CALLED);
  }

  lemma EndWithout(s: State, c: nat, at: nat)
    requires GivenUp(s, c) && at in s.running && at != c
    ensures Without(End(s, at), c) == End(Without(s, c), at) && GivenUp(End(s, at), c)
  {
    assert s.running - {at} - {c} == s.running - {c} - {at};
  }

  lemma SetAway(s: State, c: nat, conn: Conn)
    ensures Without(s.(running := s.running[c := conn]), c) == Without(s, c)
  {
    assert s.running[c := conn] - {c} == s.running - {c};
  }

  /** What befalls a connection given up changes nothing but itself. */
  lemma ItsOwnAffair(s: State, c: nat, e: Event)
    requires OneConnection(s) && GivenUp(s, c) && Enabled(s, e) && About(e, c)
    ensures Without(Next(s, e), c) == Without(s, c) && GivenUp(Next(s, e), c)
  {
    hide Without, Written, Deliver;
    match e
    case Ends(at) => assert Without(End(s, c), c) == Without(s, c) by {
      ItsEnd(s, c);
    }
    case GivesUp(at) => SetAway(s, c, s.running[c].(quiet := false, aborted := true));
    case Opens(at) => SetAway(s, c, s.running[c].(begun := true, up := true, queue := [Hello]));
    case Drops(at, n) => SetAway(s, c, s.running[c].(up := false, queue := s.running[c].queue[..n]));
    case Says(at) => SetAway(s, c, Written(s.running[c], Other));
    case _ =>
  }

  lemma ItsEnd(s: State, c: nat)
    requires GivenUp(s, c) && c in s.running
    ensures Without(End(s, c), c) == Without(s, c)
  {
    assert s.running - {c} - {c} == s.running - {c};
  }

  /** Every other event does the same whether or not the given-up call is there. */
  lemma OthersAffair(s: State, c: nat, e: Event)
    requires GivenUp(s, c) && Enabled(s, e) && !About(e, c)
    ensures Enabled(Without(s, c), e)
    ensures Without(Next(s, e), c) == Next(Without(s, c), e) && GivenUp(Next(s, e), c)
  {
    hide Connect, Stop, Aborted, HearAll, Hear, Deliver, End, WriteAll, Written, Subscribe, Unsubscribe, Nudge, Fire;
    match e
    case Subscribes(l) => SubscribeWithout(s, c, l);
    case Unsubscribes(l) => UnsubscribeWithout(s, c, l);
    case Nudges => NudgeWithout(s, c);
    case Delivers(at, n) => DeliverWithout(s, c, at, n);
    case Ends(at) => EndWithout(s, c, at);
    case GivesUp(at) => SetWithout(s.running, c, at, s.running[at].(quiet := false, aborted := true));
    case Fires(t) => FireWithout(s, c, t);
    case Opens(at) => SetWithout(s.running, c, at, s.running[at].(begun := true, up := true, queue := [Hello]));
    case Drops(at, n) => SetWithout(s.running, c, at, s.running[at].(up := false, queue := s.running[at].queue[..n]));
    case Changes => ChangeWithout(s, c);
    case Says(at) => SetWithout(s.running, c, at, Written(s.running[at], Other));
  }

  lemma SubscribeWithout(s: State, c: nat, l: nat)
    requires GivenUp(s, c)
    ensures Without(Subscribe(s, l), c) == Subscribe(Without(s, c), l) && GivenUp(Subscribe(s, l), c)
  {
    hide Connect;
    ConnectWithout(s.(listeners := s.listeners + {l}), c);
  }

  lemma UnsubscribeWithout(s: State, c: nat, l: nat)
    requires GivenUp(s, c)
    ensures Without(Unsubscribe(s, l), c) == Unsubscribe(Without(s, c), l) && GivenUp(Unsubscribe(s, l), c)
  {
    hide Stop;
    StopWithout(s.(listeners := s.listeners - {l}), c);
  }

  lemma NudgeWithout(s: State, c: nat)
    requires GivenUp(s, c)
    ensures Without(Nudge(s), c) == Nudge(Without(s, c)) && GivenUp(Nudge(s), c)
  {
    hide Connect;
    ConnectWithout(Tell(s).(failures := 0, timers := Cleared(s.timers, s.retrying), retrying := None), c);
  }

  lemma FireWithout(s: State, c: nat, t: nat)
    requires GivenUp(s, c) && t in s.timers
    ensures Without(Fire(s, t), c) == Fire(Without(s, c), t) && GivenUp(Fire(s, t), c)
  {
    hide Connect;
    ConnectWithout(s.(timers := s.timers - {t}), c);
  }

  lemma ChangeWithout(s: State, c: nat)
    ensures Without(Change(s), c) == Change(Without(s, c))
  {
    hide Written;
    assert WriteAll(s.running, Changed) - {c} == WriteAll(s.running - {c}, Changed);
  }

  lemma StopWithout(s: State, c: nat)
    requires GivenUp(s, c)
    ensures Without(Stop(s), c) == Stop(Without(s, c)) && GivenUp(Stop(s), c)
  {
    AbortedWithout(s, c);
  }

  /** Whatever a connection given up goes on to do, and whenever it ends, a run goes as
      the rest of it would have without the connection: the same listeners told, the
      same timers, the same standing, and every other connection alike. */
  lemma {:induction false} AsIfItHadNeverBeen(s: State, c: nat, es: seq<Event>, last: State)
    requires Good(s) && GivenUp(s, c) && Run(s, es, last)
    ensures Run(Without(s, c), Others(es, c), Without(last, c))
    decreases |es|
  {
    if es != [] {
      var e, u := es[0], Next(s, es[0]);
      hide Next, Enabled, About, GivenUp, Without;
      assert OneConnection(s);
      NextKeeps(s, e);
      if About(e, c) {
        ItsOwnAffair(s, c, e);
        AsIfItHadNeverBeen(u, c, es[1..], last);
        assert [] + Others(es[1..], c) == Others(es[1..], c);
      } else {
        OthersAffair(s, c, e);
        AsIfItHadNeverBeen(u, c, es[1..], last);
        assert ([e] + Others(es[1..], c))[1..] == Others(es[1..], c);
      }
    }
  }
}
