/** The change channel as a state machine: a step for each event, and what holds however
    they interleave.

    A state holds the channel's own fields, and beside them what it runs among:
    the timers pending, the calls to `connect` not yet finished with what the
    server has written to each and the device has not read, whether anything has
    changed since listeners were last told, and whether they are owed a telling. */
module ChannelRuns {
  import opened Options

  datatype Standing = Off | Connecting | Live | Polling

  datatype Timer = Settle | Poll | Retry

  /** What the server writes that the channel acts on; every other event is `Other`. */
  datatype Sent = Hello | Changed | Other

  /** One call to `connect`. `quiet`, its wait for a hello is pending; `begun`, the
      server has answered it with a stream, which says hello first; `up`, the
      server still writes to that. */
  datatype Conn = Conn(hello: bool, quiet: bool, aborted: bool, begun: bool, up: bool, queue: seq<Sent>)

  const CALLED := Conn(false, true, false, false, false, [])

  datatype State = State(
    listeners: set<nat>, abort: Option<nat>, failures: nat, heardOnce: bool,
    settling: Option<nat>, polling: Option<nat>, retrying: Option<nat>, standing: Standing,
    timers: map<nat, Timer>, running: map<nat, Conn>, nextId: nat, owed: bool, unread: bool)

  const START := State({}, None, 0, false, None, None, None, Off, map[], map[], 0, false, false)

  // ---------- What each thing does ----------

  function Aborted(running: map<nat, Conn>, c: Option<nat>): map<nat, Conn> {
    if c.Some? && c.value in running then running[c.value := running[c.value].(aborted := true)] else running
  }

  function Cleared(timers: map<nat, Timer>, t: Option<nat>): map<nat, Timer> {
    if t.Some? then timers - {t.value} else timers
  }

  /** A stream asked for; whatever went before is given up. */
  function Connect(s: State): State {
    var c := s.nextId;
    s.(running := Aborted(s.running, s.abort)[c := CALLED],
       abort := Some(c),
       nextId := c + 1,
       retrying := None,
       standing := if s.standing == Polling then Polling else Connecting)
  }

  function Stop(s: State): State {
    s.(running := Aborted(s.running, s.abort),
       abort := None,
       timers := Cleared(Cleared(Cleared(s.timers, s.settling), s.retrying), s.polling),
       settling := None, retrying := None, polling := None,
       failures := 0, heardOnce := false, standing := Off, owed := false, unread := false)
  }

  function Subscribe(s: State, l: nat): State {
    var more := s.(listeners := s.listeners + {l});
    if |more.listeners| == 1 then Connect(more) else more
  }

  function Unsubscribe(s: State, l: nat): State {
    var less := s.(listeners := s.listeners - {l});
    if |less.listeners| == 0 then Stop(less) else less
  }

  /** Every listener reads again, so nothing is owed. */
  function Tell(s: State): State {
    s.(owed := false, unread := false)
  }

  function Nudge(s: State): State {
    if |s.listeners| == 0 then s
    else if s.standing == Live || s.standing == Connecting then Tell(s)
    else Connect(Tell(s).(failures := 0, timers := Cleared(s.timers, s.retrying), retrying := None))
  }

  function StartSettle(s: State): State {
    if s.settling.Some? then s
    else s.(timers := s.timers[s.nextId := Settle], settling := Some(s.nextId), nextId := s.nextId + 1)
  }

  function StartPoll(s: State): State {
    if s.polling.Some? then s.(standing := Polling)
    else s.(standing := Polling, timers := s.timers[s.nextId := Poll], polling := Some(s.nextId),
                nextId := s.nextId + 1)
  }

  function StartRetry(s: State): State {
    s.(timers := s.timers[s.nextId := Retry], retrying := Some(s.nextId), nextId := s.nextId + 1)
  }

  /** One frame read off connection `c`. */
  function Hear(s: State, c: nat, frame: Sent): State
    requires c in s.running
    ensures c in Hear(s, c, frame).running
  {
    match frame
    case Hello =>
      var live := s.(running := s.running[c := s.running[c].(hello := true, quiet := false)],
                     failures := 0, standing := Live,
                     timers := Cleared(s.timers, s.polling), polling := None);
      (if s.heardOnce then StartSettle(live) else live).(heardOnce := true)
    case Changed => StartSettle(s)
    case Other => s
  }

  function HearAll(s: State, c: nat, frames: seq<Sent>): State
    requires c in s.running
    ensures c in HearAll(s, c, frames).running
    decreases |frames|
  {
    if frames == [] then s else HearAll(Hear(s, c, frames[0]), c, frames[1..])
  }

  /** A chunk of `n` frames is delivered, and the loop it wakes runs. */
  function Deliver(s: State, c: nat, n: nat): State
    requires c in s.running && n <= |s.running[c].queue|
  {
    var conn := s.running[c];
    HearAll(s.(running := s.running[c := conn.(queue := conn.queue[n..])]), c, conn.queue[..n])
  }

  /** A call to `connect` finishes: its stream ended, failed or was given up. */
  function End(s: State, c: nat): State
    requires c in s.running
  {
    var hello, gone := s.running[c].hello, s.(running := s.running - {c});
    if s.abort != Some(c) then gone
    else if hello then StartRetry(gone.(abort := None, standing := Connecting))
    else StartRetry(StartPoll(gone.(abort := None, failures := s.failures + 1)))
  }

  /** The wait for a hello is over without one. */
  function GiveUp(s: State, c: nat): State
    requires c in s.running
  {
    s.(running := s.running[c := s.running[c].(quiet := false, aborted := true)])
  }

  function Fire(s: State, t: nat): State
    requires t in s.timers
  {
    match s.timers[t]
    case Settle => Tell(s.(timers := s.timers - {t}, settling := None))
    case Poll => Tell(s)
    case Retry => Connect(s.(timers := s.timers - {t}))
  }

  // The server's side.

  function Open(s: State, c: nat): State
    requires c in s.running
  {
    s.(running := s.running[c := s.running[c].(begun := true, up := true, queue := [Hello])])
  }

  /** The server stops writing to a stream; some of what it wrote may be lost. */
  function Drop(s: State, c: nat, kept: nat): State
    requires c in s.running && kept <= |s.running[c].queue|
  {
    s.(running := s.running[c := s.running[c].(up := false, queue := s.running[c].queue[..kept])])
  }

  function Written(conn: Conn, frame: Sent): Conn {
    if conn.up then conn.(queue := conn.queue + [frame]) else conn
  }

  function WriteAll(running: map<nat, Conn>, frame: Sent): map<nat, Conn> {
    map c | c in running :: Written(running[c], frame)
  }

  /** Something changed: said on every stream that is up, not read yet by anybody
      listening, and owed to them if they have had their first hello. */
  function Change(s: State): State {
    s.(running := WriteAll(s.running, Changed), owed := s.owed || s.heardOnce, unread := s.listeners != {})
  }

  // ---------- Runs ----------

  datatype Event =
    | Subscribes(l: nat)
    | Unsubscribes(l: nat)
    | Nudges
    | Delivers(c: nat, n: nat)
    | Ends(c: nat)
    | GivesUp(c: nat)
    | Fires(t: nat)
    | Opens(c: nat)
    | Drops(c: nat, kept: nat)
    | Changes
    | Says(c: nat)

  /** Each subscription is a fresh listener; an aborted connection delivers nothing
      more; a stream is begun once, and says hello once. */
  predicate Enabled(s: State, e: Event) {
    match e
    case Subscribes(l) => l !in s.listeners
    case Unsubscribes(l) => true
    case Nudges => true
    case Delivers(c, n) => c in s.running && !s.running[c].aborted && n <= |s.running[c].queue|
    case Ends(c) => c in s.running
    case GivesUp(c) => c in s.running && s.running[c].quiet
    case Fires(t) => t in s.timers
    case Opens(c) => c in s.running && !s.running[c].begun
    case Drops(c, kept) => c in s.running && kept <= |s.running[c].queue|
    case Changes => true
    case Says(c) => c in s.running && s.running[c].up
  }

  function Next(s: State, e: Event): State
    requires Enabled(s, e)
  {
    match e
    case Subscribes(l) => Subscribe(s, l)
    case Unsubscribes(l) => Unsubscribe(s, l)
    case Nudges => Nudge(s)
    case Delivers(c, n) => Deliver(s, c, n)
    case Ends(c) => End(s, c)
    case GivesUp(c) => GiveUp(s, c)
    case Fires(t) => Fire(s, t)
    case Opens(c) => Open(s, c)
    case Drops(c, kept) => Drop(s, c, kept)
    case Changes => Change(s)
    case Says(c) => s.(running := s.running[c := Written(s.running[c], Other)])
  }

  ghost predicate Run(s: State, es: seq<Event>, last: State)
    decreases |es|
  {
    if es == [] then s == last else Enabled(s, es[0]) && Run(Next(s, es[0]), es[1..], last)
  }

  // ---------- What holds in every state ----------

  /** The timers pending are the ones the channel holds, each of its kind: none is
      left to fire that nothing would clear. */
  ghost predicate TimersHeld(s: State) {
    && (s.settling.Some? ==> s.settling.value in s.timers && s.timers[s.settling.value] == Settle)
    && (s.polling.Some? ==> s.polling.value in s.timers && s.timers[s.polling.value] == Poll)
    && (s.retrying.Some? ==> s.retrying.value in s.timers && s.timers[s.retrying.value] == Retry)
    && (forall t :: t in s.timers ==>
      t < s.nextId && (s.settling == Some(t) || s.polling == Some(t) || s.retrying == Some(t)))
  }

  /** Only the current connection may still deliver; the rest have been aborted. */
  ghost predicate OneConnection(s: State) {
    && (s.abort.Some? ==> s.abort.value in s.running)
    && (forall c :: c in s.running ==> c < s.nextId && (!s.running[c].aborted ==> s.abort == Some(c)))
  }

  ghost predicate NobodyListening(s: State) {
    && s.standing == Off && s.abort == None && s.failures == 0 && !s.heardOnce && !s.owed
    && s.settling == None && s.polling == None && s.retrying == None
  }

  /** Either a connection or a wait to try again: never stuck, never both. */
  ghost predicate SomebodyListening(s: State) {
    && s.standing != Off
    && (s.abort.Some? <==> s.retrying == None)
  }

  ghost predicate StandingRight(s: State) {
    && (s.standing == Polling <==> s.polling.Some?)
    && (s.standing == Live <==> s.abort.Some? && s.abort.value in s.running && s.running[s.abort.value].hello)
  }

  /** What one of the server's streams looks like: hello first, once. */
  ghost predicate StreamRight(conn: Conn) {
    && (conn.up ==> conn.begun)
    && (conn.hello ==> conn.begun && Hello !in conn.queue && !conn.quiet)
    && (!conn.begun ==> conn.queue == [])
    && (conn.up && !conn.hello ==> conn.queue != [])
    && (conn.queue != [] && !conn.hello ==> conn.queue[0] == Hello && Hello !in conn.queue[1..])
  }

  ghost predicate StreamsRight(s: State) {
    forall c :: c in s.running ==> StreamRight(s.running[c])
  }

  /** The channel's own fields and timers. */
  ghost predicate Fields(s: State) {
    && TimersHeld(s) && OneConnection(s) && StandingRight(s)
    && (if s.listeners == {} then NobodyListening(s) else SomebodyListening(s))
    && (s.standing == Live ==> s.heardOnce)
    && (s.settling.Some? ==> s.heardOnce)
  }

  ghost predicate Sound(s: State) {
    Fields(s) && StreamsRight(s)
  }

  /** The current stream has a `changed` on it that has not been read. */
  ghost predicate ChangedComing(s: State) {
    s.abort.Some? && s.abort.value in s.running && Changed in s.running[s.abort.value].queue
  }

  /** There is no live stream: none asked for, none that has said hello here, or one
      the server no longer writes to. */
  ghost predicate NoLiveStream(s: State) {
    s.abort.Some? && s.abort.value in s.running ==>
      !s.running[s.abort.value].hello || !s.running[s.abort.value].up
  }

  /** A change that is owed will be told: a telling is pending, word of it is
      coming, or the next hello will bring one. */
  ghost predicate Covered(s: State) {
    s.settling.Some? || ChangedComing(s) || (s.heardOnce && NoLiveStream(s))
  }

  ghost predicate Good(s: State) {
    Sound(s) && (s.owed ==> s.heardOnce && Covered(s))
  }

  // ---------- What each thing keeps ----------

  lemma ConnectKeeps(s: State)
    requires TimersHeld(s) && OneConnection(s) && StreamsRight(s)
    requires s.listeners != {} && s.retrying == None
    requires s.standing == Polling <==> s.polling.Some?
    requires s.settling.Some? ==> s.heardOnce
    requires s.owed ==> s.heardOnce
    ensures Good(Connect(s))
    ensures Connect(s).abort.Some? && NoLiveStream(Connect(s))
  {
  }

  lemma StopKeeps(s: State)
    requires TimersHeld(s) && OneConnection(s) && StreamsRight(s) && s.listeners == {}
    ensures Good(Stop(s))
  {
  }

  lemma SubscribeKeeps(s: State, l: nat)
    requires Good(s) && l !in s.listeners
    ensures Good(Subscribe(s, l))
  {
    var more := s.(listeners := s.listeners + {l});
    assert |more.listeners| == |s.listeners| + 1;
    if s.listeners == {} {
      ConnectKeeps(more);
    } else {
      assert |s.listeners| > 0;
    }
  }

  lemma UnsubscribeKeeps(s: State, l: nat)
    requires Good(s)
    ensures Good(Unsubscribe(s, l))
  {
    var less := s.(listeners := s.listeners - {l});
    if less.listeners == {} {
      StopKeeps(less);
    } else {
      assert s.listeners != {};
    }
  }

  lemma NudgeKeeps(s: State)
    requires Good(s)
    ensures Good(Nudge(s))
    ensures !Nudge(s).owed
  {
    if s.listeners != {} && s.standing == Polling {
      ConnectKeeps(Tell(s).(failures := 0, timers := Cleared(s.timers, s.retrying), retrying := None));
    }
  }

  lemma SettledKeeps(s: State, t: nat)
    requires Good(s) && t in s.timers && s.timers[t] == Settle
    ensures Good(Fire(s, t)) && !Fire(s, t).owed
  {
    hide StreamRight, Covered;
  }

  lemma PolledKeeps(s: State, t: nat)
    requires Good(s) && t in s.timers && s.timers[t] == Poll
    ensures Good(Fire(s, t)) && !Fire(s, t).owed
  {
    hide StreamRight, Covered;
  }

  lemma RetriedKeeps(s: State, t: nat)
    requires Good(s) && t in s.timers && s.timers[t] == Retry
    ensures Good(Fire(s, t))
  {
    var waited := s.(timers := s.timers - {t}, retrying := None);
    WaitOver(s, t);
    hide TimersHeld, OneConnection, StreamsRight;
    ConnectKeeps(waited);
    assert Connect(s.(timers := s.timers - {t})) == Connect(waited);
  }

  lemma WaitOver(s: State, t: nat)
    requires Good(s) && t in s.timers && s.timers[t] == Retry
    ensures
      var waited := s.(timers := s.timers - {t}, retrying := None);
      TimersHeld(waited) && OneConnection(waited) && StreamsRight(waited) && s.listeners != {}
  {
    hide StreamRight, Covered;
  }

  lemma FireKeeps(s: State, t: nat)
    requires Good(s) && t in s.timers
    ensures Good(Fire(s, t))
  {
    hide Good, Fire;
    match s.timers[t]
    case Settle => SettledKeeps(s, t);
    case Poll => PolledKeeps(s, t);
    case Retry => RetriedKeeps(s, t);
  }

  lemma StartRetryKeeps(s: State)
    requires TimersHeld(s) && OneConnection(s) && StandingRight(s) && StreamsRight(s)
    requires s.listeners != {} && s.standing != Off && s.abort == None && s.retrying == None
    requires s.settling.Some? ==> s.heardOnce
    requires s.owed ==> s.heardOnce
    ensures Good(StartRetry(s))
  {
  }

  lemma StartPollKeeps(s: State)
    requires TimersHeld(s) && OneConnection(s) && StreamsRight(s) && s.abort == None
    requires s.standing == Polling <==> s.polling.Some?
    ensures
      var t := StartPoll(s);
      && TimersHeld(t) && OneConnection(t) && StandingRight(t) && StreamsRight(t)
      && t == s.(standing := Polling, timers := t.timers, polling := t.polling, nextId := t.nextId)
  {
  }

  /** The current connection gone, before what follows its end. */
  function Gone(s: State, c: nat, standing: Standing, failures: nat): State {
    s.(running := s.running - {c}, abort := None, standing := standing, failures := failures)
  }

  lemma CurrentGone(s: State, c: nat, standing: Standing, failures: nat)
    requires Good(s) && s.abort == Some(c)
    ensures
      var gone := Gone(s, c, standing, failures);
      && TimersHeld(gone) && OneConnection(gone) && StreamsRight(gone)
      && s.listeners != {} && s.standing != Off && s.retrying == None
      && (s.standing == Polling <==> s.polling.Some?)
      && (s.running[c].hello <==> s.standing == Live)
      && (s.settling.Some? ==> s.heardOnce) && (s.owed ==> s.heardOnce)
  {
    hide StreamRight;
  }

  lemma HeardEndKeeps(s: State, c: nat)
    requires Good(s) && s.abort == Some(c) && c in s.running && s.running[c].hello
    ensures Good(End(s, c))
  {
    CurrentGone(s, c, Connecting, s.failures);
    hide Good, TimersHeld, OneConnection, StreamsRight, StartRetry;
    var gone := Gone(s, c, Connecting, s.failures);
    assert StandingRight(gone);
    StartRetryKeeps(gone);
    assert End(s, c) == StartRetry(gone);
  }

  lemma UnheardEndKeeps(s: State, c: nat)
    requires Good(s) && s.abort == Some(c) && c in s.running && !s.running[c].hello
    ensures Good(End(s, c))
  {
    CurrentGone(s, c, s.standing, s.failures + 1);
    hide Good, TimersHeld, OneConnection, StreamsRight, StandingRight, StartRetry, StartPoll;
    var gone := Gone(s, c, s.standing, s.failures + 1);
    StartPollKeeps(gone);
    StartRetryKeeps(StartPoll(gone));
    assert End(s, c) == StartRetry(StartPoll(gone));
  }

  lemma EndKeeps(s: State, c: nat)
    requires Good(s) && c in s.running
    ensures Good(End(s, c))
  {
    hide StreamRight;
    if s.abort == Some(c) {
      hide Good, End;
      if s.running[c].hello {
        HeardEndKeeps(s, c);
      } else {
        UnheardEndKeeps(s, c);
      }
    }
  }

  lemma GiveUpKeeps(s: State, c: nat)
    requires Good(s) && c in s.running && s.running[c].quiet
    ensures Good(GiveUp(s, c))
  {
  }

  lemma OpenKeeps(s: State, c: nat)
    requires Good(s) && c in s.running && !s.running[c].begun
    ensures Good(Open(s, c))
  {
  }

  lemma DropKeeps(s: State, c: nat, kept: nat)
    requires Good(s) && c in s.running && kept <= |s.running[c].queue|
    ensures Good(Drop(s, c, kept))
  {
  }

  lemma WrittenRight(conn: Conn, frame: Sent)
    requires StreamRight(conn) && frame != Hello
    ensures StreamRight(Written(conn, frame))
  {
    if conn.up && conn.queue != [] {
      assert (conn.queue + [frame])[1..] == conn.queue[1..] + [frame];
    }
  }

  lemma ChangeKeeps(s: State)
    requires Good(s)
    ensures Good(Change(s))
  {
    var t := Change(s);
    forall c | c in t.running
      ensures StreamRight(t.running[c])
    {
      WrittenRight(s.running[c], Changed);
    }
    hide StreamRight;
    assert Fields(t);
    if t.owed && s.abort.Some? && !NoLiveStream(s) {
      var conn := s.running[s.abort.value];
      assert t.running[s.abort.value].queue == conn.queue + [Changed];
    }
  }

  lemma SaysKeeps(s: State, c: nat)
    requires Good(s) && c in s.running
    ensures Good(s.(running := s.running[c := Written(s.running[c], Other)]))
  {
    WrittenRight(s.running[c], Other);
    hide StreamRight;
  }

  lemma StartSettleKeeps(s: State)
    requires Fields(s) && s.heardOnce && s.listeners != {}
    ensures
      var t := StartSettle(s);
      && Fields(t) && t.settling.Some?
      && t == s.(settling := t.settling, timers := t.timers, nextId := t.nextId)
  {
  }

  /** Live, from a hello: the interval stopped, whatever the standing was. */
  lemma LiveKeeps(s: State, c: nat)
    requires Fields(s) && s.abort == Some(c) && c in s.running
    ensures
      var live := s.(running := s.running[c := s.running[c].(hello := true, quiet := false)],
                     failures := 0, standing := Live,
                     timers := Cleared(s.timers, s.polling), polling := None, heardOnce := true);
      Fields(live) && live.listeners != {}
  {
  }

  /** A frame read off the current connection. */
  lemma HearKeeps(s: State, c: nat, frame: Sent)
    requires Fields(s) && s.abort == Some(c) && c in s.running && (frame == Hello || s.running[c].hello)
    ensures
      var t := Hear(s, c, frame);
      && Fields(t) && t.abort == Some(c) && t.listeners == s.listeners && t.owed == s.owed
      && t.running == s.running[c := s.running[c].(hello := s.running[c].hello || frame == Hello,
                                                   quiet := s.running[c].quiet && frame != Hello)]
      && (s.settling.Some? || frame == Changed || (s.heardOnce && frame == Hello) ==> t.settling.Some?)
      && (s.heardOnce ==> t.heardOnce)
  {
    assert s.listeners != {} && (s.running[c].hello ==> s.heardOnce);
    hide Fields;
    assert s.running == s.running[c := s.running[c]];
    match frame
    case Hello =>
      LiveKeeps(s, c);
      var live := s.(running := s.running[c := s.running[c].(hello := true, quiet := false)],
                     failures := 0, standing := Live,
                     timers := Cleared(s.timers, s.polling), polling := None, heardOnce := true);
      StartSettleKeeps(live);
    case Changed => StartSettleKeeps(s);
    case Other =>
  }

  /** A chunk of frames read, one after the other. */
  lemma {:induction false} HearAllKeeps(s: State, c: nat, frames: seq<Sent>)
    requires Fields(s) && s.abort == Some(c) && c in s.running
    requires s.running[c].hello || frames == [] || frames[0] == Hello
    ensures
      var t := HearAll(s, c, frames);
      && Fields(t) && t.abort == Some(c) && t.listeners == s.listeners && t.owed == s.owed
      && t.running == s.running[c := s.running[c].(hello := s.running[c].hello || Hello in frames,
                                                   quiet := s.running[c].quiet && Hello !in frames)]
      && (s.settling.Some? || Changed in frames || (s.heardOnce && Hello in frames) ==> t.settling.Some?)
      && (s.heardOnce ==> t.heardOnce)
    decreases |frames|
  {
    hide Fields, Hear;
    if frames == [] {
      assert s.running == s.running[c := s.running[c]];
    } else {
      HearKeeps(s, c, frames[0]);
      HearAllKeeps(Hear(s, c, frames[0]), c, frames[1..]);
      assert frames == [frames[0]] + frames[1..];
    }
  }

  lemma CutKeeps(s: State, c: nat, rest: seq<Sent>)
    requires Good(s) && c in s.running && !s.running[c].aborted
    ensures s.abort == Some(c) && Fields(s.(running := s.running[c := s.running[c].(queue := rest)]))
  {
    hide StreamRight, Covered;
  }

  lemma DeliveredCovered(s: State, c: nat, n: nat, t: State)
    requires Good(s) && s.abort == Some(c) && c in s.running && n <= |s.running[c].queue|
    requires
      var conn, frames := s.running[c], s.running[c].queue[..n];
      && t.running == s.running[c := conn.(queue := conn.queue[n..], hello := conn.hello || Hello in frames,
                                           quiet := conn.quiet && Hello !in frames)]
      && (s.settling.Some? || Changed in frames || (s.heardOnce && Hello in frames) ==> t.settling.Some?)
    requires Fields(t) && t.abort == Some(c) && t.owed == s.owed && (s.heardOnce ==> t.heardOnce)
    ensures Good(t)
  {
    var conn := s.running[c];
    assert StreamRight(conn);
    DeliveredRight(conn, n);
    hide Fields, StreamRight;
    assert StreamsRight(t);
    assert conn.queue == conn.queue[..n] + conn.queue[n..];
  }

  lemma DeliverKeeps(s: State, c: nat, n: nat)
    requires Good(s) && c in s.running && !s.running[c].aborted && n <= |s.running[c].queue|
    ensures Good(Deliver(s, c, n))
    ensures s.heardOnce && Hello in s.running[c].queue[..n] ==> Deliver(s, c, n).settling.Some?
  {
    var conn := s.running[c];
    var frames, rest := conn.queue[..n], conn.queue[n..];
    var cut := s.(running := s.running[c := conn.(queue := rest)]);
    CutKeeps(s, c, rest);
    StartsWithHello(s, c, n);
    hide Good, Fields, HearAll;
    HearAllKeeps(cut, c, frames);
    assert HearAll(cut, c, frames).running
        == s.running[c := conn.(queue := rest, hello := conn.hello || Hello in frames,
                                quiet := conn.quiet && Hello !in frames)];
    DeliveredCovered(s, c, n, HearAll(cut, c, frames));
  }

  lemma StartsWithHello(s: State, c: nat, n: nat)
    requires Good(s) && c in s.running && n <= |s.running[c].queue|
    ensures var frames := s.running[c].queue[..n]; s.running[c].hello || frames == [] || frames[0] == Hello
  {
    hide Fields;
    assert StreamRight(s.running[c]);
    DeliveredRight(s.running[c], n);
  }

  lemma DeliveredRight(conn: Conn, n: nat)
    requires StreamRight(conn) && n <= |conn.queue|
    ensures StreamRight(conn.(queue := conn.queue[n..], hello := conn.hello || Hello in conn.queue[..n],
                              quiet := conn.quiet && Hello !in conn.queue[..n]))
    ensures conn.hello || conn.queue[..n] == [] || conn.queue[..n][0] == Hello
  {
    if n > 0 {
      assert conn.queue[..n][0] == conn.queue[0];
      assert forall f :: f in conn.queue[n..] ==> f in conn.queue[1..];
    } else {
      assert conn.queue[0..] == conn.queue;
    }
  }

  lemma NextKeeps(s: State, e: Event)
    requires Good(s) && Enabled(s, e)
    ensures Good(Next(s, e))
  {
    hide Good;
    match e
    case Subscribes(l) => SubscribeKeeps(s, l);
    case Unsubscribes(l) => UnsubscribeKeeps(s, l);
    case Nudges => NudgeKeeps(s);
    case Delivers(c, n) => DeliverKeeps(s, c, n);
    case Ends(c) => EndKeeps(s, c);
    case GivesUp(c) => GiveUpKeeps(s, c);
    case Fires(t) => FireKeeps(s, t);
    case Opens(c) => OpenKeeps(s, c);
    case Drops(c, kept) => DropKeeps(s, c, kept);
    case Changes => ChangeKeeps(s);
    case Says(c) => SaysKeeps(s, c);
  }

  // ---------- Over every run ----------

  /** However the things that can happen follow one another, the channel is sound:
      nobody listening, it is off with nothing pending; somebody, it has either a
      connection or a wait, it is polling just while the interval runs and live
      only on a connection that said hello; and no change is left unheard. */
  lemma {:induction false} EveryRunGood(s: State, es: seq<Event>, last: State)
    requires Good(s) && Run(s, es, last)
    ensures Good(last)
    decreases |es|
  {
    if es != [] {
      NextKeeps(s, es[0]);
      EveryRunGood(Next(s, es[0]), es[1..], last);
    }
  }

  lemma FromTheStart(es: seq<Event>, last: State)
    requires Run(START, es, last)
    ensures Good(last)
  {
    EveryRunGood(START, es, last);
  }

  // ---------- Exactly which changes are heard ----------

  /** A run in which somebody is listening throughout. */
  ghost predicate RunListening(s: State, es: seq<Event>, last: State)
    decreases |es|
  {
    && s.listeners != {}
    && if es == [] then s == last else Enabled(s, es[0]) && RunListening(Next(s, es[0]), es[1..], last)
  }

  /** Whatever has not been read since the last telling is on its way. */
  ghost predicate AllCovered(s: State) {
    forall es, last :: RunListening(s, es, last) && last.unread ==> Covered(last)
  }

  /** A hello has been heard, and what is unread is owed. */
  ghost predicate HeardAndOwed(s: State) {
    s.heardOnce && (s.unread ==> s.owed)
  }

  lemma HeardOnceStays(s: State, e: Event)
    requires Enabled(s, e) && HeardAndOwed(s)
    requires s.listeners != {} && Next(s, e).listeners != {}
    ensures HeardAndOwed(Next(s, e))
  {
    hide Subscribe, Unsubscribe, Nudge, Deliver, End, GiveUp, Fire, Open, Drop, Change;
    match e
    case Subscribes(l) => MembershipHeard(s, l);
    case Unsubscribes(l) => MembershipHeard(s, l);
    case Nudges => TellingHeard(s);
    case Delivers(c, n) => DeliverHeard(s, c, n);
    case Ends(c) => EndHeard(s, c);
    case Fires(t) => FireHeard(s, t);
    case GivesUp(c) => StreamHeard(s, c, 0);
    case Opens(c) => StreamHeard(s, c, 0);
    case Drops(c, kept) => StreamHeard(s, c, kept);
    case Changes => TellingHeard(s);
    case Says(c) =>
  }

  lemma MembershipHeard(s: State, l: nat)
    ensures Subscribe(s, l).heardOnce == s.heardOnce
    ensures Subscribe(s, l).unread == s.unread && Subscribe(s, l).owed == s.owed
    ensures
      Unsubscribe(s, l).listeners != {} ==>
        && Unsubscribe(s, l).heardOnce == s.heardOnce
        && Unsubscribe(s, l).unread == s.unread && Unsubscribe(s, l).owed == s.owed
  {
    hide Aborted, Cleared;
  }

  lemma TellingHeard(s: State)
    requires HeardAndOwed(s) && s.listeners != {}
    ensures HeardAndOwed(Nudge(s)) && HeardAndOwed(Change(s))
  {
    hide Aborted, Cleared;
  }

  lemma EndHeard(s: State, c: nat)
    requires c in s.running && HeardAndOwed(s)
    ensures HeardAndOwed(End(s, c))
  {
  }

  lemma FireHeard(s: State, t: nat)
    requires t in s.timers && HeardAndOwed(s)
    ensures HeardAndOwed(Fire(s, t))
  {
    hide Aborted;
  }

  lemma StreamHeard(s: State, c: nat, kept: nat)
    requires c in s.running && HeardAndOwed(s)
    ensures HeardAndOwed(GiveUp(s, c)) && HeardAndOwed(Open(s, c))
    ensures kept <= |s.running[c].queue| ==> HeardAndOwed(Drop(s, c, kept))
  {
  }

  lemma DeliverHeard(s: State, c: nat, n: nat)
    requires c in s.running && n <= |s.running[c].queue|
    ensures
      var t := Deliver(s, c, n);
      (s.heardOnce ==> t.heardOnce) && t.owed == s.owed && t.unread == s.unread
  {
    var conn := s.running[c];
    HearAllHeard(s.(running := s.running[c := conn.(queue := conn.queue[n..])]), c, conn.queue[..n]);
  }

  lemma {:induction false} HearAllHeard(s: State, c: nat, frames: seq<Sent>)
    requires c in s.running
    ensures
      var t := HearAll(s, c, frames);
      (s.heardOnce ==> t.heardOnce) && t.owed == s.owed && t.unread == s.unread
    decreases |frames|
  {
    if frames != [] {
      HearAllHeard(Hear(s, c, frames[0]), c, frames[1..]);
    }
  }

  lemma {:induction false} OwedIsCovered(s: State, es: seq<Event>, last: State)
    requires Good(s) && HeardAndOwed(s)
    requires RunListening(s, es, last)
    ensures last.unread ==> Covered(last)
    decreases |es|
  {
    hide Covered, Sound;
    if es != [] {
      NextKeeps(s, es[0]);
      var t := Next(s, es[0]);
      assert t.listeners != {};
      HeardOnceStays(s, es[0]);
      OwedIsCovered(t, es[1..], last);
    }
  }

  /** Nobody having heard a hello yet, the connection can be lost and the next one
      say the first: live, and the change unread with nothing to bring it. */
  lemma LostBeforeTheFirstHello(s: State) returns (es: seq<Event>, last: State)
    requires Good(s) && s.listeners != {} && !s.heardOnce && s.unread
    ensures RunListening(s, es, last) && last.unread && last.standing == Live && !Covered(last)
  {
    if s.abort.Some? {
      var c := s.abort.value;
      EndKeeps(s, c);
      es, last := LostFromTheWait(End(s, c));
      es := [Ends(c)] + es;
      assert es[1..] == es[1..];
    } else {
      es, last := LostFromTheWait(s);
    }
  }

  lemma LostFromTheWait(s: State) returns (es: seq<Event>, last: State)
    requires Good(s) && s.listeners != {} && !s.heardOnce && s.unread && s.abort == None
    ensures RunListening(s, es, last) && last.unread && last.standing == Live && !Covered(last)
  {
    var t := s.retrying.value;
    var s1 := Fire(s, t);
    FireKeeps(s, t);
    var c := s1.abort.value;
    var s2 := Open(s1, c);
    assert s2.running[c].queue == [Hello];
    last := Deliver(s2, c, 1);
    var cut := s2.(running := s2.running[c := s2.running[c].(queue := [])]);
    assert [Hello][1..] == [] && [Hello][..1] == [Hello];
    assert last == HearAll(cut, c, [Hello]);
    assert [Hello][1..] == [];
    assert HearAll(cut, c, [Hello]) == HearAll(Hear(cut, c, Hello), c, []);
    es := [Fires(t), Opens(c), Delivers(c, 1)];
    assert es[1..] == [Opens(c), Delivers(c, 1)] && es[1..][1..] == [Delivers(c, 1)] && es[1..][1..][1..] == [];
    assert RunListening(last, [], last);
    assert RunListening(s2, [Delivers(c, 1)], last);
    assert RunListening(s1, [Opens(c), Delivers(c, 1)], last);
  }

  /** A change is sure to be heard, whatever happens next, exactly when the
      subscription has had its first hello. */
  lemma HeardExactlyAfterHello(s: State)
    requires Good(s) && s.listeners != {}
    ensures AllCovered(Change(s)) <==> s.heardOnce
  {
    var t := Change(s);
    ChangeKeeps(s);
    hide Good, Covered;
    if s.heardOnce {
      forall es, last | RunListening(t, es, last) && last.unread
        ensures Covered(last)
      {
        OwedIsCovered(t, es, last);
      }
    } else {
      var es, last := LostBeforeTheFirstHello(t);
    }
  }
}
