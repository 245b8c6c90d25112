/** One tab: there, a drain is always alone with what it sends, and only a stale entry can fail it. */
module OneTab {
  import opened Entries
  import opened ExactlyOnce
  import opened Options
  import opened OutboxRuns
  import opened SafeRuns

  /** Nothing is under way outside tab `t`, and there the keys of the presses on their way are marked. */
  ghost predicate OnlyHere(s: State, t: nat) {
    (forall p :: Active(s, p) ==> p.t == t) && Marked(TabOf(s, t))
  }

  /** What happens, happens in tab `t`. */
  predicate Here(t: nat, e: Event) {
    match e
    case Presses(here, n, h) => here == t
    case Drains(here, owner) => here == t
    case DrainReply(here, out) => here == t
    case PressReply(here, n, out) => here == t
    case Reloads(here) => here == t
    case _ => true
  }

  ghost predicate InTab(s: State, t: nat, e: Event) {
    AsPressed(s, e) && Here(t, e)
  }

  /** What the tab can see before it sends: the ids stored of the entry a drain went on
      to, if it did, are the ones it read, as it looks whether that is still kept; and
      an act it presses is not being pressed there, nor sent by its drain. */
  predicate SendsTheStoredIds(s: State, e: Event)
    requires Enabled(s, e)
  {
    && (e.DrainReply? && Active(Next(s, e), ByDrain(e.t)) ==>
          var u, p := Next(s, e), ByDrain(e.t);
          Stored(u.stored, Copy(u, p).key) && Get(u.stored, Copy(u, p).key).ids == Copy(u, p).ids)
    && (e.Presses? ==> !IsSending(TabOf(s, e.t), e.e.key))
  }

  predicate IsSending(tab: Tab, key: Key) {
    key in tab.pressed || (tab.drain.Some? && tab.drain.value.sending.key == key)
  }

  ghost predicate AlwaysSendsTheStoredIds(s: State, es: seq<Event>)
    requires PressedRun(s, es)
    decreases |es|
  {
    es == [] || (SendsTheStoredIds(s, es[0]) && AlwaysSendsTheStoredIds(Next(s, es[0]), es[1..]))
  }

  /** A drain leaves the presses of its own tab to themselves, so there it is alone with what it sends. */
  lemma AloneInOneTab(s: State, t: nat, u: State, owner: string, left: seq<Held>)
    requires OnlyHere(s, t) && u.tabs == s.tabs[t := Advance(u.stored, TabOf(s, t), owner, left)]
    requires Active(u, ByDrain(t))
    ensures Alone(u, ByDrain(t), Copy(u, ByDrain(t)).key)
  {
    var tab := TabOf(s, t);
    AdvanceSends(u.stored, tab, owner, left);
    hide Advance;
    var e := Copy(u, ByDrain(t));
    assert e.key !in tab.pressed;
    forall q | Active(u, q) && q != ByDrain(t)
      ensures Copy(u, q).key != e.key
    {
      assert q.t != t ==> Active(s, q);
    }
  }

  /** The keys marked in a tab are those of the presses on their way. */
  ghost predicate Marked(tab: Tab) {
    && (forall n :: n in tab.nows ==> tab.nows[n].key in tab.pressed)
    && (forall k :: k in tab.pressed ==> exists n :: n in tab.nows && tab.nows[n].key == k)
  }

  /** In one tab, whether anybody is sending an act is there to see. */
  lemma SentIfSending(s: State, t: nat, key: Key)
    requires OnlyHere(s, t)
    ensures NobodySends(s, key) <==> !IsSending(TabOf(s, t), key)
  {
    var tab := TabOf(s, t);
    if key in tab.pressed {
      var n :| n in tab.nows && tab.nows[n].key == key;
      assert Active(s, ByPress(t, n)) && Copy(s, ByPress(t, n)).key == key;
    } else if IsSending(tab, key) {
      assert Active(s, ByDrain(t)) && Copy(s, ByDrain(t)).key == key;
    }
  }

  lemma HereIf(s: State, u: State, t: nat)
    requires OnlyHere(s, t) && OnlyTab(s, u, t)
    ensures OnlyHere(u, t)
  {
    forall p | Active(u, p)
      ensures p.t == t
    {
      assert p.t != t ==> TabOf(u, p.t) == TabOf(s, p.t);
      assert p.t != t ==> Active(s, p);
    }
    if u.tabs == s.tabs {
      assert TabOf(u, t) == TabOf(s, t);
    }
  }

  /** Only tab `t` changed, if any, and the presses there are marked. */
  ghost predicate OnlyTab(s: State, u: State, t: nat) {
    u.tabs == s.tabs || (u.tabs == s.tabs[t := TabOf(u, t)] && Marked(TabOf(u, t)))
  }

  lemma DrainTab(s: State, t: nat, e: Event)
    requires OnlyHere(s, t) && Enabled(s, e) && InTab(s, t, e) && (e.Drains? || e.DrainReply?)
    ensures OnlyTab(s, Next(s, e), t)
  {
    hide Advance, DropFrom, RefuseIn, Transient, MayLand, Sends, IsForDrain, IsPassedOver, ComesTo;
    match e
    case Drains(here, owner) => AdvanceSends(s.stored, TabOf(s, t), owner, s.stored);
    case DrainReply(here, out) =>
      var d := TabOf(s, t).drain.value;
      AdvanceSends(Next(s, e).stored, TabOf(s, t), d.owner, d.left);
  }

  /** A press begins, or one on its way goes on. */
  lemma MarkedWith(tab: Tab, n: nat, h: Held)
    requires Marked(tab) && (n in tab.nows ==> tab.nows[n].key == h.key)
    ensures Marked(tab.(nows := tab.nows[n := h], pressed := tab.pressed + {h.key}))
  {
    var after := tab.(nows := tab.nows[n := h], pressed := tab.pressed + {h.key});
    forall k | k in after.pressed
      ensures exists m :: m in after.nows && after.nows[m].key == k
    {
      if k == h.key {
        assert after.nows[n].key == k;
      } else {
        var m :| m in tab.nows && tab.nows[m].key == k;
        assert after.nows[m].key == k;
      }
    }
  }

  lemma CopyTab(s: State, t: nat, p: Sender, e: Held)
    requires OnlyHere(s, t) && Active(s, p) && e.key == Copy(s, p).key
    ensures OnlyTab(s, WithCopy(s, p, e), t)
  {
    assert p.t == t;
    var tab := TabOf(s, t);
    if p.ByPress? {
      MarkedWith(tab, p.n, e);
      assert tab.pressed + {e.key} == tab.pressed;
    }
  }

  lemma PressTab(s: State, t: nat, n: nat, h: Held)
    requires OnlyHere(s, t) && n !in TabOf(s, t).nows
    ensures OnlyTab(s, NowStarts(s, t, n, h), t)
  {
    hide PutIn;
    MarkedWith(TabOf(s, t), n, h);
  }

  lemma ReloadTab(s: State, t: nat)
    ensures OnlyTab(s, WithTab(s, t, NEW_TAB), t)
  {
  }

  lemma AskTab(s: State, t: nat, p: Sender, name: string)
    requires OnlyHere(s, t) && Active(s, p)
    ensures OnlyTab(s, Asks(s, p, name), t)
  {
    hide UpdateIn, Marked;
    CopyTab(s, t, p, AskedCopy(s, p, name));
    hide OnlyHere;
  }

  lemma LandTab(s: State, t: nat, p: Sender)
    requires OnlyHere(s, t) && Active(s, p)
    ensures OnlyTab(s, WriteLands(s, p), t)
  {
    hide UpdateIn, Marked;
    CopyTab(s, t, p, Copy(s, p).(done := Copy(s, p).done + 1));
    hide OnlyHere;
  }

  lemma TabAfter(s: State, t: nat, e: Event)
    requires SendersSole(s) && OnlyHere(s, t) && Enabled(s, e) && InTab(s, t, e)
    ensures OnlyTab(s, Next(s, e), t)
  {
    hide PutIn, UpdateIn, DropFrom, Transient, MayLand, Truthful, HasId, WriteAnswered, SendersSole, OwnCopy, AsItWas,
      Marked, NowReplied, NowStarts, DrainReplied, DrainStarts, Active, Copy, Asks,
      WriteLands;
    match e
    case Drains(here, owner) => DrainTab(s, t, e);
    case DrainReply(here, out) => DrainTab(s, t, e);
    case PressReply(here, n, out) => PressReplyMarks(s, t, n, out);
    case Requests(p, name) => AskTab(s, t, p, name);
    case Lands(p) => LandTab(s, t, p);
    case Presses(here, n, h) => PressTab(s, t, n, h);
    case Reloads(here) => ReloadTab(s, t);
    case _ =>
  }

  lemma HereStays(s: State, t: nat, e: Event)
    requires SendersSole(s) && OnlyHere(s, t) && Enabled(s, e) && InTab(s, t, e)
    ensures OnlyHere(Next(s, e), t)
  {
    hide Next, SendersSole, OnlyHere, Enabled, InTab, OnlyTab;
    TabAfter(s, t, e);
    HereIf(s, Next(s, e), t);
  }

  lemma PressReplyMarks(s: State, t: nat, n: nat, out: Outcome)
    requires SendersSole(s) && OnlyHere(s, t) && Active(s, ByPress(t, n))
    ensures OnlyTab(s, NowReplied(s, t, n, out), t)
  {
    var u, was := TabOf(NowReplied(s, t, n, out), t), TabOf(s, t);
    hide DropFrom, Transient;
    assert Sole(s, ByPress(t, n)) by {
      assert Active(s, ByPress(t, n));
    }
    forall m | m in u.nows
      ensures u.nows[m].key in u.pressed
    {
      assert Active(s, ByPress(t, m)) && m != n;
    }
    forall k | k in u.pressed
      ensures exists m :: m in u.nows && u.nows[m].key == k
    {
      var m :| m in was.nows && was.nows[m].key == k;
      assert m in u.nows && u.nows[m].key == k;
    }
  }

  /** In one tab a drain is alone with what it sends, and the first act it sends is as it
      is stored; so only a later one can be stale. */
  lemma OnlyStaleFails(s: State, t: nat, e: Event)
    requires SafeRuns.Sound(s) && OnlyHere(s, t) && Enabled(s, e) && InTab(s, t, e)
    ensures SendsWhatIsStored(s, e) <==> SendsTheStoredIds(s, e)
  {
    var u, p := Next(s, e), ByDrain(t);
    if MovesOn(s, e) && Active(u, p) {
      MovesOnAlone(s, t, e);
      if e.Drains? {
        hide Alone, Stored, Get, OnlyHere;
        FirstIsStored(s, t, e.owner);
      }
    } else if e.Presses? {
      PressedAlone(s, t, e.n, e.e);
      SentIfSending(s, t, e.e.key);
    }
  }

  lemma MovesOnAlone(s: State, t: nat, e: Event)
    requires OnlyHere(s, t) && Enabled(s, e) && Here(t, e) && MovesOn(s, e) && Active(Next(s, e), ByDrain(t))
    ensures Alone(Next(s, e), ByDrain(t), Copy(Next(s, e), ByDrain(t)).key)
  {
    var u, tab := Next(s, e), TabOf(s, t);
    hide MayLand, Transient, DropFrom, RefuseIn, Alone, OnlyHere;
    match e
    case Drains(here, owner) => AloneInOneTab(s, t, u, owner, s.stored);
    case DrainReply(here, out) => AloneInOneTab(s, t, u, tab.drain.value.owner, tab.drain.value.left);
  }

  /** The first act a drain sends is always as it is stored. */
  lemma FirstIsStored(s: State, t: nat, owner: string)
    requires Unique(s.stored) && TabOf(s, t).drain == None && Active(DrainStarts(s, t, owner), ByDrain(t))
    ensures
      var c := Copy(DrainStarts(s, t, owner), ByDrain(t));
      Stored(s.stored, c.key) && Get(s.stored, c.key) == c
  {
    AdvanceSends(s.stored, TabOf(s, t), owner, s.stored);
    var c := Copy(DrainStarts(s, t, owner), ByDrain(t));
    var i :| 0 <= i < |s.stored| && s.stored[i] == c;
    FindIs(s.stored, i);
  }

  ghost predicate AllHere(t: nat, es: seq<Event>) {
    forall e :: e in es ==> Here(t, e)
  }

  lemma {:induction false} SafeExactlyFromHere(s: State, t: nat, es: seq<Event>)
    requires SafeRuns.Sound(s) && OnlyHere(s, t) && PressedRun(s, es) && AllHere(t, es)
    ensures AlwaysSendsWhatIsStored(s, es) <==> AlwaysSendsTheStoredIds(s, es)
    decreases |es|
  {
    if es != [] {
      var e := es[0];
      assert Here(t, e) && AllHere(t, es[1..]);
      hide Next, OnlyHere, Enabled, AsPressed, SendsWhatIsStored, SendsTheStoredIds, ListsBehind, Here;
      OnlyStaleFails(s, t, e);
      if SendsWhatIsStored(s, e) {
        SoundStays(s, e);
        SoleSenders(s);
        HereStays(s, t, e);
        SafeExactlyFromHere(Next(s, e), t, es[1..]);
      }
    }
  }

  lemma SoleSenders(s: State)
    requires SafeRuns.Sound(s)
    ensures SendersSole(s)
  {
  }

  /** Over any run in one tab from an empty store: the sends under way can never give a
      name a second id exactly when every drain goes on only to entries whose stored
      ids are the ones it read. */
  lemma SafeExactlyInOneTab(t: nat, es: seq<Event>)
    requires PressedRun(START, es) && AllHere(t, es)
    ensures AlwaysSafe(START, es) <==> AlwaysSendsTheStoredIds(START, es)
  {
    StartIsTrusted();
    SafeExactly(es);
    SafeExactlyFromHere(START, t, es);
  }
}
