/** Any number of tabs, from an empty store: exactly which runs keep one id to a name. */
module SafeRuns {
  import opened Entries
  import opened ExactlyOnce
  import opened Options
  import opened OutboxRuns

  /** What screens do: an act put or pressed again is the act it was, whoever is sending
      it, and updates are of a send's own copy. Everything else is as it comes. */
  ghost predicate AsPressed(s: State, e: Event) {
    match e
    case Puts(h) => AsItWas(s, h)
    case Presses(t, n, h) => AsItWas(s, h)
    case Updates(h) => OwnCopy(s, h)
    case _ => true
  }

  ghost predicate PressedRun(s: State, es: seq<Event>)
    decreases |es|
  {
    es == [] || (Enabled(s, es[0]) && AsPressed(s, es[0]) && PressedRun(Next(s, es[0]), es[1..]))
  }

  /** A drain's step to its next send. */
  predicate MovesOn(s: State, e: Event) {
    (e.Drains? && TabOf(s, e.t).drain == None) || e.DrainReply?
  }

  /** What a step starts sending, if anything, is as it is stored: the ids stored are its
      ids, and nobody else is sending the act. */
  ghost predicate SendsWhatIsStored(s: State, e: Event)
    requires Enabled(s, e)
  {
    && (MovesOn(s, e) ==> SentAsStored(Next(s, e), ByDrain(e.t)))
    && (e.Presses? ==> SentAsStored(Next(s, e), ByPress(e.t, e.n)))
  }

  ghost predicate SentAsStored(u: State, p: Sender) {
    Active(u, p) ==>
      var c := Copy(u, p);
      Stored(u.stored, c.key) && Get(u.stored, c.key).ids == c.ids && Alone(u, p, c.key)
  }

  ghost predicate AlwaysSendsWhatIsStored(s: State, es: seq<Event>)
    requires PressedRun(s, es)
    decreases |es|
  {
    es == [] || (SendsWhatIsStored(s, es[0]) && AlwaysSendsWhatIsStored(Next(s, es[0]), es[1..]))
  }

  /** No two requests that the sends under way might make next give a name a second id. */
  ghost predicate Safe(s: State) {
    forall p, name, q, other :: Active(s, p) && Active(s, q) ==> TwoAsksKeepIt(s, p, name, q, other)
  }

  ghost predicate TwoAsksKeepIt(s: State, p: Sender, name: string, q: Sender, other: string)
    requires Active(s, p) && Active(s, q)
  {
    CopiesAfter(s, p, name, q);
    OneId(Asks(Asks(s, p, name), q, other))
  }

  ghost predicate AlwaysSafe(s: State, es: seq<Event>)
    requires PressedRun(s, es)
    decreases |es|
  {
    Safe(s) && (es == [] || AlwaysSafe(Next(s, es[0]), es[1..]))
  }

  ghost predicate WasAsked(s: State, key: Key, name: string) {
    exists r :: r in s.requests && r.key == key && r.name == name
  }

  /** An entry of a list read earlier: the act has its moment, its ids and perhaps more,
      and each of those has been asked for. */
  ghost predicate Behind(s: State, e: Held) {
    && e.key in s.kept && s.kept[e.key].at == e.at
    && (forall name :: name in e.ids ==> name in s.kept[e.key].ids && s.kept[e.key].ids[name] == e.ids[name])
    && (forall name :: name in s.kept[e.key].ids && name !in e.ids ==> WasAsked(s, e.key, name))
  }

  ghost predicate ListsBehind(s: State) {
    forall t, e :: Lists(s, t, e) ==> Behind(s, e)
  }

  ghost predicate Sound(s: State) {
    Trusted(s) && ListsBehind(s)
  }

  // ---------- Behind ----------

  /** A copy that is behind knows all that was asked for exactly when it has the act's ids. */
  lemma BehindKnowsExactly(s: State, e: Held)
    requires KeptKnown(s) && Behind(s, e)
    ensures Knows(s, e) <==> e.ids == s.kept[e.key].ids
  {
    var g := s.kept[e.key];
    if Knows(s, e) {
      forall name | name in g.ids
        ensures name in e.ids
      {
      }
      assert e.ids.Keys == g.ids.Keys;
    } else if e.ids == g.ids {
      KnowsAlike(s, s, g, e);
    }
  }

  lemma SameBehind(s: State, u: State, e: Held)
    requires Behind(s, e) && u.requests == s.requests && u.kept == s.kept
    ensures Behind(u, e)
  {
  }

  lemma KnownAsItWas(s: State, h: Held)
    requires KeptKnown(s) && AsItWas(s, h)
    ensures Knows(s, h)
  {
    if h.key in s.kept {
      KnowsAlike(s, s, s.kept[h.key], h);
    }
  }

  lemma StaysBehind(s: State, u: State, e: Held)
    requires Behind(s, e) && s.requests <= u.requests && e.key in u.kept && u.kept[e.key].at == s.kept[e.key].at
    requires forall name :: name in s.kept[e.key].ids ==>
      name in u.kept[e.key].ids && u.kept[e.key].ids[name] == s.kept[e.key].ids[name]
    requires forall name :: name in u.kept[e.key].ids && name !in s.kept[e.key].ids ==> WasAsked(u, e.key, name)
    ensures Behind(u, e)
  {
    forall name | name in u.kept[e.key].ids && name !in e.ids
      ensures WasAsked(u, e.key, name)
    {
      if name in s.kept[e.key].ids {
        assert WasAsked(s, e.key, name);
      }
    }
  }

  lemma StoredIsBehind(s: State, h: Held)
    requires Unique(s.stored) && StoredAlike(s) && h in s.stored
    ensures Behind(s, h)
  {
    var i :| 0 <= i < |s.stored| && s.stored[i] == h;
    FindIs(s.stored, i);
    assert Stored(s.stored, h.key) && Get(s.stored, h.key) == h;
  }

  lemma UniqueAndAlike(s: State)
    requires Trusted(s)
    ensures Unique(s.stored) && StoredAlike(s)
  {
  }

  lemma MovesOnOnly(s: State, e: Event)
    requires Enabled(s, e) && MovesOn(s, e)
    ensures Next(s, e).kept == s.kept && Next(s, e).requests == s.requests
  {
    hide Advance, DropFrom, RefuseIn, Transient, MayLand;
  }

  /** Where a drain has come to was in its list, or is as it is stored. */
  lemma CameFrom(s: State, e: Event)
    requires Enabled(s, e) && MovesOn(s, e) && Active(Next(s, e), ByDrain(e.t))
    ensures
      var c := Copy(Next(s, e), ByDrain(e.t));
      (c in s.stored || Lists(s, e.t, c)) && Stored(Next(s, e).stored, c.key)
  {
    var u, p, tab := Next(s, e), ByDrain(e.t), TabOf(s, e.t);
    hide Transient, MayLand, DropFrom, RefuseIn;
    match e
    case Drains(t, owner) =>
      AdvanceSends(s.stored, tab, owner, s.stored);
    case DrainReply(t, out) =>
      AdvanceSends(u.stored, tab, tab.drain.value.owner, tab.drain.value.left);
  }

  lemma MovesOnBehind(s: State, e: Event)
    requires Sound(s) && Enabled(s, e) && MovesOn(s, e) && Active(Next(s, e), ByDrain(e.t))
    ensures
      var u := Next(s, e);
      var c := Copy(u, ByDrain(e.t));
      Behind(u, c) && Stored(u.stored, c.key)
  {
    hide Trusted, Next, Enabled, Behind, Copy, Active;
    var c := Copy(Next(s, e), ByDrain(e.t));
    MovesOnOnly(s, e);
    CameFrom(s, e);
    if c in s.stored {
      UniqueAndAlike(s);
      StoredIsBehind(s, c);
    }
    SameBehind(s, Next(s, e), c);
  }

  // ---------- One step ----------

  lemma MovesOnAlike(s: State, e: Event)
    requires Trusted(s) && Enabled(s, e) && MovesOn(s, e)
    ensures StoredAlike(Next(s, e)) && Whole(Next(s, e)) && KeptKnown(Next(s, e))
  {
    DrainStoredAlike(s, e);
    StepKeeps(s, e);
    MovesOnOnly(s, e);
    hide Next, Enabled, Whole, OneId, StoredAlike, SendersSole, KeptKnown, MovesOn;
    KeptStaysKnown(s, Next(s, e), NOTHING);
  }

  /** Sending what is stored, alone, is all the care a drain needs to take. */
  lemma CarefulAsPressed(s: State, e: Event)
    requires Sound(s) && Enabled(s, e) && AsPressed(s, e) && SendsWhatIsStored(s, e)
    ensures Careful(s, e)
  {
    match e
    case Puts(h) => KnownAsItWas(s, h);
    case Presses(t, n, h) =>
      KnownAsItWas(s, h);
      PressedAlone(s, t, n, h);
    case Drains(t, owner) =>
      if TabOf(s, t).drain == None {
        MovesOnFromTheStore(s, e);
      }
    case DrainReply(t, out) => MovesOnFromTheStore(s, e);
    case _ =>
  }

  /** A press's act is stored as it is pressed, so all there is to it is who else sends it. */
  lemma PressedAlone(s: State, t: nat, n: nat, h: Held)
    requires Enabled(s, Presses(t, n, h)) && Unique(s.stored)
    ensures SentAsStored(Next(s, Presses(t, n, h)), ByPress(t, n)) <==> NobodySends(s, h.key)
  {
    var u, p := Next(s, Presses(t, n, h)), ByPress(t, n);
    PutKeeps(s.stored, h);
    hide PutIn, Stored, Get, Truthful;
    assert Active(u, p) && Copy(u, p) == h;
    forall q | q != p
      ensures Active(u, q) <==> Active(s, q)
      ensures Active(u, q) ==> Copy(u, q) == Copy(s, q)
    {
    }
    assert !Active(s, p);
    hide Active, Copy;
  }

  lemma MovesOnFromTheStore(s: State, e: Event)
    requires Sound(s) && Enabled(s, e) && MovesOn(s, e) && SendsWhatIsStored(s, e)
    ensures FromTheStore(Next(s, e), ByDrain(e.t))
  {
    var u := Next(s, e);
    hide Trusted, MayLand, Transient, Next, Stored, Get, ListsBehind, Enabled;
    if Active(u, ByDrain(e.t)) {
      MovesOnBehind(s, e);
      MovesOnAlike(s, e);
    }
  }

  /** What is known of an act only grows, by what was asked for. */
  lemma ActsGrow(s: State, e: Event, k: Key)
    requires Trusted(s) && Enabled(s, e) && AsPressed(s, e) && k in s.kept
    ensures
      var u := Next(s, e);
      && s.requests <= u.requests && k in u.kept && u.kept[k].at == s.kept[k].at
      && (forall name :: name in s.kept[k].ids ==> name in u.kept[k].ids && u.kept[k].ids[name] == s.kept[k].ids[name])
      && (forall name :: name in u.kept[k].ids && name !in s.kept[k].ids ==> WasAsked(u, k, name))
  {
    hide Advance, PutIn, UpdateIn, DropFrom, RefuseIn, Transient, MayLand, Truthful, HasId, WriteAnswered, Whole, OneId;
    hide KeptKnown, StoredAlike, TabOf, Stored, NobodySends;
    match e
    case Updates(h) =>
      var p :| Active(s, p) && Copy(s, p) == h;
      assert Sole(s, p);
    case Requests(p, name) =>
      assert Sole(s, p);
      RequestsAfter(s, p, name);
      hide Asks;
      var c := Copy(s, p);
      assert Request(c.key, name, IdUnder(s, p, name), c.at) in Next(s, e).requests;
    case Lands(p) => assert Sole(s, p);
    case _ =>
  }

  lemma ListsAfter(s: State, e: Event, t: nat, h: Held)
    requires Enabled(s, e) && Lists(Next(s, e), t, h)
    ensures Lists(s, t, h) || h in s.stored
  {
    hide Advance, PutIn, UpdateIn, DropFrom, RefuseIn, Transient, MayLand, Truthful, HasId, WriteAnswered, Lists,
      Asks, WriteLands, DrainStarts, DrainReplied, NowStarts, NowReplied, Active, Copy, TabOf;
    match e
    case Drains(here, owner) => ListedByADrain(s, here, owner, t, h);
    case DrainReply(here, out) => ListedByAReply(s, here, out, t, h);
    case Presses(here, n, p) => ListedByAPress(s, here, n, p, t, h);
    case PressReply(here, n, out) => ListedByAPressReply(s, here, n, out, t, h);
    case Requests(p, name) => ListedByASend(s, p, name, t, h);
    case Lands(p) => ListedByASend(s, p, "", t, h);
    case Reloads(here) => ListedByAReload(s, here, t, h);
    case _ => ListedAsItWas(s, Next(s, e), t, h);
  }

  lemma ListedAsItWas(s: State, u: State, t: nat, h: Held)
    requires u.tabs == s.tabs
    ensures Lists(u, t, h) <==> Lists(s, t, h)
  {
  }

  lemma ListedByAReload(s: State, here: nat, t: nat, h: Held)
    ensures Lists(WithTab(s, here, NEW_TAB), t, h) ==> Lists(s, t, h)
  {
  }

  lemma ListedByAReply(s: State, here: nat, out: Outcome, t: nat, h: Held)
    requires Active(s, ByDrain(here)) && Lists(DrainReplied(s, here, out), t, h)
    ensures Lists(s, t, h)
  {
    hide Transient, DropFrom, RefuseIn;
    var d := TabOf(s, here).drain.value;
    AdvanceSends(DrainReplied(s, here, out).stored, TabOf(s, here), d.owner, d.left);
    hide Advance, Sends;
  }

  lemma ListedByAPress(s: State, here: nat, n: nat, p: Held, t: nat, h: Held)
    ensures Lists(NowStarts(s, here, n, p), t, h) <==> Lists(s, t, h)
  {
    hide PutIn;
  }

  lemma ListedByAPressReply(s: State, here: nat, n: nat, out: Outcome, t: nat, h: Held)
    requires Active(s, ByPress(here, n))
    ensures Lists(NowReplied(s, here, n, out), t, h) <==> Lists(s, t, h)
  {
    hide DropFrom, Transient;
  }

  lemma ListedByASend(s: State, p: Sender, name: string, t: nat, h: Held)
    requires Active(s, p)
    ensures Lists(Asks(s, p, name), t, h) <==> Lists(s, t, h)
    ensures Lists(WriteLands(s, p), t, h) <==> Lists(s, t, h)
  {
    hide UpdateIn;
  }

  lemma ListedByADrain(s: State, here: nat, owner: string, t: nat, h: Held)
    requires Lists(DrainStarts(s, here, owner), t, h)
    ensures Lists(s, t, h) || h in s.stored
  {
    AdvanceSends(s.stored, TabOf(s, here), owner, s.stored);
    hide Advance, Sends;
  }

  lemma BehindAfter(s: State, e: Event, h: Held)
    requires Trusted(s) && Enabled(s, e) && AsPressed(s, e) && Behind(s, h)
    ensures Behind(Next(s, e), h)
  {
    hide Next, Trusted, Enabled, AsPressed;
    ActsGrow(s, e, h.key);
    StaysBehind(s, Next(s, e), h);
  }

  lemma ListsStayBehind(s: State, e: Event)
    requires Sound(s) && Enabled(s, e) && AsPressed(s, e)
    ensures ListsBehind(Next(s, e))
  {
    var u := Next(s, e);
    hide Next, Trusted, Enabled, Lists, Behind, AsPressed;
    forall t, h | Lists(u, t, h)
      ensures Behind(u, h)
    {
      ListsAfter(s, e, t, h);
      if !Lists(s, t, h) {
        UniqueAndAlike(s);
        StoredIsBehind(s, h);
      }
      BehindAfter(s, e, h);
    }
  }

  lemma SoundStays(s: State, e: Event)
    requires Sound(s) && Enabled(s, e) && AsPressed(s, e) && SendsWhatIsStored(s, e)
    ensures Sound(Next(s, e))
  {
    hide Next, Trusted, Enabled, ListsBehind, AsPressed, SendsWhatIsStored, Careful;
    CarefulAsPressed(s, e);
    StepsCarefully(s, e);
    ListsStayBehind(s, e);
  }

  // ---------- Safe, and not ----------

  lemma OneAskKeepsIt(s: State, p: Sender, name: string)
    requires Trusted(s) && Active(s, p)
    ensures OneId(Asks(s, p, name))
  {
    AskTrusted(s, p, name);
  }

  lemma TrustedIsSafe(s: State)
    requires Trusted(s)
    ensures Safe(s)
  {
    forall p, name, q, other | Active(s, p) && Active(s, q)
      ensures TwoAsksKeepIt(s, p, name, q, other)
    {
      hide Asks, Trusted, Active, Copy, OneId;
      CopiesAfter(s, p, name, q);
      AskTrusted(s, p, name);
      OneAskKeepsIt(Asks(s, p, name), q, other);
    }
  }

  /** A second request under way takes nothing back. */
  lemma TwoAsksHaveBoth(s: State, p: Sender, name: string, q: Sender, other: string)
    requires Active(s, p) && Active(s, q) && Active(Asks(s, p, name), q)
    ensures
      var u := Asks(s, p, name);
      u.requests <= Asks(u, q, other).requests
  {
    RequestsAfter(Asks(s, p, name), q, other);
  }

  lemma BrokenIsUnsafe(s: State, p: Sender, name: string)
    requires Active(s, p) && !OneId(Asks(s, p, name))
    ensures !Safe(s)
  {
    var u := Asks(s, p, name);
    CopiesAfter(s, p, name, p);
    TwoAsksHaveBoth(s, p, name, p, name);
    hide Asks, Active, Copy;
    var a, b :| a in u.requests && b in u.requests && a.key == b.key && a.name == b.name && a != b;
    assert a in Asks(u, p, name).requests && b in Asks(u, p, name).requests;
    assert !TwoAsksKeepIt(s, p, name, p, name);
  }

  /** A name longer than any of these. */
  lemma UnusedName(names: set<string>) returns (name: string)
    ensures name !in names
    decreases names
  {
    if names == {} {
      name := "";
    } else {
      name := LongerThan(names);
    }
  }

  lemma LongerThan(names: set<string>) returns (name: string)
    ensures forall n :: n in names ==> |n| < |name|
    decreases names
  {
    if names == {} {
      name := "";
    } else {
      var n :| n in names;
      name := LongerThan(names - {n});
      name := name + n + "x";
      assert forall m :: m in names ==> m == n || m in names - {n};
    }
  }

  /** Two sends of one act can each mint an id for a name new to both. */
  lemma TwoSendersUnsafe(s: State, p: Sender, q: Sender)
    requires Active(s, p) && Active(s, q) && p != q && Copy(s, p).key == Copy(s, q).key
    ensures !Safe(s)
  {
    var name := UnusedName(Copy(s, p).ids.Keys + Copy(s, q).ids.Keys);
    var u := Asks(s, p, name);
    CopiesAfter(s, p, name, q);
    RequestsAfter(s, p, name);
    RequestsAfter(u, q, name);
    assert u.unused == s.unused + 1 by {
      UnusedAfter(s, p, name);
    }
    hide Asks, Active, Copy;
    var c, d := Copy(s, p), Copy(s, q);
    var a := Request(c.key, name, Id(c.key, name, s.unused), c.at);
    var b := Request(d.key, name, Id(d.key, name, s.unused + 1), d.at);
    assert a in Asks(u, q, name).requests && b in Asks(u, q, name).requests && a != b;
    assert !TwoAsksKeepIt(s, p, name, q, name);
  }

  lemma UnusedAfter(s: State, p: Sender, name: string)
    requires Active(s, p) && name !in Copy(s, p).ids
    ensures Asks(s, p, name).unused == s.unused + 1
  {
    hide UpdateIn;
  }

  lemma MovedOnUnsafe(s: State, e: Event)
    requires Sound(s) && Enabled(s, e) && MovesOn(s, e) && !SentAsStored(Next(s, e), ByDrain(e.t))
    ensures !Safe(Next(s, e))
  {
    var u, p := Next(s, e), ByDrain(e.t);
    var c := Copy(u, p);
    MovesOnBehind(s, e);
    MovesOnAlike(s, e);
    hide Next, Enabled, Trusted, Asks, Safe, ListsBehind;
    if Alone(u, p, c.key) {
      BehindKnowsExactly(u, c);
      var r :| r in u.requests && r.key == c.key && !(r.name in c.ids && c.ids[r.name] == r.id && r.at == c.at);
      AskBreaks(u, p, r);
      BrokenIsUnsafe(u, p, r.name);
    } else {
      var q :| Active(u, q) && q != p && Copy(u, q).key == c.key;
      TwoSendersUnsafe(u, p, q);
    }
  }

  lemma PressedUnsafe(s: State, t: nat, n: nat, h: Held)
    requires Enabled(s, Presses(t, n, h)) && Unique(s.stored)
    requires !SentAsStored(Next(s, Presses(t, n, h)), ByPress(t, n))
    ensures !Safe(Next(s, Presses(t, n, h)))
  {
    var u := Next(s, Presses(t, n, h));
    PressedAlone(s, t, n, h);
    var q :| Active(s, q) && Copy(s, q).key == h.key;
    hide Safe, PutIn, Truthful;
    assert Active(u, q) && Copy(u, q) == Copy(s, q) && q != ByPress(t, n);
    TwoSendersUnsafe(u, ByPress(t, n), q);
  }

  /** A step is safe exactly when what it starts sending is as it is stored: a drain's
      next send, when the ids stored are the ids it read; and that, or a press, when
      nobody else is sending the act. */
  lemma NextSendSafeExactly(s: State, e: Event)
    requires Sound(s) && Enabled(s, e) && AsPressed(s, e)
    ensures Safe(Next(s, e)) <==> SendsWhatIsStored(s, e)
  {
    hide Next, Trusted, Enabled, ListsBehind, AsPressed, SentAsStored, Safe;
    if SendsWhatIsStored(s, e) {
      SoundStays(s, e);
      TrustedIsSafe(Next(s, e));
    } else if MovesOn(s, e) {
      MovedOnUnsafe(s, e);
    } else {
      UniqueAndAlike(s);
      PressedUnsafe(s, e.t, e.n, e.e);
    }
  }

  // ---------- Exactly which runs ----------

  lemma {:induction false} SafeExactlyFrom(s: State, es: seq<Event>)
    requires Sound(s) && PressedRun(s, es)
    ensures AlwaysSafe(s, es) <==> AlwaysSendsWhatIsStored(s, es)
    decreases |es|
  {
    hide Trusted, ListsBehind, Safe, SendsWhatIsStored, Next, Enabled, AsPressed;
    TrustedIsSafe(s);
    if es != [] {
      NextSendSafeExactly(s, es[0]);
      if SendsWhatIsStored(s, es[0]) {
        SoundStays(s, es[0]);
        SafeExactlyFrom(Next(s, es[0]), es[1..]);
      }
    }
  }

  /** Over any run from an empty store, in any number of tabs, in which acts are pressed
      again as they were: the sends under way can never give a name a second id exactly
      when every drain goes on only to entries whose stored ids are the ones it read,
      and drains and presses alike only send what nobody else is sending. */
  lemma SafeExactly(es: seq<Event>)
    requires PressedRun(START, es)
    ensures AlwaysSafe(START, es) <==> AlwaysSendsWhatIsStored(START, es)
  {
    StartIsTrusted();
    SafeExactlyFrom(START, es);
  }

  /** Where a run ends. */
  ghost function Ends(s: State, es: seq<Event>): State
    requires PressedRun(s, es)
    decreases |es|
  {
    if es == [] then s else Ends(Next(s, es[0]), es[1..])
  }

  lemma {:induction false} SoundThroughout(s: State, es: seq<Event>)
    requires Sound(s) && PressedRun(s, es) && AlwaysSendsWhatIsStored(s, es)
    ensures Sound(Ends(s, es))
    decreases |es|
  {
    if es != [] {
      hide Trusted, ListsBehind, Next, Enabled, AsPressed, SendsWhatIsStored;
      SoundStays(s, es[0]);
      SoundThroughout(Next(s, es[0]), es[1..]);
    }
  }

  /** Such a run ends with one id to a name, and one record of it at most. */
  lemma OnceThroughout(es: seq<Event>)
    requires PressedRun(START, es) && AlwaysSendsWhatIsStored(START, es)
    ensures
      var last := Ends(START, es);
      && OneId(last)
      && forall q, r :: q in last.ledger && r in last.ledger && q.key == r.key && q.name == r.name ==> q == r
  {
    StartIsTrusted();
    SoundThroughout(START, es);
  }
}
