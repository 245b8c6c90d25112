/** One press, one act: when every request for an act under a name carries the
    one id, and the way in which it may not. */
module ExactlyOnce {
  import opened Entries
  import opened Options
  import opened OutboxRuns

  /** Requests for one act under one name are one request, id and moment alike. */
  ghost predicate OneId(s: State) {
    forall q, r :: q in s.requests && r in s.requests && q.key == r.key && q.name == r.name ==> q == r
  }

  /** Everything asked for so far for an act is in this copy of it. */
  ghost predicate Knows(s: State, e: Held) {
    forall r :: r in s.requests && r.key == e.key ==> r.name in e.ids && e.ids[r.name] == r.id && r.at == e.at
  }

  /** A send can be trusted with its act, whatever it asks for next, exactly when its
      copy knows all that was asked for already. */
  lemma SafeExactlyWhenItKnows(s: State, p: Sender)
    requires Active(s, p) && OneId(s) && LedgerRight(s)
    ensures (forall name :: OneId(Asks(s, p, name))) <==> Knows(s, Copy(s, p))
  {
    var e := Copy(s, p);
    hide Copy, WithCopy, Active, UpdateIn;
    if Knows(s, e) {
      forall name
        ensures OneId(Asks(s, p, name))
      {
        KnownAsk(s, p, name);
      }
    } else {
      var r :| r in s.requests && r.key == e.key && !(r.name in e.ids && e.ids[r.name] == r.id && r.at == e.at);
      AskBreaks(s, p, r);
    }
  }

  lemma AskBreaks(s: State, p: Sender, r: Request)
    requires Active(s, p) && LedgerRight(s) && r in s.requests && r.key == Copy(s, p).key
    requires var e := Copy(s, p); !(r.name in e.ids && e.ids[r.name] == r.id && r.at == e.at)
    ensures !OneId(Asks(s, p, r.name))
  {
    var e, next := Copy(s, p), Asks(s, p, r.name);
    hide Copy, WithCopy, Active, UpdateIn;
    assert Request(e.key, r.name, IdUnder(s, p, r.name), e.at) in next.requests && r in next.requests;
    assert Request(e.key, r.name, IdUnder(s, p, r.name), e.at) != r;
  }

  lemma KnownAsk(s: State, p: Sender, name: string)
    requires Active(s, p) && OneId(s) && Knows(s, Copy(s, p))
    ensures OneId(Asks(s, p, name))
  {
    var e := Copy(s, p);
    hide Copy, WithCopy, Active, UpdateIn;
    var r := Request(e.key, name, IdUnder(s, p, name), e.at);
    assert Asks(s, p, name).requests == s.requests + {r};
    forall q | q in s.requests && q.key == r.key && q.name == r.name
      ensures q == r
    {
    }
  }

  /** Requests under one name share one id, whatever their moments. */
  ghost predicate NameHasOneId(s: State, key: Key, name: string) {
    forall q, r :: q in s.requests && r in s.requests && q.key == r.key == key && q.name == r.name == name ==>
      q.id == r.id
  }

  /** The ledger takes an id once, so however often and at whatever moments a name was
      asked for, it has one record of it at most, so long as the name had one id. */
  lemma OneRecordPerName(es: seq<Event>, s: State, key: Key, name: string)
    requires Run(START, es, s) && NameHasOneId(s, key, name)
    ensures forall q, r :: q in s.ledger && r in s.ledger && q.key == r.key == key && q.name == r.name == name ==>
      q == r
  {
    NothingLost(START, es, s);
  }

  // ---------- Runs in which every send starts from what is stored ----------

  /** No send is under way for an act. */
  ghost predicate NobodySends(s: State, key: Key) {
    forall q :: Active(s, q) ==> Copy(s, q).key != key
  }

  /** No other send is. */
  ghost predicate Alone(s: State, p: Sender, key: Key) {
    forall q :: Active(s, q) && q != p ==> Copy(s, q).key != key
  }

  const NOTHING := Held("", "", [], map[], 0, 0, None)

  /** Alike in all that knowing is about. */
  predicate Alike(e: Held, f: Held) {
    e.ids == f.ids && e.at == f.at
  }

  /** An act kept again is the act it was, with the ids it had. */
  predicate AsItWas(s: State, h: Held) {
    h.key in s.kept ==> Alike(h, s.kept[h.key])
  }

  /** What a sender can find out before it starts: the copy it holds has the ids of the
      entry stored, and nobody else is sending it. */
  ghost predicate FromTheStore(s: State, p: Sender) {
    Active(s, p) ==>
      var e := Copy(s, p);
      Stored(s.stored, e.key) && Alike(Get(s.stored, e.key), e) && Alone(s, p, e.key)
  }

  /** A send's own copy. */
  ghost predicate OwnCopy(s: State, h: Held) {
    exists p :: Active(s, p) && Copy(s, p) == h
  }

  /** Acts are put and pressed, and pressed again, by somebody who knows what was asked
      for, as they were if they are being sent, and pressed with nobody sending them;
      updates are of a send's own copy; drains send what is stored as it is stored. */
  ghost predicate Careful(s: State, e: Event)
    requires Enabled(s, e)
  {
    match e
    case Puts(h) => Knows(s, h) && (NobodySends(s, h.key) || AsItWas(s, h))
    case Updates(h) => OwnCopy(s, h)
    case Presses(t, n, h) => Knows(s, h) && NobodySends(s, h.key)
    case Drains(t, owner) => TabOf(s, t).drain.Some? || FromTheStore(Next(s, e), ByDrain(t))
    case DrainReply(t, out) => FromTheStore(Next(s, e), ByDrain(t))
    case _ => true
  }

  ghost predicate CarefulRun(s: State, es: seq<Event>, last: State)
    decreases |es|
  {
    if es == [] then s == last
    else Enabled(s, es[0]) && Careful(s, es[0]) && CarefulRun(Next(s, es[0]), es[1..], last)
  }

  /** Every act, as it was last known here, knows what was asked for it. */
  ghost predicate KeptKnown(s: State) {
    && (forall k :: k in s.kept ==> s.kept[k].key == k && Knows(s, s.kept[k]))
    && (forall r :: r in s.requests ==> r.key in s.kept)
  }

  ghost predicate StoredAlike(s: State) {
    forall k :: Stored(s.stored, k) ==> k in s.kept && Alike(Get(s.stored, k), s.kept[k])
  }

  /** A send works from the act as it was last known, and is the only one. */
  ghost predicate Sole(s: State, p: Sender)
    requires Active(s, p)
  {
    var e := Copy(s, p);
    e.key in s.kept && Alike(e, s.kept[e.key]) && Alone(s, p, e.key)
  }

  ghost predicate SendersSole(s: State) {
    forall p :: Active(s, p) ==> Sole(s, p)
  }

  ghost predicate Trusted(s: State) {
    Whole(s) && OneId(s) && KeptKnown(s) && StoredAlike(s) && SendersSole(s)
  }

  lemma KnowsAlike(s: State, u: State, e: Held, f: Held)
    requires e.key == f.key && Alike(e, f) && u.requests == s.requests
    ensures Knows(s, e) <==> Knows(u, f)
  {
  }

  // ---------- What a step keeps ----------

  /** The acts there were are known as they were, but for `h`, known as it is. */
  lemma KeptStaysKnown(s: State, u: State, h: Held)
    requires KeptKnown(s) && u.requests == s.requests
    requires u.kept == s.kept || (u.kept == s.kept[h.key := h] && Knows(s, h))
    ensures KeptKnown(u)
  {
    hide Knows;
    forall k | k in u.kept
      ensures u.kept[k].key == k && Knows(u, u.kept[k])
    {
      KnowsAlike(s, u, u.kept[k], u.kept[k]);
    }
  }

  /** What a change put in the store is the act as it is known; the rest was before. */
  lemma StoredStaysAlike(s: State, u: State, c: Change)
    requires Unique(s.stored) && StoredAlike(s) && u.stored == Changed(s.stored, c)
    requires forall k :: k in s.kept && !ChangesAct(c, k) ==> k in u.kept && u.kept[k] == s.kept[k]
    requires c.Put? || (c.Update? && Stored(s.stored, c.e.key)) ==> c.e.key in u.kept && Alike(c.e, u.kept[c.e.key])
    ensures StoredAlike(u)
  {
    var all := s.stored;
    match c
    case Put(e) => PutKeeps(all, e);
    case Update(e) => UpdateKeeps(all, e);
    case Drop(key) => DropKeeps(all, key);
    case Refuse(key, reason) => RefuseKeeps(all, key, reason);
    case Nothing =>
    hide Stored, Unique, Changed, Get;
    forall k | Stored(u.stored, k)
      ensures k in u.kept && Alike(Get(u.stored, k), u.kept[k])
    {
    }
  }

  predicate ChangesAct(c: Change, k: Key) {
    match c
    case Put(e) => e.key == k
    case Update(e) => e.key == k
    case _ => false
  }

  /** A send goes on as it was, from the same act as it is still known. */
  ghost predicate GoesOn(s: State, u: State, q: Sender)
    requires Active(u, q)
  {
    && Active(s, q) && Copy(u, q).key == Copy(s, q).key && Alike(Copy(u, q), Copy(s, q))
    && (Copy(s, q).key in s.kept ==>
          Copy(s, q).key in u.kept && Alike(u.kept[Copy(s, q).key], s.kept[Copy(s, q).key]))
  }

  lemma StillAlone(s: State, u: State, q: Sender)
    requires Active(s, q) && Active(u, q) && Copy(u, q).key == Copy(s, q).key && Alone(s, q, Copy(s, q).key)
    requires forall r :: Active(u, r) && r != q ==>
      (Active(s, r) && Copy(u, r).key == Copy(s, r).key) || Copy(u, r).key != Copy(u, q).key
    ensures Alone(u, q, Copy(u, q).key)
  {
  }

  lemma NoneStarted(s: State, u: State)
    requires SendersSole(s) && forall q :: Active(u, q) ==> GoesOn(s, u, q)
    ensures SendersSole(u)
  {
    hide Active, Copy;
    forall q | Active(u, q)
      ensures Sole(u, q)
    {
      assert GoesOn(s, u, q) && Sole(s, q);
      forall r | Active(u, r) && r != q
        ensures Active(s, r) && Copy(u, r).key == Copy(s, r).key
      {
        assert GoesOn(s, u, r);
      }
      StillAlone(s, u, q);
    }
  }

  lemma OneStarted(s: State, u: State, p: Sender)
    requires SendersSole(s) && forall q :: Active(u, q) && q != p ==> GoesOn(s, u, q)
    requires Active(u, p) && Sole(u, p)
    ensures SendersSole(u)
  {
    hide Active, Copy;
    forall q | Active(u, q)
      ensures Sole(u, q)
    {
      if q != p {
        assert GoesOn(s, u, q) && Sole(s, q);
        forall r | Active(u, r) && r != q
          ensures (Active(s, r) && Copy(u, r).key == Copy(s, r).key) || Copy(u, r).key != Copy(u, q).key
        {
          if r != p {
            assert GoesOn(s, u, r);
          }
        }
        StillAlone(s, u, q);
      }
    }
  }

  /** A step that asked for nothing keeps the rest of what is trusted. */
  lemma SendersMakeItTrusted(s: State, e: Event, h: Held)
    requires Trusted(s) && Enabled(s, e) && SendersSole(Next(s, e)) && !e.Requests?
    requires var u := Next(s, e); u.kept == s.kept || (u.kept == s.kept[h.key := h] && Knows(s, h))
    requires
      var c := ChangeOf(s, e);
      && (forall k :: ChangesAct(c, k) && Next(s, e).kept != s.kept ==> k == h.key)
      && (forall k :: k in s.kept && !ChangesAct(c, k) ==> Next(s, e).kept[k] == s.kept[k])
      && (c.Put? || (c.Update? && Stored(s.stored, c.e.key)) ==>
        c.e.key in Next(s, e).kept && Alike(c.e, Next(s, e).kept[c.e.key]))
    requires Next(s, e).requests == s.requests
    ensures Trusted(Next(s, e))
  {
    var u := Next(s, e);
    hide Stored, Unique, Knows, Changed, ChangeOf, Next, Enabled, SendersSole;
    StepKeeps(s, e);
    StepChanges(s, e);
    KeptStaysKnown(s, u, h);
    StoredStaysAlike(s, u, ChangeOf(s, e));
  }

  lemma PutTrusted(s: State, h: Held)
    requires Trusted(s) && Enabled(s, Puts(h)) && Knows(s, h) && (NobodySends(s, h.key) || AsItWas(s, h))
    ensures Trusted(Next(s, Puts(h)))
  {
    var u := Next(s, Puts(h));
    hide PutIn, Knows, Stored, Unique, Whole, KeptKnown, StoredAlike;
    SendersAsTheyWere(s, u);
    forall q | Active(u, q)
      ensures GoesOn(s, u, q)
    {
      assert Sole(s, q);
    }
    hide GoesOn;
    NoneStarted(s, u);
    SendersMakeItTrusted(s, Puts(h), h);
  }

  lemma PressTrusted(s: State, t: nat, n: nat, h: Held)
    requires Trusted(s) && Enabled(s, Presses(t, n, h)) && Knows(s, h) && NobodySends(s, h.key)
    ensures Trusted(Next(s, Presses(t, n, h)))
  {
    hide PutIn, Knows, Stored, Unique, Whole, KeptKnown, StoredAlike;
    PressSenders(s, t, n, h);
    hide SendersSole;
    SendersMakeItTrusted(s, Presses(t, n, h), h);
  }

  lemma PressSenders(s: State, t: nat, n: nat, h: Held)
    requires SendersSole(s) && Enabled(s, Presses(t, n, h)) && NobodySends(s, h.key)
    ensures SendersSole(Next(s, Presses(t, n, h)))
  {
    var u, p := Next(s, Presses(t, n, h)), ByPress(t, n);
    hide PutIn, SendersSole;
    forall q | Active(u, q) && q != p
      ensures GoesOn(s, u, q) && Copy(u, q).key != h.key
    {
    }
    assert Copy(u, p) == h && Sole(u, p);
    hide GoesOn, Sole;
    OneStarted(s, u, p);
  }

  lemma UpdateTrusted(s: State, h: Held)
    requires Trusted(s) && Enabled(s, Updates(h)) && OwnCopy(s, h)
    ensures Trusted(Next(s, Updates(h)))
  {
    var u := Next(s, Updates(h));
    var p :| Active(s, p) && Copy(s, p) == h;
    assert Sole(s, p);
    KnowsAlike(s, s, s.kept[h.key], h);
    hide UpdateIn, Knows, Stored, Unique, Whole, StoredAlike;
    SendersAsTheyWere(s, u);
    assert forall q :: Active(u, q) ==> GoesOn(s, u, q);
    hide GoesOn;
    NoneStarted(s, u);
    SendersMakeItTrusted(s, Updates(h), h);
  }

  lemma LandSenders(s: State, p: Sender)
    requires SendersSole(s) && Active(s, p)
    ensures SendersSole(WriteLands(s, p))
  {
    var u := WriteLands(s, p);
    hide UpdateIn, SendersSole;
    forall q | Active(u, q)
      ensures GoesOn(s, u, q)
    {
    }
    hide GoesOn;
    NoneStarted(s, u);
  }

  lemma LandTrusted(s: State, p: Sender)
    requires Trusted(s) && Enabled(s, Lands(p))
    ensures Trusted(Next(s, Lands(p)))
  {
    var h := Copy(s, p).(done := Copy(s, p).done + 1);
    assert Sole(s, p);
    KnowsAlike(s, s, s.kept[h.key], h);
    hide UpdateIn, Knows, Stored, Unique, Whole, StoredAlike, KeptKnown, MayLand, WriteAnswered, Active, Copy,
      SendersSole, Sole;
    LandSenders(s, p);
    SendersMakeItTrusted(s, Lands(p), h);
  }

  predicate Quiet(e: Event) {
    e.Mints? || e.Dismisses? || e.Records? || e.Reloads? || e.PressReply?
  }

  lemma FewerSenders(s: State, e: Event)
    requires SendersSole(s) && Enabled(s, e) && Quiet(e)
    ensures SendersSole(Next(s, e))
  {
    hide SendersSole, MayLand, WriteAnswered, DropFrom, Transient, HasId;
    forall q | Active(Next(s, e), q)
      ensures GoesOn(s, Next(s, e), q)
    {
      OneOfThem(s, e, q);
    }
    hide Next, Enabled, GoesOn;
    NoneStarted(s, Next(s, e));
  }

  lemma OneOfThem(s: State, e: Event, q: Sender)
    requires Enabled(s, e) && Quiet(e) && Active(Next(s, e), q)
    ensures GoesOn(s, Next(s, e), q)
  {
    hide MayLand, WriteAnswered, DropFrom, Transient, HasId, NowReplied, WithTab, Active, Copy;
    match e
    case PressReply(t, n, out) => RestGoOn(s, t, n, out, q);
    case Reloads(t) => ElsewhereGoesOn(s, t, q);
    case Mints => SendersAsTheyWere(s, Next(s, e));
    case Dismisses(key) => SendersAsTheyWere(s, Next(s, e));
    case Records(r) => SendersAsTheyWere(s, Next(s, e));
    case _ =>
  }

  lemma RestGoOn(s: State, t: nat, n: nat, out: Outcome, q: Sender)
    requires Active(s, ByPress(t, n)) && Active(NowReplied(s, t, n, out), q)
    ensures GoesOn(s, NowReplied(s, t, n, out), q)
  {
    hide DropFrom, Transient;
  }

  lemma ElsewhereGoesOn(s: State, t: nat, q: Sender)
    requires Active(WithTab(s, t, NEW_TAB), q)
    ensures GoesOn(s, WithTab(s, t, NEW_TAB), q)
  {
  }

  /** A step after which the senders are some of those there were, from acts as they were. */
  lemma FewerTrusted(s: State, e: Event)
    requires Trusted(s) && Enabled(s, e) && Quiet(e)
    ensures Trusted(Next(s, e))
  {
    hide Whole, OneId, StoredAlike, KeptKnown, SendersSole, MayLand, WriteAnswered, DropFrom, Transient, HasId;
    assert Next(s, e).kept == s.kept && Next(s, e).requests == s.requests;
    FewerSenders(s, e);
    SendersMakeItTrusted(s, e, NOTHING);
  }

  /** A drain moved on: nothing else did. */
  lemma DrainMoved(s: State, u: State, t: nat, stored: seq<Held>, owner: string, left: seq<Held>)
    requires SendersSole(s) && u.kept == s.kept
    requires u.tabs == s.tabs[t := Advance(stored, TabOf(s, t), owner, left)]
    requires Active(u, ByDrain(t)) ==> Sole(u, ByDrain(t))
    ensures SendersSole(u)
  {
    AdvanceSends(stored, TabOf(s, t), owner, left);
    hide Advance;
    forall q | Active(u, q) && q != ByDrain(t)
      ensures GoesOn(s, u, q)
    {
    }
    hide GoesOn, Sole;
    if Active(u, ByDrain(t)) {
      OneStarted(s, u, ByDrain(t));
    } else {
      NoneStarted(s, u);
    }
  }

  lemma SoleFromTheStore(s: State, u: State, p: Sender)
    requires StoredAlike(u) && FromTheStore(u, p)
    ensures Active(u, p) ==> Sole(u, p)
  {
    hide Active, Copy, Stored, Get;
  }

  lemma DrainTrusted(s: State, e: Event, t: nat)
    requires Trusted(s) && Enabled(s, e) && Careful(s, e)
    requires (e.Drains? && e.t == t && TabOf(s, t).drain == None) || (e.DrainReply? && e.t == t)
    ensures Trusted(Next(s, e))
  {
    var u := Next(s, e);
    hide Knows, Stored, Unique, Whole, KeptKnown, MayLand, WriteAnswered, DropFrom, RefuseIn, Transient, FromTheStore,
      Advance;
    assert u.kept == s.kept && u.requests == s.requests;
    DrainStoredAlike(s, e);
    SoleFromTheStore(s, u, ByDrain(t));
    hide StoredAlike, Sole;
    DrainSenders(s, e, t);
    hide Trusted, Next;
    DrainAllTrusted(s, e);
  }

  lemma DrainStoredAlike(s: State, e: Event)
    requires Trusted(s) && Enabled(s, e) && (e.Drains? || e.DrainReply?)
    ensures StoredAlike(Next(s, e))
  {
    hide Knows, Stored, Unique, KeptKnown, MayLand, WriteAnswered, DropFrom, RefuseIn, Transient, Advance, Changed;
    StepChanges(s, e);
    assert Next(s, e).kept == s.kept;
    hide StoredAlike;
    StoredStaysAlike(s, Next(s, e), ChangeOf(s, e));
  }

  lemma DrainSenders(s: State, e: Event, t: nat)
    requires Trusted(s) && Enabled(s, e)
    requires (e.Drains? && e.t == t && TabOf(s, t).drain == None) || (e.DrainReply? && e.t == t)
    requires Active(Next(s, e), ByDrain(t)) ==> Sole(Next(s, e), ByDrain(t))
    ensures SendersSole(Next(s, e))
  {
    var u := Next(s, e);
    hide Whole, OneId, KeptKnown, StoredAlike, MayLand, DropFrom, RefuseIn, Advance, Transient, Sole, SendersSole;
    match e
    case Drains(_, owner) => DrainMoved(s, u, t, s.stored, owner, s.stored);
    case DrainReply(_, out) =>
      var d := TabOf(s, t).drain.value;
      if out.Failed? && Transient(out.status) {
        DrainStopped(s, u, t);
      } else {
        DrainMoved(s, u, t, u.stored, d.owner, d.left);
      }
  }

  lemma DrainStopped(s: State, u: State, t: nat)
    requires SendersSole(s) && u == WithTab(s, t, TabOf(s, t).(drain := None))
    ensures SendersSole(u)
  {
    hide SendersSole;
    forall q | Active(u, q)
      ensures GoesOn(s, u, q)
    {
    }
    NoneStarted(s, u);
  }

  lemma DrainAllTrusted(s: State, e: Event)
    requires Trusted(s) && Enabled(s, e) && (e.Drains? || e.DrainReply?)
    requires SendersSole(Next(s, e))
    ensures Trusted(Next(s, e))
  {
    hide Knows, Stored, Unique, Whole, KeptKnown, StoredAlike, MayLand, WriteAnswered, DropFrom, RefuseIn, Transient,
      Advance;
    assert Next(s, e).kept == s.kept && Next(s, e).requests == s.requests;
    SendersMakeItTrusted(s, e, NOTHING);
  }

  // ---------- Asking ----------

  /** The copy a send works from once it has asked under a name. */
  function AskedCopy(s: State, p: Sender, name: string): Held
    requires Active(s, p)
  {
    var e := Copy(s, p);
    if name in e.ids then e else e.(ids := e.ids[name := IdUnder(s, p, name)])
  }

  lemma AskedKnows(s: State, p: Sender, name: string, e: Held)
    requires Active(s, p) && OneId(s) && Knows(s, Copy(s, p)) && e.key == Copy(s, p).key
    requires Alike(e, AskedCopy(s, p, name))
    ensures OneId(Asks(s, p, name)) && Knows(Asks(s, p, name), e)
  {
    KnownAsk(s, p, name);
    hide Copy, WithCopy, Active, UpdateIn, OneId;
  }

  lemma CopiesAfter(s: State, p: Sender, name: string, q: Sender)
    requires Active(s, p)
    ensures Active(Asks(s, p, name), q) <==> Active(s, q)
    ensures Active(s, q) ==> Copy(Asks(s, p, name), q) == if q == p then AskedCopy(s, p, name) else Copy(s, q)
  {
    hide UpdateIn;
  }

  lemma RequestsAfter(s: State, p: Sender, name: string)
    requires Active(s, p)
    ensures
      var u, e := Asks(s, p, name), Copy(s, p);
      && u.requests == s.requests + {Request(e.key, name, IdUnder(s, p, name), e.at)}
      && u.kept == if name in e.ids then s.kept else s.kept[e.key := AskedCopy(s, p, name)]
  {
    hide UpdateIn;
  }

  /** Asking for one act leaves what is known of the others. */
  lemma OthersKnow(s: State, p: Sender, name: string, e: Held)
    requires Active(s, p) && Knows(s, e) && e.key != Copy(s, p).key
    ensures Knows(Asks(s, p, name), e)
  {
    RequestsAfter(s, p, name);
    hide Asks, Copy, Active;
  }

  lemma AskKnown(s: State, p: Sender, name: string)
    requires Trusted(s) && Active(s, p)
    ensures OneId(Asks(s, p, name)) && KeptKnown(Asks(s, p, name))
    ensures forall k :: k in s.kept && k != Copy(s, p).key ==> Asks(s, p, name).kept[k] == s.kept[k]
    ensures Copy(s, p).key in s.kept && Alike(Asks(s, p, name).kept[Copy(s, p).key], AskedCopy(s, p, name))
  {
    var u, e := Asks(s, p, name), Copy(s, p);
    assert Sole(s, p);
    KnowsAlike(s, s, s.kept[e.key], e);
    RequestsAfter(s, p, name);
    AskedKnows(s, p, name, AskedCopy(s, p, name));
    hide Asks, Knows, OneId, Whole, StoredAlike, SendersSole, Active, Copy;
    forall k | k in u.kept
      ensures u.kept[k].key == k && Knows(u, u.kept[k])
    {
      if k == e.key {
        AskedKnows(s, p, name, u.kept[k]);
      } else {
        OthersKnow(s, p, name, s.kept[k]);
      }
    }
  }

  lemma AskTrusted(s: State, p: Sender, name: string)
    requires Trusted(s) && Active(s, p)
    ensures Trusted(Asks(s, p, name))
  {
    var u, e, ask := Asks(s, p, name), Copy(s, p), Requests(p, name);
    assert Sole(s, p);
    StepKeeps(s, ask);
    StepChanges(s, ask);
    AskKnown(s, p, name);
    assert ChangeOf(s, ask) == if name in e.ids then Nothing else Update(AskedCopy(s, p, name));
    hide Asks, Whole, OneId, KeptKnown, Stored, Changed, Knows, Active, Copy;
    assert Unique(s.stored) by {
      WholeIsUnique(s);
    }
    StoredStaysAlike(s, u, ChangeOf(s, ask));
    AskSenders(s, p, name);
  }

  /** A send goes on being the only one, from the act as it is known, as it asks. */
  lemma AskSenders(s: State, p: Sender, name: string)
    requires SendersSole(s) && Active(s, p)
    requires Copy(s, p).key in s.kept && Alike(Asks(s, p, name).kept[Copy(s, p).key], AskedCopy(s, p, name))
    requires forall k :: k in s.kept && k != Copy(s, p).key ==> k in Asks(s, p, name).kept
    requires forall k :: k in s.kept && k != Copy(s, p).key ==> Asks(s, p, name).kept[k] == s.kept[k]
    ensures SendersSole(Asks(s, p, name))
  {
    var u := Asks(s, p, name);
    assert Sole(s, p);
    hide Asks, Active, Copy;
    forall q | Active(u, q)
      ensures Sole(u, q)
    {
      CopiesAfter(s, p, name, q);
      assert Sole(s, q);
      forall r | Active(u, r) && r != q
        ensures Copy(u, r).key != Copy(u, q).key
      {
        CopiesAfter(s, p, name, r);
      }
    }
  }

  lemma WholeIsUnique(s: State)
    requires Whole(s)
    ensures Unique(s.stored)
  {
  }

  lemma StepsCarefully(s: State, e: Event)
    requires Trusted(s) && Enabled(s, e) && Careful(s, e)
    ensures Trusted(Next(s, e))
  {
    hide Trusted, FromTheStore, OwnCopy, Knows, NobodySends;
    match e
    case Puts(h) => PutTrusted(s, h);
    case Updates(h) => UpdateTrusted(s, h);
    case Drains(t, owner) =>
      if TabOf(s, t).drain == None {
        DrainTrusted(s, e, t);
      }
    case DrainReply(t, out) => DrainTrusted(s, e, t);
    case Presses(t, n, h) => PressTrusted(s, t, n, h);
    case Requests(p, name) => AskTrusted(s, p, name);
    case Lands(p) => LandTrusted(s, p);
    case _ => FewerTrusted(s, e);
  }

  lemma StartIsTrusted()
    ensures Trusted(START)
  {
  }

  /** Over every run in which sends start from the store, through retries, lost
      replies, crashes and reloads: every request for an act under a name carries
      the same id and moment, and the server's ledger holds at most one record of it. */
  lemma {:induction false} OnceOverEveryCarefulRun(s: State, es: seq<Event>, last: State)
    requires Trusted(s) && CarefulRun(s, es, last)
    ensures Trusted(last) && OneId(last)
    ensures forall q, r :: q in last.ledger && r in last.ledger && q.key == r.key && q.name == r.name ==> q == r
    decreases |es|
  {
    if es != [] {
      StepsCarefully(s, es[0]);
      OnceOverEveryCarefulRun(Next(s, es[0]), es[1..], last);
    }
  }
}
