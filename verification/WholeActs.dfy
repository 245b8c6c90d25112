/** An act kept with the same writes throughout: when it leaves as landed, every one of them is recorded. */
module WholeActs {
  import opened Entries
  import opened ExactlyOnce
  import opened Options
  import opened OutboxRuns
  import opened SafeRuns

  predicate Has(e: Held, key: Key, writes: seq<Names>) {
    e.key == key ==> e.writes == writes
  }

  /** Wherever the act is kept, stored, sent, listed or landed, it has these writes. */
  ghost predicate AllWith(s: State, key: Key, writes: seq<Names>) {
    && (key in s.kept ==> s.kept[key].writes == writes)
    && (key in s.landed ==> s.landed[key] == writes)
    && AllHave(s.stored, key, writes)
    && (forall p :: Active(s, p) ==> Has(Copy(s, p), key, writes))
    && (forall t, e :: Lists(s, t, e) ==> Has(e, key, writes))
  }

  ghost predicate AllHave(all: seq<Held>, key: Key, writes: seq<Names>) {
    forall e :: e in all ==> Has(e, key, writes)
  }

  /** Whoever puts, presses or updates the act does it with these writes. */
  predicate With(e: Event, key: Key, writes: seq<Names>) {
    match e
    case Puts(h) => Has(h, key, writes)
    case Updates(h) => Has(h, key, writes)
    case Presses(t, n, h) => Has(h, key, writes)
    case _ => true
  }

  // ---------- What a step keeps ----------

  lemma StoredAfter(all: seq<Held>, c: Change, key: Key, writes: seq<Names>)
    requires AllHave(all, key, writes)
    requires (c.Put? ==> Has(c.e, key, writes)) && (c.Update? ==> Has(c.e, key, writes))
    ensures AllHave(Changed(all, c), key, writes)
  {
    match c
    case Drop(k) => DropsOnly(all, k);
    case Refuse(k, reason) =>
      var after := RefuseIn(all, k, reason);
      forall e | e in after
        ensures Has(e, key, writes)
      {
        var i :| 0 <= i < |after| && after[i] == e;
        assert all[i] in all;
      }
    case _ =>
  }

  /** Where a send's copy comes from: the send's own, a press, a list, or the store. */
  ghost predicate ComesFrom(s: State, e: Event, u: State, p: Sender)
    requires Active(u, p)
  {
    || (Active(s, p) && Copy(u, p).key == Copy(s, p).key && Copy(u, p).writes == Copy(s, p).writes)
    || (e.Presses? && Copy(u, p) == e.e)
    || Lists(s, p.t, Copy(u, p))
    || Copy(u, p) in s.stored
  }

  lemma CopyAfter(s: State, e: Event, p: Sender)
    requires Enabled(s, e) && Active(Next(s, e), p)
    ensures ComesFrom(s, e, Next(s, e), p)
  {
    hide Advance, Asks, WriteLands, DrainStarts, DrainReplied, NowStarts, NowReplied, Copy, MayLand,
      WriteAnswered, Truthful, Lists;
    match e
    case Drains(t, owner) => CopyOfDrain(s, e, t, owner, p);
    case DrainReply(t, out) => CopyAfterReply(s, e, t, out, p);
    case Presses(t, n, h) => CopyAfterPress(s, t, n, h, p);
    case PressReply(t, n, out) => CopyAfterPressReply(s, e, t, n, out, p);
    case Requests(q, name) => CopiesAfter(s, q, name, p);
    case Lands(q) => CopyAfterLanding(s, e, q, p);
    case Reloads(t) => CopyAfterReload(s, e, t, p);
    case Mints => SendersAsTheyWere(s, Next(s, e));
    case Puts(h) => SendersAsTheyWere(s, Next(s, e));
    case Updates(h) => SendersAsTheyWere(s, Next(s, e));
    case Dismisses(key) => SendersAsTheyWere(s, Next(s, e));
    case Records(r) => SendersAsTheyWere(s, Next(s, e));
  }

  lemma CopyOfDrain(s: State, e: Event, t: nat, owner: string, p: Sender)
    requires Active(DrainStarts(s, t, owner), p)
    ensures ComesFrom(s, e, DrainStarts(s, t, owner), p)
  {
    AdvanceSends(s.stored, TabOf(s, t), owner, s.stored);
    hide Advance, Sends;
  }

  lemma CopyAfterReply(s: State, e: Event, t: nat, out: Outcome, p: Sender)
    requires TabOf(s, t).drain.Some? && Active(DrainReplied(s, t, out), p)
    ensures ComesFrom(s, e, DrainReplied(s, t, out), p)
  {
    hide DropFrom, RefuseIn, Transient, Active, Copy, ComesFrom;
    var u, tab := DrainReplied(s, t, out), TabOf(s, t);
    var d := tab.drain.value;
    AdvanceSends(u.stored, tab, d.owner, d.left);
    hide Advance, Sends;
    DrainWentOn(s, e, u, t, p);
  }

  lemma DrainWentOn(s: State, e: Event, u: State, t: nat, p: Sender)
    requires u.tabs == s.tabs[t := TabOf(u, t)] && TabOf(u, t).nows == TabOf(s, t).nows && Active(u, p)
    requires TabOf(u, t).drain.Some? ==> Lists(s, t, TabOf(u, t).drain.value.sending)
    ensures ComesFrom(s, e, u, p)
  {
  }

  lemma CopyAfterPress(s: State, t: nat, n: nat, h: Held, p: Sender)
    requires Active(NowStarts(s, t, n, h), p)
    ensures ComesFrom(s, Presses(t, n, h), NowStarts(s, t, n, h), p)
  {
    hide PutIn;
  }

  lemma CopyAfterPressReply(s: State, e: Event, t: nat, n: nat, out: Outcome, p: Sender)
    requires Active(s, ByPress(t, n)) && Active(NowReplied(s, t, n, out), p)
    ensures ComesFrom(s, e, NowReplied(s, t, n, out), p)
  {
    hide DropFrom, Transient;
  }

  lemma CopyAfterLanding(s: State, e: Event, q: Sender, p: Sender)
    requires Active(s, q) && Active(WriteLands(s, q), p)
    ensures ComesFrom(s, e, WriteLands(s, q), p)
  {
    hide UpdateIn;
  }

  lemma CopyAfterReload(s: State, e: Event, t: nat, p: Sender)
    requires Active(WithTab(s, t, NEW_TAB), p)
    ensures ComesFrom(s, e, WithTab(s, t, NEW_TAB), p)
  {
  }

  lemma ChangeHas(s: State, e: Event, key: Key, writes: seq<Names>)
    requires Enabled(s, e) && AllWith(s, key, writes) && With(e, key, writes)
    ensures var c := ChangeOf(s, e); (c.Put? ==> Has(c.e, key, writes)) && (c.Update? ==> Has(c.e, key, writes))
  {
    hide Active, Copy, MayLand, WriteAnswered, Truthful, Transient;
  }

  lemma KeptAfter(s: State, e: Event, key: Key, writes: seq<Names>)
    requires Enabled(s, e) && AllWith(s, key, writes) && With(e, key, writes)
    ensures key in Next(s, e).kept ==> Next(s, e).kept[key].writes == writes
  {
    hide Advance, MayLand, WriteAnswered, Truthful, Transient, PutIn, UpdateIn, DropFrom, RefuseIn, Stored, Active,
      Copy;
    if e.Requests? {
      RequestsAfter(s, e.p, e.name);
      hide Asks;
      assert Has(Copy(s, e.p), key, writes);
    } else if e.Lands? {
      assert Has(Copy(s, e.p), key, writes);
    }
  }

  lemma LandedAfter(s: State, e: Event, key: Key, writes: seq<Names>)
    requires Enabled(s, e) && AllWith(s, key, writes)
    ensures key in Next(s, e).landed ==> Next(s, e).landed[key] == writes
  {
    hide Next, Enabled, Active, Copy, MayLand;
    LandsWhat(s, e);
  }

  lemma StepKeepsWrites(s: State, e: Event, key: Key, writes: seq<Names>)
    requires Enabled(s, e) && AllWith(s, key, writes) && With(e, key, writes)
    ensures AllWith(Next(s, e), key, writes)
  {
    var u := Next(s, e);
    KeptAfter(s, e, key, writes);
    LandedAfter(s, e, key, writes);
    StepChanges(s, e);
    ChangeHas(s, e, key, writes);
    StoredAfter(s.stored, ChangeOf(s, e), key, writes);
    hide Next, Enabled, Active, Copy, Lists, ChangeOf, Changed, LetsGo;
    forall p | Active(u, p)
      ensures Has(Copy(u, p), key, writes)
    {
      CopyAfter(s, e, p);
      if Active(s, p) {
        assert Has(Copy(s, p), key, writes);
      }
    }
    forall t, h | Lists(u, t, h)
      ensures Has(h, key, writes)
    {
      ListsAfter(s, e, t, h);
    }
  }

  lemma {:induction false} RunKeepsWrites(s: State, es: seq<Event>, last: State, key: Key, writes: seq<Names>)
    requires Run(s, es, last) && AllWith(s, key, writes) && forall e :: e in es ==> With(e, key, writes)
    ensures AllWith(last, key, writes)
    decreases |es|
  {
    hide AllWith, Next, Enabled;
    if es != [] {
      assert es[0] in es;
      StepKeepsWrites(s, es[0], key, writes);
      RunKeepsWrites(Next(s, es[0]), es[1..], last, key, writes);
    }
  }

  /** Over every interleaving from an empty store, in any number of tabs, with crashes and
      reloads: an act kept with these writes is stored still, or the ledger has a record
      under every name of every one of them, or it was refused to its press, or let go. */
  lemma WhollyRecorded(es: seq<Event>, last: State, key: Key, writes: seq<Names>)
    requires Run(START, es, last) && (forall e :: e in es ==> With(e, key, writes)) && key in last.kept
    ensures
      || Stored(last.stored, key) || AllRecorded(last, key, writes, |writes|)
      || key in last.refusedAtPress || key in last.dismissed
  {
    NothingLost(START, es, last);
    RunKeepsWrites(START, es, last, key, writes);
  }
}
