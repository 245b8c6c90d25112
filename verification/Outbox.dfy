/** The durable outbox: the store, and one tab's hold on it. */
module Outbox {
  import opened Entries
  import opened Options
  import opened OutboxRuns

  /** Somewhere to keep the acts across a reload; every tab's outbox is given the same one. */
  class Store {
    var acts: seq<Held>

    constructor ()
      ensures acts == []
    {
      acts := [];
    }
  }

  class Outbox {
    const store: Store
    var sending: bool
    /** The keys a drain passes over. */
    var pressed: set<Key>

    // Where the calls to `drain` and `now` stand between their awaits.
    var drain: Option<Drain>
    var nows: map<nat, Held>

    ghost predicate Valid()
      reads this
    {
      sending == drain.Some?
    }

    ghost function Now(): Tab
      reads this
    {
      Tab(drain, nows, pressed)
    }

    /** This is tab `t` of a world, and its store the world's. */
    ghost predicate Shows(s: State, t: nat)
      reads this, store
    {
      s.stored == store.acts && TabOf(s, t) == Now()
    }

    constructor (store: Store)
      ensures this.store == store && Valid() && Now() == NEW_TAB
    {
      this.store := store;
      sending, pressed, drain, nows := false, {}, None, map[];
    }

    /** Stores the act, in place of any other of its key. */
    method Put(e: Held)
      modifies store
      ensures store.acts == PutIn(old(store.acts), e)
      ensures forall s, t :: old(Shows(s, t)) ==> Shows(Keeps(s, e), t)
    {
      var all := store.acts;
      var at := Find(all, e.key);
      if at >= 0 {
        all := all[at := e];
      } else {
        all := all + [e];
      }
      store.acts := all;
    }

    /** Replaces the stored act of that key, and adds none. */
    method Update(e: Held)
      modifies store
      ensures store.acts == UpdateIn(old(store.acts), e)
      ensures forall s, t :: old(Shows(s, t)) && Truthful(s, e) ==> Shows(Next(s, Updates(e)), t)
    {
      var at := Find(store.acts, e.key);
      if at < 0 {
        return;
      }
      store.acts := store.acts[at := e];
    }

    /** Removes the key, and writes nothing when it is not there. */
    method Drop(key: Key)
      modifies store
      ensures store.acts == DropFrom(old(store.acts), key)
      ensures forall s, t :: old(Shows(s, t)) ==> Shows(Next(s, Dismisses(key)), t)
    {
      var all := store.acts;
      if !(exists i :: 0 <= i < |all| && all[i].key == key) {
        DropNone(all, key);
        return;
      }
      var rest := [];
      for i := 0 to |all|
        invariant DropFrom(all, key) == rest + DropFrom(all[i..], key)
      {
        assert all[i..][0] == all[i] && all[i..][1..] == all[i + 1..];
        if all[i].key != key {
          assert rest + ([all[i]] + DropFrom(all[i + 1..], key)) == (rest + [all[i]]) + DropFrom(all[i + 1..], key);
          rest := rest + [all[i]];
        }
      }
      assert all[|all|..] == [] && rest + [] == rest;
      store.acts := rest;
    }

    /** The refusal is put on that act and no other; none moves, comes or goes. */
    method Refuse(key: Key, reason: string)
      modifies store
      ensures store.acts == RefuseIn(old(store.acts), key, reason)
      ensures Unique(old(store.acts)) ==>
        && Unique(store.acts) && OrderKept(old(store.acts), store.acts)
        && (forall k :: Stored(store.acts, k) <==> Stored(old(store.acts), k))
        && (Stored(store.acts, key) ==> Get(store.acts, key) == Get(old(store.acts), key).(refused := Some(reason)))
        && (forall k :: Stored(store.acts, k) && k != key ==> Get(store.acts, k) == Get(old(store.acts), k))
    {
      ghost var was := store.acts;
      store.acts := RefuseIn(store.acts, key, reason);
      if Unique(was) {
        RefuseKeeps(was, key, reason);
      }
    }

    /** The stretch of `drain` before its first await; with a drain going on, nothing. */
    method DrainBegins(owner: string)
      requires Valid()
      modifies this
      ensures Valid()
      ensures Now() == if old(drain).Some? then old(Now()) else Advance(store.acts, old(Now()), owner, store.acts)
      ensures store.acts == old(store.acts)
      ensures old(drain) == None && drain.Some? ==>
        drain.value.owner == owner && IsForDrain(store.acts, old(Now()), owner, drain.value.sending)
      ensures forall s, t :: old(Shows(s, t)) ==> Shows(DrainStarts(s, t, owner), t)
    {
      if !sending {
        sending := true;
        DrainOn(owner, store.acts);
      }
    }

    /** The drain's loop, from the entries it has not come to, up to its next send. */
    method DrainOn(owner: string, entries: seq<Held>)
      requires sending
      modifies this
      ensures Valid() && Now() == Advance(store.acts, old(Now()), owner, entries)
      ensures drain.Some? ==>
        drain.value.owner == owner && IsForDrain(store.acts, old(Now()), owner, drain.value.sending)
    {
      AdvanceSends(store.acts, Now(), owner, entries);
      var i := 0;
      assert entries[0..] == entries;
      while i < |entries|
        invariant i <= |entries|
        invariant sending && Now() == old(Now())
        invariant Advance(store.acts, old(Now()), owner, entries) ==
          Advance(store.acts, old(Now()), owner, entries[i..])
      {
        var e := entries[i];
        assert entries[i..][0] == e && entries[i..][1..] == entries[i + 1..];
        i := i + 1;
        if e.owner != owner || e.refused != None || e.key in pressed {
          continue;
        }
        // Listed, but no longer stored, or refused since.
        if !(exists k :: 0 <= k < |store.acts| && store.acts[k].key == e.key && store.acts[k].refused == None) {
          continue;
        }
        drain := Some(Drain(owner, e, entries[i..]));
        return;
      }
      drain := None;
      sending := false;
    }

    /** The reply to the act a drain is sending, and on to the next. */
    method DrainGoesOn(out: Outcome)
      requires Valid() && drain.Some?
      modifies this, store
      ensures Valid()
      ensures
        var d := old(drain).value;
        match out
        case Landed =>
          && store.acts == DropFrom(old(store.acts), d.sending.key)
          && Now() == Advance(store.acts, old(Now()), d.owner, d.left)
        case Failed(status, message) =>
          if Transient(status) then store.acts == old(store.acts) && Now() == old(Now()).(drain := None)
          else
            && store.acts == RefuseIn(old(store.acts), d.sending.key, Said(message))
            && Now() == Advance(store.acts, old(Now()), d.owner, d.left)
      ensures drain.Some? ==>
        && drain.value.owner == old(drain).value.owner
        && IsForDrain(store.acts, old(Now()), drain.value.owner, drain.value.sending)
      ensures forall s, t :: old(Shows(s, t)) ==> Shows(DrainReplied(s, t, out), t)
    {
      var d := drain.value;
      match out {
        case Landed =>
          Drop(d.sending.key);
          DrainOn(d.owner, d.left);
        case Failed(status, message) =>
          if Transient(status) {
            drain := None;
            sending := false;
          } else {
            Refuse(d.sending.key, Said(message));
            DrainOn(d.owner, d.left);
          }
      }
    }

    /** The stretch of `now` before its await: stored, and out of the drain's way. */
    method PressBegins(n: nat, e: Held)
      requires Valid() && n !in nows
      modifies this, store
      ensures Valid()
      ensures store.acts == PutIn(old(store.acts), e)
      ensures Now() == Tab(old(drain), old(nows)[n := e], old(pressed) + {e.key})
      ensures forall s, t :: old(Shows(s, t)) ==> Shows(NowStarts(s, t, n, e), t)
    {
      pressed := pressed + {e.key};
      Put(e);
      nows := nows[n := e];
    }

    /** The id of a name: found in the copy, or `mint`, which both the copy and the stored
        act then hold. */
    method IdFor(e: Held, name: string, mint: Id) returns (copy: Held, id: Id)
      modifies store
      ensures name in e.ids ==> copy == e && id == e.ids[name] && store.acts == old(store.acts)
      ensures name !in e.ids ==>
        copy == e.(ids := e.ids[name := mint]) && id == mint && store.acts == UpdateIn(old(store.acts), copy)
      ensures name in copy.ids && copy.ids[name] == id
      ensures forall s, p ::
        Active(s, p) && Copy(s, p) == e && s.stored == old(store.acts) && mint == Id(e.key, name, s.unused) ==>
        Asks(s, p, name).stored == store.acts && IdUnder(s, p, name) == id
    {
      copy := e;
      if name in e.ids {
        return e, e.ids[name];
      }
      id := mint;
      copy := e.(ids := e.ids[name := id]);
      Update(copy);
    }

    /** A write of an act being sent was answered: the copy and the stored act count it. */
    method CountLanded(e: Held) returns (copy: Held)
      modifies store
      ensures copy == e.(done := e.done + 1) && store.acts == UpdateIn(old(store.acts), copy)
      ensures forall s, p :: Active(s, p) && Copy(s, p) == e && s.stored == old(store.acts) ==>
        WriteLands(s, p).stored == store.acts
    {
      copy := e.(done := e.done + 1);
      Update(copy);
    }

    /** The stretch of `now` after its await: stored still exactly when unanswered, and
        a refusal is handed back. */
    method PressEnds(n: nat, out: Outcome) returns (shown: bool)
      requires Valid() && n in nows
      modifies this, store
      ensures Valid()
      ensures
        var key := old(nows)[n].key;
        && Now() == Tab(old(drain), old(nows) - {n}, old(pressed) - {key})
        && store.acts == (if out == Landed || !Transient(out.status) then DropFrom(old(store.acts), key)
                          else old(store.acts))
        && (shown <==> out.Failed? && !Transient(out.status))
      ensures forall s, t :: old(Shows(s, t)) ==> Shows(NowReplied(s, t, n, out), t)
    {
      var key := nows[n].key;
      shown := false;
      match out {
        case Landed => Drop(key);
        case Failed(status, message) =>
          if !Transient(status) {
            Drop(key);
            shown := true;
          }
      }
      nows := nows - {n};
      pressed := pressed - {key};
    }
  }

  lemma {:induction false} DropNone(all: seq<Held>, key: Key)
    requires forall i :: 0 <= i < |all| ==> all[i].key != key
    ensures DropFrom(all, key) == all
  {
    if all != [] {
      DropNone(all[1..], key);
    }
  }
}
