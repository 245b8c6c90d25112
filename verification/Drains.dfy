/** What a drain sends, and leaves: its owner's waiting acts, each in turn, and no other's. */
module Drains {
  import opened Entries
  import opened ExactlyOnce
  import opened Options
  import opened OutboxRuns

  // ---------- Nobody else's ----------

  /** Every drain under way is sending an act of the person whose drain it is. */
  ghost predicate OwnActs(s: State) {
    forall t :: TabOf(s, t).drain.Some? ==> TabOf(s, t).drain.value.sending.owner == TabOf(s, t).drain.value.owner
  }

  lemma OthersDrains(s: State, u: State, t: nat)
    requires OwnActs(s) && u.tabs == s.tabs[t := TabOf(u, t)]
    requires
      TabOf(u, t).drain.Some? ==> TabOf(u, t).drain.value.sending.owner == TabOf(u, t).drain.value.owner
    ensures OwnActs(u)
  {
    forall x | TabOf(u, x).drain.Some?
      ensures TabOf(u, x).drain.value.sending.owner == TabOf(u, x).drain.value.owner
    {
      assert x != t ==> TabOf(u, x) == TabOf(s, x);
    }
  }

  lemma SameDrains(s: State, u: State)
    requires OwnActs(s) && u.tabs == s.tabs
    ensures OwnActs(u)
  {
    assert forall x :: TabOf(u, x) == TabOf(s, x);
  }

  lemma DrainKeepsOwn(s: State, t: nat, owner: string, out: Outcome)
    requires OwnActs(s)
    ensures OwnActs(DrainStarts(s, t, owner))
    ensures Active(s, ByDrain(t)) ==> OwnActs(DrainReplied(s, t, out))
  {
    hide OwnActs, DropFrom, RefuseIn, Transient, DrainReplied;
    var tab := TabOf(s, t);
    AdvanceSends(s.stored, tab, owner, s.stored);
    hide Advance;
    if tab.drain.Some? {
      SameDrains(s, s);
      ReplyKeepsOwn(s, t, out);
    } else {
      OthersDrains(s, DrainStarts(s, t, owner), t);
    }
  }

  lemma ReplyKeepsOwn(s: State, t: nat, out: Outcome)
    requires OwnActs(s) && TabOf(s, t).drain.Some?
    ensures OwnActs(DrainReplied(s, t, out))
  {
    hide OwnActs, DropFrom, RefuseIn, Transient;
    var u, d := DrainReplied(s, t, out), TabOf(s, t).drain.value;
    AdvanceSends(u.stored, TabOf(s, t), d.owner, d.left);
    hide Advance;
    OthersDrains(s, u, t);
  }

  lemma PressKeepsOwn(s: State, t: nat, n: nat, h: Held, out: Outcome)
    requires OwnActs(s)
    ensures OwnActs(NowStarts(s, t, n, h))
    ensures Active(s, ByPress(t, n)) ==> OwnActs(NowReplied(s, t, n, out))
  {
    hide PutIn, DropFrom, Transient;
    OthersDrains(s, NowStarts(s, t, n, h), t);
    if Active(s, ByPress(t, n)) {
      OthersDrains(s, NowReplied(s, t, n, out), t);
    }
  }

  lemma SendKeepsOwn(s: State, p: Sender, name: string)
    requires OwnActs(s) && Active(s, p)
    ensures OwnActs(Asks(s, p, name)) && OwnActs(WriteLands(s, p))
  {
    hide UpdateIn;
    OthersDrains(s, WriteLands(s, p), p.t);
    var e := Copy(s, p);
    if name in e.ids {
      SameDrains(s, Asks(s, p, name));
    } else {
      OthersDrains(s, Asks(s, p, name), p.t);
    }
  }

  lemma StepKeepsOwn(s: State, e: Event)
    requires OwnActs(s) && Enabled(s, e)
    ensures OwnActs(Next(s, e))
  {
    hide OwnActs, DrainStarts, DrainReplied, NowStarts, NowReplied, Asks, WriteLands, Active, Copy, MayLand,
      WriteAnswered, Truthful, TabOf;
    match e
    case Drains(t, owner) => DrainKeepsOwn(s, t, owner, Landed);
    case DrainReply(t, out) => DrainKeepsOwn(s, t, "", out);
    case Presses(t, n, h) => PressKeepsOwn(s, t, n, h, Landed);
    case PressReply(t, n, out) => PressKeepsOwn(s, t, n, NOTHING, out);
    case Requests(p, name) => SendKeepsOwn(s, p, name);
    case Lands(p) => SendKeepsOwn(s, p, "");
    case Reloads(t) => ReloadKeepsOwn(s, t);
    case Mints => SameDrains(s, Next(s, e));
    case Puts(h) => SameDrains(s, Next(s, e));
    case Updates(h) => SameDrains(s, Next(s, e));
    case Dismisses(key) => SameDrains(s, Next(s, e));
    case Records(r) => SameDrains(s, Next(s, e));
  }

  lemma ReloadKeepsOwn(s: State, t: nat)
    requires OwnActs(s)
    ensures OwnActs(WithTab(s, t, NEW_TAB))
  {
    OthersDrains(s, WithTab(s, t, NEW_TAB), t);
  }

  /** Over every run, in any number of tabs, nobody's act is sent as anybody else. */
  lemma {:induction false} NeverSentAsAnother(s: State, es: seq<Event>, last: State)
    requires Run(s, es, last) && OwnActs(s)
    ensures OwnActs(last)
    decreases |es|
  {
    if es != [] {
      hide OwnActs, Next, Enabled;
      StepKeepsOwn(s, es[0]);
      NeverSentAsAnother(Next(s, es[0]), es[1..], last);
    }
  }

  lemma NeverSentAsAnotherFromTheStart(es: seq<Event>, last: State, t: nat)
    requires Run(START, es, last) && TabOf(last, t).drain.Some?
    ensures TabOf(last, t).drain.value.sending.owner == TabOf(last, t).drain.value.owner
  {
    NeverSentAsAnother(START, es, last);
  }

  // ---------- A refusal, and no answer ----------

  /** A refused act stays, says why, and is not what the drain goes on to; the rest are as
      they were. With no answer, or none of the act's making, the drain stops and
      nothing is changed. */
  lemma RefusedIsShown(s: State, t: nat, status: Option<int>, message: string)
    requires Unique(s.stored) && TabOf(s, t).drain.Some?
    ensures
      var u, key := DrainReplied(s, t, Failed(status, message)), TabOf(s, t).drain.value.sending.key;
      if Transient(status) then u.stored == s.stored && TabOf(u, t).drain == None
      else
        && (forall k :: Stored(u.stored, k) <==> Stored(s.stored, k))
        && (Stored(s.stored, key) ==>
              Get(u.stored, key).refused == Some(if message == "" then "The server refused it." else message))
        && (forall k :: Stored(s.stored, k) && k != key ==> Get(u.stored, k) == Get(s.stored, k))
        && (TabOf(u, t).drain.Some? ==> TabOf(u, t).drain.value.sending.key != key)
  {
    var u, tab := DrainReplied(s, t, Failed(status, message)), TabOf(s, t);
    var d := tab.drain.value;
    if !Transient(status) {
      RefuseKeeps(s.stored, d.sending.key, Said(message));
      AdvanceSends(u.stored, tab, d.owner, d.left);
      hide Advance, Stored, Get, Unique, Transient;
    }
  }

  // ---------- All of them, and no others ----------

  /** An act of this person's that waits, and is not being pressed in this tab. */
  predicate WaitsFor(e: Held, owner: string, pressed: set<Key>) {
    e.owner == owner && e.refused == None && e.key !in pressed
  }

  lemma Nearer(s: State, t: nat)
    requires TabOf(s, t).drain.Some? && TabOf(DrainReplied(s, t, Landed), t).drain.Some?
    ensures |TabOf(DrainReplied(s, t, Landed), t).drain.value.left| < |TabOf(s, t).drain.value.left|
  {
    var d := TabOf(s, t).drain.value;
    AdvanceSends(DrainReplied(s, t, Landed).stored, TabOf(s, t), d.owner, d.left);
    hide Advance;
  }

  /** Every reply lands, one after another, and nothing else happens, until the drain is done. */
  ghost function AllLand(s: State, t: nat): State
    decreases if TabOf(s, t).drain.Some? then |TabOf(s, t).drain.value.left| + 1 else 0
  {
    if TabOf(s, t).drain == None then s
    else
      var u := DrainReplied(s, t, Landed);
      if TabOf(u, t).drain == None then u
      else
        Nearer(s, t);
        AllLand(u, t)
  }

  ghost predicate Among(left: seq<Held>, stored: seq<Held>) {
    forall e :: e in left ==> e in stored
  }

  lemma {:induction false} DroppedOne(all: seq<Held>, key: Key)
    ensures forall e :: e in DropFrom(all, key) <==> e in all && e.key != key
  {
    if all != [] {
      DroppedOne(all[1..], key);
      assert all == [all[0]] + all[1..];
    }
  }

  lemma SentIfItWaits(stored: seq<Held>, tab: Tab, owner: string, e: Held)
    requires e in stored
    ensures IsForDrain(stored, tab, owner, e) <==> WaitsFor(e, owner, tab.pressed)
    ensures IsPassedOver(stored, tab, owner, e) <==> !WaitsFor(e, owner, tab.pressed)
  {
  }

  /** On to the next that waits: those passed over do not. */
  lemma OnToTheNext(stored: seq<Held>, tab: Tab, owner: string, left: seq<Held>)
    requires Among(left, stored)
    ensures
      var next := Advance(stored, tab, owner, left);
      if next.drain == None then forall e :: e in left ==> !WaitsFor(e, owner, tab.pressed)
      else
        var d := next.drain.value;
        && d.owner == owner && WaitsFor(d.sending, owner, tab.pressed) && d.sending in stored && Among(d.left, stored)
        && next.pressed == tab.pressed
        && (Unique(left) ==> Unique([d.sending] + d.left))
        && forall e :: e in left && WaitsFor(e, owner, tab.pressed) <==>
              e == d.sending || (e in d.left && WaitsFor(e, owner, tab.pressed))
  {
    var next := Advance(stored, tab, owner, left);
    AdvanceSends(stored, tab, owner, left);
    forall e | e in left
      ensures Sends(stored, tab, owner, e) <==> WaitsFor(e, owner, tab.pressed)
    {
      SendsSaid(stored, tab, owner, e);
      SentIfItWaits(stored, tab, owner, e);
    }
    hide Advance, Sends, WaitsFor, IsForDrain, IsPassedOver;
    if next.drain.Some? {
      var d := next.drain.value;
      var i: nat :| i < |left| && ComesTo(stored, tab, left, d, i);
      CameTo(left, d, i);
      forall e | e in left && Sends(stored, tab, owner, e)
        ensures e in left[i..]
      {
        var j :| 0 <= j < |left| && left[j] == e;
        assert left[i..][j - i] == e;
      }
    }
  }

  lemma CameTo(left: seq<Held>, d: Drain, i: nat)
    requires i < |left| && left[i] == d.sending && left[i + 1..] == d.left
    ensures left[i..] == [d.sending] + d.left
    ensures Unique(left) ==> Unique([d.sending] + d.left)
    ensures forall e :: e in left[i..] ==> e in left
  {
    assert left[i..] == [left[i]] + left[i + 1..];
  }

  lemma {:induction false} AllLandLeaves(s: State, t: nat)
    requires TabOf(s, t).drain.Some?
    requires
      var tab, d := TabOf(s, t), TabOf(s, t).drain.value;
      Unique(s.stored) && Unique([d.sending] + d.left) && Among([d.sending] + d.left, s.stored)
    ensures
      var tab, d := TabOf(s, t), TabOf(s, t).drain.value;
      forall e :: e in AllLand(s, t).stored <==>
        e in s.stored && e != d.sending && !(e in d.left && WaitsFor(e, d.owner, tab.pressed))
    decreases |TabOf(s, t).drain.value.left|
  {
    var u, tab := DrainReplied(s, t, Landed), TabOf(s, t);
    var d := tab.drain.value;
    DropKeeps(s.stored, d.sending.key);
    DroppedOne(s.stored, d.sending.key);
    OneToAKey(s.stored, d.sending);
    RestAreLeft(s.stored, d);
    OnToTheNext(u.stored, tab, d.owner, d.left);
    hide Advance, DropFrom, Unique, WaitsFor;
    assert TabOf(u, t) == Advance(u.stored, tab, d.owner, d.left);
    if TabOf(u, t).drain.Some? {
      Nearer(s, t);
      AllLandLeaves(u, t);
    }
  }

  lemma OneToAKey(stored: seq<Held>, e: Held)
    requires Unique(stored) && e in stored
    ensures forall h :: h in stored ==> (h.key == e.key <==> h == e)
  {
  }

  lemma RestAreLeft(stored: seq<Held>, d: Drain)
    requires Unique([d.sending] + d.left) && Among([d.sending] + d.left, stored)
    ensures Unique(d.left) && d.sending in stored
    ensures forall e :: e in d.left ==> e in stored && e.key != d.sending.key
  {
    var all := [d.sending] + d.left;
    assert d.left == all[1..] && all[0] == d.sending;
    forall e | e in d.left
      ensures e in stored && e.key != d.sending.key
    {
      var i :| 0 <= i < |d.left| && d.left[i] == e;
      assert all[i + 1] == e && e in all;
    }
    assert forall i :: 0 <= i < |d.left| ==> d.left[i] == all[i + 1];
  }

  /** A drain left to itself, every reply landed, takes each of its owner's waiting acts
      off the device, but for those being pressed, and leaves every other. */
  lemma DrainTakesAll(s: State, t: nat, owner: string)
    requires Unique(s.stored) && TabOf(s, t).drain == None
    ensures forall e :: e in AllLand(DrainStarts(s, t, owner), t).stored <==>
      e in s.stored && !(e.owner == owner && e.refused == None && e.key !in TabOf(s, t).pressed)
  {
    var u, tab := DrainStarts(s, t, owner), TabOf(s, t);
    OnToTheNext(s.stored, tab, owner, s.stored);
    hide Advance, Unique;
    assert TabOf(u, t) == Advance(s.stored, tab, owner, s.stored);
    if TabOf(u, t).drain.Some? {
      AllLandLeaves(u, t);
    }
  }

  /** Which statuses end it: an act turned away with one of these waits to be sent again,
      and with any other it is refused. */
  lemma RefusedExactly(s: State, t: nat, status: int, message: string)
    requires Unique(s.stored) && TabOf(s, t).drain.Some?
    requires
      var key := TabOf(s, t).drain.value.sending.key;
      Stored(s.stored, key) && Get(s.stored, key).refused == None
    ensures
      var u, key := DrainReplied(s, t, Failed(Some(status), message)), TabOf(s, t).drain.value.sending.key;
      && Stored(u.stored, key)
      && (Get(u.stored, key).refused == None <==> status in {0, 401, 408, 425, 429} || status >= 500)
    ensures DrainReplied(s, t, Failed(None, message)).stored == s.stored
  {
    RefusedIsShown(s, t, Some(status), message);
    hide Stored, Get, Unique, Advance;
  }
}
