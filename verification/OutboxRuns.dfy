/** Several tabs, one store, one server: everything that can happen to the acts
    kept on a device, each stretch between awaits one step.

    The store is a register every tab reads afresh. A tab holds in memory the
    drain it is in the middle of, the presses it is sending, and which keys are
    being pressed; a reload loses all three. Beside them the state remembers what
    was asked of the server, and why each act that left was let go. */
module OutboxRuns {
  import opened Entries
  import opened Options

  /** A drain between two awaits: whose acts, the one on its way, and those of the
      list it began with that it has not come to. */
  datatype Drain = Drain(owner: string, sending: Held, left: seq<Held>)

  /** `nows`, the presses on their way; `pressed`, their keys. */
  datatype Tab = Tab(drain: Option<Drain>, nows: map<nat, Held>, pressed: set<Key>)

  const NEW_TAB := Tab(None, map[], {})

  /** A request the server was sent: for which act, under which name, with which id and moment. */
  datatype Request = Request(key: Key, name: string, id: Id, at: nat)

  /** `asked`, the ids each send has asked with so far; `kept`, every act ever kept,
      as its ids were last known here; the last three, why an act that left did, with
      the writes of the entry that landed. */
  datatype State = State(
    stored: seq<Held>, tabs: map<nat, Tab>, asked: map<Sender, set<Id>>, requests: set<Request>, ledger: set<Request>,
    unused: nat, kept: map<Key, Held>, landed: map<Key, seq<Names>>, refusedAtPress: set<Key>, dismissed: set<Key>)

  const START := State([], map[], map[], {}, {}, 0, map[], map[], {}, {})

  function TabOf(s: State, t: nat): Tab {
    if t in s.tabs then s.tabs[t] else NEW_TAB
  }

  function WithTab(s: State, t: nat, tab: Tab): State {
    s.(tabs := s.tabs[t := tab])
  }

  /** Which send: a tab's drain, or one of its presses. */
  datatype Sender = ByDrain(t: nat) | ByPress(t: nat, n: nat)

  /** A send that begins has asked for nothing yet. */
  function Sending(s: State, p: Sender): State {
    s.(asked := s.asked[p := {}])
  }

  function AskedBy(s: State, p: Sender): set<Id> {
    if p in s.asked then s.asked[p] else {}
  }

  function Keeps(s: State, e: Held): State {
    s.(stored := PutIn(s.stored, e), kept := s.kept[e.key := e])
  }

  // ---------- The drain ----------

  /** Whether a drain sends an entry of its list when it comes to it. */
  predicate Sends(stored: seq<Held>, tab: Tab, owner: string, e: Held) {
    && e.owner == owner && e.refused == None && e.key !in tab.pressed
    && exists i :: 0 <= i < |stored| && stored[i].key == e.key && stored[i].refused == None
  }

  /** On to the next entry it sends, or finished. */
  function Advance(stored: seq<Held>, tab: Tab, owner: string, left: seq<Held>): Tab
    decreases |left|
  {
    if left == [] then tab.(drain := None)
    else if Sends(stored, tab, owner, left[0]) then tab.(drain := Some(Drain(owner, left[0], left[1..])))
    else Advance(stored, tab, owner, left[1..])
  }

  function DrainStarts(s: State, t: nat, owner: string): State {
    var tab := TabOf(s, t);
    if tab.drain.Some? then s else Sending(WithTab(s, t, Advance(s.stored, tab, owner, s.stored)), ByDrain(t))
  }

  function DrainReplied(s: State, t: nat, out: Outcome): State
    requires TabOf(s, t).drain.Some?
  {
    var tab := TabOf(s, t);
    var d := tab.drain.value;
    var key := d.sending.key;
    match out
    case Landed =>
      var sent := s.(stored := DropFrom(s.stored, key), landed := s.landed[key := d.sending.writes]);
      Sending(WithTab(sent, t, Advance(sent.stored, tab, d.owner, d.left)), ByDrain(t))
    case Failed(status, message) =>
      if Transient(status) then WithTab(s, t, tab.(drain := None))
      else
        var told := s.(stored := RefuseIn(s.stored, key, Said(message)));
        Sending(WithTab(told, t, Advance(told.stored, tab, d.owner, d.left)), ByDrain(t))
  }

  // ---------- A press ----------

  function NowStarts(s: State, t: nat, n: nat, e: Held): State {
    var tab := TabOf(s, t);
    Sending(WithTab(Keeps(s, e), t, tab.(nows := tab.nows[n := e], pressed := tab.pressed + {e.key})), ByPress(t, n))
  }

  function NowReplied(s: State, t: nat, n: nat, out: Outcome): State
    requires n in TabOf(s, t).nows
  {
    var tab := TabOf(s, t);
    var key := tab.nows[n].key;
    var done := WithTab(s, t, tab.(nows := tab.nows - {n}, pressed := tab.pressed - {key}));
    match out
    case Landed => done.(stored := DropFrom(s.stored, key), landed := s.landed[key := tab.nows[n].writes])
    case Failed(status, message) =>
      if Transient(status) then done
      else done.(stored := DropFrom(s.stored, key), refusedAtPress := s.refusedAtPress + {key})
  }

  // ---------- What a send asks of the server ----------

  predicate Active(s: State, p: Sender) {
    match p
    case ByDrain(t) => TabOf(s, t).drain.Some?
    case ByPress(t, n) => n in TabOf(s, t).nows
  }

  /** The entry a send works from: its own copy, as it was read or pressed. */
  function Copy(s: State, p: Sender): Held
    requires Active(s, p)
  {
    match p
    case ByDrain(t) => TabOf(s, t).drain.value.sending
    case ByPress(t, n) => TabOf(s, t).nows[n]
  }

  function WithCopy(s: State, p: Sender, e: Held): State
    requires Active(s, p)
  {
    match p
    case ByDrain(t) => WithTab(s, t, TabOf(s, t).(drain := Some(TabOf(s, t).drain.value.(sending := e))))
    case ByPress(t, n) => WithTab(s, t, TabOf(s, t).(nows := TabOf(s, t).nows[n := e]))
  }

  /** The id a send asks with under a name: the one in its copy, or a new one. */
  function IdUnder(s: State, p: Sender, name: string): Id
    requires Active(s, p)
  {
    var e := Copy(s, p);
    if name in e.ids then e.ids[name] else Id(e.key, name, s.unused)
  }

  /** A request under a name. A new id goes into the send's copy and onto the device
      before any request has it. */
  function Asks(s: State, p: Sender, name: string): State
    requires Active(s, p)
  {
    var e, id := Copy(s, p), IdUnder(s, p, name);
    var u := s.(requests := s.requests + {Request(e.key, name, id, e.at)}, asked := s.asked[p := AskedBy(s, p) + {id}]);
    if name in e.ids then u
    else
      var minted := e.(ids := e.ids[name := id]);
      WithCopy(u, p, minted).(
        stored := UpdateIn(s.stored, minted), kept := s.kept[e.key := minted], unused := s.unused + 1)
  }

  /** A write was answered: the send's copy counts one more, and so does the stored act. */
  function WriteLands(s: State, p: Sender): State
    requires Active(s, p)
  {
    var e := Copy(s, p).(done := Copy(s, p).done + 1);
    WithCopy(s, p, e).(stored := UpdateIn(s.stored, e), kept := s.kept[e.key := e])
  }

  /** The ledger with this request's record, unless it has one of that id. */
  function RecordsOnce(s: State, r: Request): State {
    if HasId(s, r.id) then s else s.(ledger := s.ledger + {r})
  }

  /** The server has a record under this id. */
  predicate HasId(s: State, id: Id) {
    exists l :: l in s.ledger && l.id == id
  }

  /** The server has a record of this act under this name. */
  predicate Recorded(s: State, key: Key, name: string) {
    exists l :: l in s.ledger && l.key == key && l.name == name
  }

  /** Every name of the first `n` writes is recorded. */
  predicate AllRecorded(s: State, key: Key, writes: seq<Names>, n: nat) {
    forall i, name :: 0 <= i < n && i < |writes| && name in writes[i] ==> Recorded(s, key, name)
  }

  /** A send has asked under a name, and the server has the record: what an answer says. */
  predicate Answered(s: State, p: Sender, name: string)
    requires Active(s, p)
  {
    var e := Copy(s, p);
    name in e.ids && e.ids[name] in AskedBy(s, p) && HasId(s, e.ids[name])
  }

  /** A write of a send was answered under each of its names. */
  predicate WriteAnswered(s: State, p: Sender, i: nat)
    requires Active(s, p) && i < |Copy(s, p).writes|
  {
    forall name :: name in Copy(s, p).writes[i] ==> Answered(s, p, name)
  }

  /** A send may land once each of its writes has landed, or been answered since. */
  predicate MayLand(s: State, p: Sender)
    requires Active(s, p)
  {
    forall i :: Copy(s, p).done <= i < |Copy(s, p).writes| ==> WriteAnswered(s, p, i)
  }

  /** What an entry says of itself is so: its ids are its own, minted already, and
      the writes it counts as landed were recorded. */
  predicate Truthful(s: State, e: Held) {
    && (forall name :: name in e.ids ==>
          e.ids[name].act == e.key && e.ids[name].name == name && e.ids[name].n < s.unused)
    && e.done <= |e.writes| && AllRecorded(s, e.key, e.writes, e.done)
  }

  // ---------- Runs ----------

  datatype Event =
    | Mints
    | Puts(e: Held)
    | Updates(e: Held)
    | Dismisses(key: Key)
    | Drains(t: nat, owner: string)
    | DrainReply(t: nat, out: Outcome)
    | Presses(t: nat, n: nat, e: Held)
    | PressReply(t: nat, n: nat, out: Outcome)
    | Requests(p: Sender, name: string)
    | Lands(p: Sender)
    | Records(r: Request)
    | Reloads(t: nat)

  predicate Enabled(s: State, e: Event) {
    match e
    case Puts(h) => Truthful(s, h)
    case Updates(h) => Truthful(s, h)
    case DrainReply(t, out) => Active(s, ByDrain(t)) && (out == Landed ==> MayLand(s, ByDrain(t)))
    case Presses(t, n, h) => n !in TabOf(s, t).nows && Truthful(s, h)
    case PressReply(t, n, out) => Active(s, ByPress(t, n)) && (out == Landed ==> MayLand(s, ByPress(t, n)))
    case Requests(p, name) => Active(s, p)
    case Lands(p) =>
      Active(s, p) && Copy(s, p).done < |Copy(s, p).writes| && WriteAnswered(s, p, Copy(s, p).done)
    case Records(r) => r in s.requests
    case _ => true
  }

  function Next(s: State, e: Event): State
    requires Enabled(s, e)
  {
    match e
    case Mints => s.(unused := s.unused + 1)
    case Puts(h) => Keeps(s, h)
    case Updates(h) =>
      s.(stored := UpdateIn(s.stored, h), kept := if Stored(s.stored, h.key) then s.kept[h.key := h] else s.kept)
    case Dismisses(key) => s.(stored := DropFrom(s.stored, key), dismissed := s.dismissed + {key})
    case Drains(t, owner) => DrainStarts(s, t, owner)
    case DrainReply(t, out) => DrainReplied(s, t, out)
    case Presses(t, n, h) => NowStarts(s, t, n, h)
    case PressReply(t, n, out) => NowReplied(s, t, n, out)
    case Requests(p, name) => Asks(s, p, name)
    case Lands(p) => WriteLands(s, p)
    case Records(r) => RecordsOnce(s, r)
    case Reloads(t) => WithTab(s, t, NEW_TAB)
  }

  ghost predicate Run(s: State, es: seq<Event>, last: State)
    decreases |es|
  {
    if es == [] then s == last else Enabled(s, es[0]) && Run(Next(s, es[0]), es[1..], last)
  }

  // ---------- Nothing kept is lost ----------

  /** An entry of the act landed, and the ledger has a record under each name of each of its writes. */
  ghost predicate LandedWhole(s: State, k: Key) {
    k in s.landed && AllRecorded(s, k, s.landed[k], |s.landed[k]|)
  }

  /** Stored still, or landed with all of it on the server's ledger, or refused where it
      was pressed, or let go by the person. */
  ghost predicate Accounted(s: State) {
    && (forall k :: k in s.kept ==>
          Stored(s.stored, k) || LandedWhole(s, k) || k in s.refusedAtPress || k in s.dismissed)
    && (forall k :: k in s.landed ==> LandedWhole(s, k))
  }

  /** Requests are for the acts and names their ids were minted for, and the ledger has no id twice. */
  ghost predicate LedgerRight(s: State) {
    && s.ledger <= s.requests
    && (forall r :: r in s.requests ==> r.id.act == r.key && r.id.name == r.name && r.id.n < s.unused)
    && (forall q, r :: q in s.ledger && r in s.ledger && q.id == r.id ==> q == r)
  }

  /** Truthful, and of an act that was kept. */
  ghost predicate InPlay(s: State, e: Held) {
    Truthful(s, e) && e.key in s.kept
  }

  /** Every entry stored, being sent or left in a list is truthful. */
  ghost predicate AllTruthful(s: State) {
    && (forall e :: e in s.stored ==> InPlay(s, e))
    && (forall p :: Active(s, p) ==> InPlay(s, Copy(s, p)))
    && (forall t, e :: Lists(s, t, e) ==> InPlay(s, e))
  }

  /** A drain under way has the entry still to come to. */
  predicate Lists(s: State, t: nat, e: Held) {
    TabOf(s, t).drain.Some? && e in TabOf(s, t).drain.value.left
  }

  ghost predicate Whole(s: State) {
    Unique(s.stored) && Accounted(s) && LedgerRight(s) && AllTruthful(s)
  }

  /** Why an act may leave the device. */
  predicate LetsGo(s: State, e: Event, key: Key)
    requires Enabled(s, e)
  {
    match e
    case Dismisses(k) => k == key
    case DrainReply(t, out) => out == Landed && TabOf(s, t).drain.value.sending.key == key
    case PressReply(t, n, out) =>
      (out == Landed || !Transient(out.status)) && TabOf(s, t).nows[n].key == key
    case _ => false
  }

  /** Time only adds: what was truthful stays so. */
  ghost predicate Later(s: State, u: State) {
    s.unused <= u.unused && s.ledger <= u.ledger && s.kept.Keys <= u.kept.Keys
  }

  lemma StaysRecorded(s: State, u: State, key: Key, writes: seq<Names>, n: nat)
    requires Later(s, u) && AllRecorded(s, key, writes, n)
    ensures AllRecorded(u, key, writes, n)
  {
    forall i, name | 0 <= i < n && i < |writes| && name in writes[i]
      ensures Recorded(u, key, name)
    {
      assert Recorded(s, key, name);
    }
  }

  lemma StaysTruthful(s: State, u: State, e: Held)
    requires Later(s, u) && Truthful(s, e)
    ensures Truthful(u, e)
  {
    StaysRecorded(s, u, e.key, e.writes, e.done);
    hide AllRecorded;
  }

  lemma StaysInPlay(s: State, u: State, e: Held)
    requires Later(s, u) && InPlay(s, e)
    ensures InPlay(u, e)
  {
    StaysTruthful(s, u, e);
  }

  /** A name answered is a record of the act under that name. */
  lemma AnsweredIsRecorded(s: State, p: Sender, name: string)
    requires LedgerRight(s) && Active(s, p) && InPlay(s, Copy(s, p)) && Answered(s, p, name)
    ensures Recorded(s, Copy(s, p).key, name)
  {
    hide Active, Copy, AllRecorded;
    var id := Copy(s, p).ids[name];
    var l :| l in s.ledger && l.id == id;
    assert l.key == Copy(s, p).key && l.name == name;
  }

  /** A send that lands has a record on the ledger under every name of every write of its act. */
  lemma LandedIsRecorded(s: State, p: Sender)
    requires LedgerRight(s) && Active(s, p) && InPlay(s, Copy(s, p)) && MayLand(s, p)
    ensures var e := Copy(s, p); AllRecorded(s, e.key, e.writes, |e.writes|)
  {
    var e := Copy(s, p);
    hide Active, Copy, Answered, LedgerRight;
    forall i, name | 0 <= i < |e.writes| && name in e.writes[i]
      ensures Recorded(s, e.key, name)
    {
      if i >= e.done {
        assert WriteAnswered(s, p, i);
        AnsweredIsRecorded(s, p, name);
      }
    }
  }

  /** The entries in play after a step were in play before, or are truthful. */
  ghost predicate NothingUntrue(s: State, u: State) {
    && Later(s, u)
    && (forall e :: e in u.stored ==> e in s.stored || InPlay(u, e))
    && (forall p :: Active(u, p) ==> InPlay(u, Copy(u, p)) || (Active(s, p) && Copy(u, p) == Copy(s, p)))
    && (forall t, e :: Lists(u, t, e) ==> Lists(s, t, e) || e in s.stored)
  }

  lemma StillTruthful(s: State, u: State)
    requires AllTruthful(s) && NothingUntrue(s, u)
    ensures AllTruthful(u)
  {
    hide Active, Copy, InPlay;
    forall e | e in u.stored
      ensures InPlay(u, e)
    {
      if e in s.stored {
        StaysInPlay(s, u, e);
      }
    }
    forall p | Active(u, p)
      ensures InPlay(u, Copy(u, p))
    {
      if Active(s, p) {
        StaysInPlay(s, u, Copy(s, p));
      }
    }
    forall t, e | Lists(u, t, e)
      ensures InPlay(u, e)
    {
      StaysInPlay(s, u, e);
    }
  }

  lemma {:induction false} DropsOnly(all: seq<Held>, key: Key)
    ensures forall e :: e in DropFrom(all, key) ==> e in all
  {
    if all != [] {
      DropsOnly(all[1..], key);
    }
  }

  lemma RefusedIsTruthful(s: State, u: State, key: Key, reason: string)
    requires AllTruthful(s) && Later(s, u)
    ensures forall e :: e in RefuseIn(s.stored, key, reason) ==> InPlay(u, e)
  {
    var after := RefuseIn(s.stored, key, reason);
    forall e | e in after
      ensures InPlay(u, e)
    {
      var i :| 0 <= i < |after| && after[i] == e;
      assert s.stored[i] in s.stored;
      StaysInPlay(s, u, s.stored[i]);
    }
  }

  /** A drain moved on, to an entry of its list if to any. */
  lemma DrainMovesTruthfully(s: State, u: State, t: nat, stored: seq<Held>, owner: string, left: seq<Held>)
    requires AllTruthful(s) && Later(s, u)
    requires u.tabs == s.tabs[t := Advance(stored, TabOf(s, t), owner, left)]
    requires forall e :: e in u.stored ==> e in s.stored || InPlay(u, e)
    requires forall e :: e in left ==> Lists(s, t, e) || e in s.stored
    ensures NothingUntrue(s, u)
  {
    AdvanceSends(stored, TabOf(s, t), owner, left);
    hide Advance, InPlay, Sends;
    forall e | e in left
      ensures InPlay(u, e)
    {
      StaysInPlay(s, u, e);
    }
    forall p | Active(u, p)
      ensures InPlay(u, Copy(u, p)) || (Active(s, p) && Copy(u, p) == Copy(s, p))
    {
      if p == ByDrain(t) {
        assert Copy(u, p) in left;
      }
    }
  }

  lemma SendersAsTheyWere(s: State, u: State)
    requires u.tabs == s.tabs
    ensures forall p :: Active(u, p) <==> Active(s, p)
    ensures forall p :: Active(u, p) ==> Copy(u, p) == Copy(s, p)
    ensures forall t, e :: Lists(u, t, e) <==> Lists(s, t, e)
  {
  }

  lemma PressIsTruthful(s: State, t: nat, n: nat, h: Held)
    requires AllTruthful(s) && Truthful(s, h)
    ensures NothingUntrue(s, NowStarts(s, t, n, h))
  {
    var u := NowStarts(s, t, n, h);
    StaysTruthful(s, u, h);
    hide InPlay;
    assert forall e :: e in u.stored ==> e in s.stored || e == h;
    forall p | Active(u, p)
      ensures InPlay(u, Copy(u, p)) || (Active(s, p) && Copy(u, p) == Copy(s, p))
    {
      if p == ByPress(t, n) {
        assert Copy(u, p) == h;
      }
    }
  }

  /** A send changed its own copy, and kept that. */
  lemma CopyIsTruthful(s: State, u: State, p: Sender, e: Held)
    requires AllTruthful(s) && Active(s, p) && Later(s, u)
    requires u.tabs == WithCopy(s, p, e).tabs && e.key == Copy(s, p).key && InPlay(u, e)
    requires u.stored == s.stored || u.stored == UpdateIn(s.stored, e)
    ensures NothingUntrue(s, u)
  {
    hide InPlay;
    assert forall h :: h in u.stored ==> h in s.stored || h == e;
    forall q | Active(u, q)
      ensures InPlay(u, Copy(u, q)) || (Active(s, q) && Copy(u, q) == Copy(s, q))
    {
      if q == p {
        assert Copy(u, p) == e;
      }
    }
  }

  lemma AskIsTruthful(s: State, p: Sender, name: string)
    requires AllTruthful(s) && Active(s, p)
    ensures NothingUntrue(s, Asks(s, p, name))
  {
    var u, e := Asks(s, p, name), Copy(s, p);
    StaysInPlay(s, u, e);
    if name in e.ids {
      StoreOnlyIsTruthful(s, u);
    } else {
      var minted := e.(ids := e.ids[name := IdUnder(s, p, name)]);
      hide AllRecorded;
      assert InPlay(u, minted);
      CopyIsTruthful(s, u, p, minted);
    }
  }

  lemma LandingIsTruthful(s: State, p: Sender)
    requires AllTruthful(s) && LedgerRight(s) && Enabled(s, Lands(p))
    ensures NothingUntrue(s, WriteLands(s, p))
  {
    var u, e := WriteLands(s, p), Copy(s, p).(done := Copy(s, p).done + 1);
    StaysInPlay(s, u, Copy(s, p));
    OneMoreRecorded(s, p);
    StaysRecorded(s, u, e.key, e.writes, e.done);
    hide AllRecorded;
    assert InPlay(u, e);
    CopyIsTruthful(s, u, p, e);
  }

  lemma OneMoreRecorded(s: State, p: Sender)
    requires LedgerRight(s) && Enabled(s, Lands(p)) && InPlay(s, Copy(s, p))
    ensures var e := Copy(s, p); AllRecorded(s, e.key, e.writes, e.done + 1)
  {
    var e := Copy(s, p);
    hide Active, Copy, Answered, LedgerRight;
    forall i, name | 0 <= i <= e.done && name in e.writes[i]
      ensures Recorded(s, e.key, name)
    {
      if i == e.done {
        AnsweredIsRecorded(s, p, name);
      }
    }
  }

  lemma StoreOnlyIsTruthful(s: State, u: State)
    requires AllTruthful(s) && Later(s, u) && u.tabs == s.tabs
    requires forall e :: e in u.stored ==> e in s.stored || InPlay(u, e)
    ensures NothingUntrue(s, u)
  {
    hide InPlay, Later;
    SendersAsTheyWere(s, u);
  }

  lemma PutIsTruthful(s: State, u: State, h: Held)
    requires AllTruthful(s) && Truthful(s, h) && u == Keeps(s, h)
    ensures NothingUntrue(s, u)
  {
    StaysTruthful(s, u, h);
    hide Truthful, Later;
    assert forall x :: x in u.stored ==> x in s.stored || x == h;
    StoreOnlyIsTruthful(s, u);
  }

  lemma UpdateIsTruthful(s: State, u: State, h: Held)
    requires AllTruthful(s) && Truthful(s, h) && u == Next(s, Updates(h))
    ensures NothingUntrue(s, u)
  {
    StaysTruthful(s, u, h);
    hide Truthful, Later;
    assert forall x :: x in u.stored ==> x in s.stored || (x == h && Stored(s.stored, h.key));
    StoreOnlyIsTruthful(s, u);
  }

  lemma PressReplyIsTruthful(s: State, t: nat, n: nat, out: Outcome)
    requires AllTruthful(s) && n in TabOf(s, t).nows
    ensures NothingUntrue(s, NowReplied(s, t, n, out))
  {
    var u := NowReplied(s, t, n, out);
    DropsOnly(s.stored, TabOf(s, t).nows[n].key);
    hide InPlay, Truthful, Transient, DropFrom;
    forall p | Active(u, p)
      ensures Active(s, p) && Copy(u, p) == Copy(s, p)
    {
    }
  }

  lemma ReloadIsTruthful(s: State, t: nat)
    requires AllTruthful(s)
    ensures NothingUntrue(s, WithTab(s, t, NEW_TAB))
  {
    hide InPlay, Truthful;
  }

  lemma DrainIsTruthful(s: State, t: nat, owner: string)
    requires AllTruthful(s)
    ensures NothingUntrue(s, DrainStarts(s, t, owner))
  {
    hide InPlay, Truthful, Advance;
    if TabOf(s, t).drain == None {
      DrainMovesTruthfully(s, DrainStarts(s, t, owner), t, s.stored, owner, s.stored);
    }
  }

  lemma StepIsTruthful(s: State, e: Event)
    requires AllTruthful(s) && LedgerRight(s) && Enabled(s, e)
    ensures NothingUntrue(s, Next(s, e))
  {
    var u := Next(s, e);
    hide AllTruthful, LedgerRight, NothingUntrue, InPlay, Truthful, MayLand, WriteAnswered;
    match e
    case Mints => StoreOnlyIsTruthful(s, u);
    case Puts(h) => PutIsTruthful(s, u, h);
    case Updates(h) => UpdateIsTruthful(s, u, h);
    case Dismisses(key) =>
      DropsOnly(s.stored, key);
      StoreOnlyIsTruthful(s, u);
    case Drains(t, owner) => DrainIsTruthful(s, t, owner);
    case DrainReply(t, out) => DrainReplyIsTruthful(s, t, out);
    case Presses(t, n, h) => PressIsTruthful(s, t, n, h);
    case PressReply(t, n, out) => PressReplyIsTruthful(s, t, n, out);
    case Requests(p, name) => AskIsTruthful(s, p, name);
    case Lands(p) => LandingIsTruthful(s, p);
    case Records(r) => StoreOnlyIsTruthful(s, u);
    case Reloads(t) => ReloadIsTruthful(s, t);
  }

  lemma DrainReplyIsTruthful(s: State, t: nat, out: Outcome)
    requires AllTruthful(s) && TabOf(s, t).drain.Some?
    ensures NothingUntrue(s, DrainReplied(s, t, out))
  {
    var u, d := DrainReplied(s, t, out), TabOf(s, t).drain.value;
    assert forall e :: e in d.left ==> Lists(s, t, e);
    match out
    case Landed =>
      DropsOnly(s.stored, d.sending.key);
      DrainMovesTruthfully(s, u, t, u.stored, d.owner, d.left);
    case Failed(status, message) =>
      if !Transient(status) {
        RefusedIsTruthful(s, u, d.sending.key, Said(message));
        DrainMovesTruthfully(s, u, t, u.stored, d.owner, d.left);
      }
  }

  lemma LedgerStaysRight(s: State, e: Event)
    requires LedgerRight(s) && AllTruthful(s) && Enabled(s, e)
    ensures LedgerRight(Next(s, e))
  {
    hide Advance, PutIn, UpdateIn, DropFrom, RefuseIn, TabOf, MayLand, WriteAnswered, Truthful, Transient;
    match e
    case Requests(p, name) =>
      assert InPlay(s, Copy(s, p));
      AskedRightly(s, p, name);
    case Records(r) => RecordedRightly(s, r);
    case _ => assert Next(s, e).requests == s.requests && Next(s, e).ledger == s.ledger;
  }

  lemma AskedRightly(s: State, p: Sender, name: string)
    requires LedgerRight(s) && Active(s, p) && Truthful(s, Copy(s, p))
    ensures LedgerRight(Asks(s, p, name))
  {
    hide UpdateIn, AllRecorded, Active, Copy;
  }

  lemma RecordedRightly(s: State, r: Request)
    requires LedgerRight(s) && r in s.requests
    ensures LedgerRight(RecordsOnce(s, r))
  {
  }

  lemma OnlyMore(s: State, e: Event)
    requires Enabled(s, e)
    ensures s.refusedAtPress <= Next(s, e).refusedAtPress && s.dismissed <= Next(s, e).dismissed
  {
    hide Advance, PutIn, UpdateIn, DropFrom, RefuseIn, TabOf;
  }

  /** No act goes unaccounted: what leaves was recorded, refused to its press, or let go. */
  lemma StaysAccounted(s: State, e: Event)
    requires Whole(s) && Enabled(s, e)
    requires forall k :: Stored(s.stored, k) && !Stored(Next(s, e).stored, k) ==> LetsGo(s, e, k)
    requires forall k :: k in Next(s, e).kept ==> k in s.kept || Stored(Next(s, e).stored, k)
    ensures Accounted(Next(s, e))
  {
    var u := Next(s, e);
    StepIsTruthful(s, e);
    OnlyMore(s, e);
    LandingsAreWhole(s, e);
    hide Stored, Unique, Next, LandedWhole, LetsGo, AllTruthful, LedgerRight, Enabled, NothingUntrue;
    forall k | k in u.kept
      ensures Stored(u.stored, k) || LandedWhole(u, k) || k in u.refusedAtPress || k in u.dismissed
    {
      if k in s.kept && Stored(s.stored, k) && !Stored(u.stored, k) {
        LeavesAccounted(s, e, k);
      }
    }
  }

  /** Which send a reply that is no failure ends. */
  predicate EndsSend(e: Event, p: Sender) {
    match e
    case DrainReply(t, out) => out == Landed && p == ByDrain(t)
    case PressReply(t, n, out) => out == Landed && p == ByPress(t, n)
    case _ => false
  }

  /** What a step does to what has landed: the act of the send that did is put there, with its writes. */
  lemma LandsWhat(s: State, e: Event)
    requires Enabled(s, e)
    ensures Next(s, e).landed == s.landed
         || exists p :: Active(s, p) && EndsSend(e, p) && MayLand(s, p)
                        && Next(s, e).landed == s.landed[Copy(s, p).key := Copy(s, p).writes]
  {
    hide Advance, PutIn, UpdateIn, DropFrom, RefuseIn, Transient, MayLand, Truthful, WriteAnswered;
    match e
    case DrainReply(t, out) => assert out == Landed ==> EndsSend(e, ByDrain(t));
    case PressReply(t, n, out) => assert out == Landed ==> EndsSend(e, ByPress(t, n));
    case _ =>
  }

  /** Every act that has landed has all of it on the ledger, after a step as before. */
  lemma LandingsAreWhole(s: State, e: Event)
    requires Whole(s) && Enabled(s, e) && Later(s, Next(s, e))
    ensures s.landed.Keys <= Next(s, e).landed.Keys
    ensures forall k :: k in Next(s, e).landed ==> LandedWhole(Next(s, e), k)
  {
    var u := Next(s, e);
    LandsWhat(s, e);
    hide Next, Enabled, Active, Copy, MayLand, LedgerRight, AllRecorded;
    forall k | k in u.landed
      ensures LandedWhole(u, k)
    {
      if k in s.landed && u.landed[k] == s.landed[k] {
        assert LandedWhole(s, k);
        StaysRecorded(s, u, k, s.landed[k], |s.landed[k]|);
      } else {
        var p :| Active(s, p) && EndsSend(e, p) && MayLand(s, p)
                 && u.landed == s.landed[Copy(s, p).key := Copy(s, p).writes];
        LandedIsRecorded(s, p);
        StaysRecorded(s, u, k, u.landed[k], |u.landed[k]|);
      }
    }
  }

  lemma LeavesAccounted(s: State, e: Event, k: Key)
    requires Enabled(s, e) && LetsGo(s, e, k)
    ensures k in Next(s, e).landed || k in Next(s, e).refusedAtPress || k in Next(s, e).dismissed
  {
    hide Stored, Advance, DropFrom, RefuseIn, Transient, MayLand;
  }

  /** Every act kept first is stored by the step that keeps it. */
  lemma KeptIsStored(s: State, e: Event)
    requires Unique(s.stored) && AllTruthful(s) && Enabled(s, e)
    ensures forall k :: k in Next(s, e).kept ==> k in s.kept || Stored(Next(s, e).stored, k)
    ensures s.kept.Keys <= Next(s, e).kept.Keys
  {
    hide Stored, Unique, Advance, Transient, UpdateIn, PutIn, DropFrom, RefuseIn, Truthful;
    match e
    case Puts(h) => PutKeeps(s.stored, h);
    case Updates(h) => UpdateKeeps(s.stored, h);
    case Presses(t, n, h) => PutKeeps(s.stored, h);
    case Requests(p, name) => assert InPlay(s, Copy(s, p));
    case Lands(p) => assert InPlay(s, Copy(s, p));
    case _ =>
  }

  /** What a step did to the store: put or updated an entry, dropped or refused a key, or nothing. */
  datatype Change = Put(e: Held) | Update(e: Held) | Drop(key: Key) | Refuse(key: Key, reason: string) | Nothing

  function Changed(all: seq<Held>, c: Change): seq<Held> {
    match c
    case Put(e) => PutIn(all, e)
    case Update(e) => UpdateIn(all, e)
    case Drop(key) => DropFrom(all, key)
    case Refuse(key, reason) => RefuseIn(all, key, reason)
    case Nothing => all
  }

  function ChangeOf(s: State, e: Event): Change
    requires Enabled(s, e)
  {
    match e
    case Puts(h) => Put(h)
    case Presses(t, n, h) => Put(h)
    case Updates(h) => Update(h)
    case Dismisses(key) => Drop(key)
    case DrainReply(t, out) =>
      var key := TabOf(s, t).drain.value.sending.key;
      if out == Landed then Drop(key) else if Transient(out.status) then Nothing else Refuse(key, Said(out.message))
    case PressReply(t, n, out) =>
      if out == Landed || !Transient(out.status) then Drop(TabOf(s, t).nows[n].key) else Nothing
    case Requests(p, name) =>
      var e := Copy(s, p);
      if name in e.ids then Nothing else Update(e.(ids := e.ids[name := IdUnder(s, p, name)]))
    case Lands(p) => Update(Copy(s, p).(done := Copy(s, p).done + 1))
    case _ => Nothing
  }

  lemma StepChanges(s: State, e: Event)
    requires Enabled(s, e)
    ensures Next(s, e).stored == Changed(s.stored, ChangeOf(s, e))
    ensures forall k :: LetsGo(s, e, k) <==> ChangeOf(s, e) == Drop(k)
  {
    hide PutIn, UpdateIn, DropFrom, RefuseIn, Advance, Transient;
  }

  lemma ChangeKeepsKeys(all: seq<Held>, c: Change)
    requires Unique(all)
    ensures Unique(Changed(all, c)) && OrderKept(all, Changed(all, c))
    ensures forall k :: Stored(all, k) ==> (!Stored(Changed(all, c), k) <==> c == Drop(k))
  {
    hide Stored, Unique, OrderKept;
    match c
    case Put(e) => PutKeeps(all, e);
    case Update(e) => UpdateKeeps(all, e);
    case Drop(key) => DropKeeps(all, key); DropOrderKept(all, key);
    case Refuse(key, reason) => RefuseKeeps(all, key, reason);
    case Nothing => SameKeysKeep(all, all);
  }

  lemma StepKeepsKeys(s: State, e: Event)
    requires Unique(s.stored) && Enabled(s, e)
    ensures Unique(Next(s, e).stored) && OrderKept(s.stored, Next(s, e).stored)
    ensures forall k :: Stored(s.stored, k) ==> (!Stored(Next(s, e).stored, k) <==> LetsGo(s, e, k))
  {
    hide Stored, Unique, OrderKept, Changed, ChangeOf, LetsGo, Next, Enabled;
    StepChanges(s, e);
    ChangeKeepsKeys(s.stored, ChangeOf(s, e));
  }

  /** One step: it keeps every key once and in its place, everything in play true and
      every act accounted for; an act leaves just when it landed, was refused to its
      own press, or was let go. */
  lemma StepKeeps(s: State, e: Event)
    requires Whole(s) && Enabled(s, e)
    ensures Whole(Next(s, e))
    ensures OrderKept(s.stored, Next(s, e).stored)
    ensures forall k :: Stored(s.stored, k) ==> (!Stored(Next(s, e).stored, k) <==> LetsGo(s, e, k))
  {
    hide Stored, Unique, OrderKept, Accounted, LedgerRight, AllTruthful, NothingUntrue, LetsGo, Next, Enabled;
    StepKeepsKeys(s, e);
    KeptIsStored(s, e);
    StepIsTruthful(s, e);
    StillTruthful(s, Next(s, e));
    LedgerStaysRight(s, e);
    StaysAccounted(s, e);
  }

  /** Over every interleaving, in any number of tabs and across reloads. */
  lemma {:induction false} NothingLost(s: State, es: seq<Event>, last: State)
    requires Whole(s) && Run(s, es, last)
    ensures Whole(last)
    decreases |es|
  {
    if es != [] {
      StepKeeps(s, es[0]);
      NothingLost(Next(s, es[0]), es[1..], last);
    }
  }

  lemma NothingLostFromTheStart(es: seq<Event>, last: State)
    requires Run(START, es, last)
    ensures Unique(last.stored) && Accounted(last)
  {
    NothingLost(START, es, last);
  }

  /** Stored in every state of a run. */
  ghost predicate Throughout(s: State, es: seq<Event>, key: Key)
    requires Run(s, es, Last(s, es))
    decreases |es|
  {
    Stored(s.stored, key) && (es == [] || Throughout(Next(s, es[0]), es[1..], key))
  }

  /** Where a run that may happen ends. */
  ghost function Last(s: State, es: seq<Event>): State
    decreases |es|
  {
    if es == [] || !Enabled(s, es[0]) then s else Last(Next(s, es[0]), es[1..])
  }

  /** Acts that survive a run are in the order they were. */
  lemma {:induction false} SurvivorsKeepTheirPlaces(s: State, es: seq<Event>, a: Key, b: Key)
    requires Whole(s) && Run(s, es, Last(s, es))
    requires Throughout(s, es, a) && Throughout(s, es, b) && Before(s.stored, a, b)
    ensures Before(Last(s, es).stored, a, b)
    decreases |es|
  {
    hide Before, Stored, Unique;
    if es != [] {
      StepKeeps(s, es[0]);
      SurvivorsKeepTheirPlaces(Next(s, es[0]), es[1..], a, b);
    }
  }

  // ---------- Who sends what ----------

  /** The drain has come to place `i` of its list, the first it sends, and has the rest to come to. */
  ghost predicate ComesTo(stored: seq<Held>, tab: Tab, left: seq<Held>, d: Drain, i: nat) {
    && i < |left| && left[i] == d.sending && left[i + 1..] == d.left
    && Sends(stored, tab, d.owner, d.sending)
    && forall j :: 0 <= j < i ==> !Sends(stored, tab, d.owner, left[j])
  }

  lemma ComesToLater(stored: seq<Held>, tab: Tab, left: seq<Held>, d: Drain, i: nat)
    requires left != [] && ComesTo(stored, tab, left[1..], d, i) && !Sends(stored, tab, d.owner, left[0])
    ensures ComesTo(stored, tab, left, d, i + 1)
  {
    hide Sends;
    var rest := left[1..];
    assert left[i + 1] == rest[i] && left[i + 1 + 1..] == rest[i + 1..];
    assert forall j :: 0 < j < i + 1 ==> left[j] == rest[j - 1];
  }

  /** A drain of this owner's sends the entry: it is the owner's own, it waits and is not
      being pressed, and one of its key is stored that was not refused. */
  ghost predicate IsForDrain(stored: seq<Held>, tab: Tab, owner: string, e: Held) {
    && e.owner == owner && e.refused == None && e.key !in tab.pressed
    && exists h :: h in stored && h.key == e.key && h.refused == None
  }

  /** And passes it over for want of one of those. */
  ghost predicate IsPassedOver(stored: seq<Held>, tab: Tab, owner: string, e: Held) {
    || e.owner != owner || e.refused.Some? || e.key in tab.pressed
    || forall h :: h in stored && h.key == e.key ==> h.refused.Some?
  }

  lemma SendsSaid(stored: seq<Held>, tab: Tab, owner: string, e: Held)
    ensures Sends(stored, tab, owner, e) <==> IsForDrain(stored, tab, owner, e)
    ensures !Sends(stored, tab, owner, e) <==> IsPassedOver(stored, tab, owner, e)
  {
    if h :| h in stored && h.key == e.key && h.refused == None {
      var i :| 0 <= i < |stored| && stored[i] == h;
    }
  }

  /** A drain sends only its owner's acts, kept, not refused, and not being pressed in its
      tab; the first of its list that is so, and none when none is. */
  lemma {:induction false} AdvanceSends(stored: seq<Held>, tab: Tab, owner: string, left: seq<Held>)
    ensures
      var next := Advance(stored, tab, owner, left);
      && next.nows == tab.nows && next.pressed == tab.pressed
      && (next.drain.Some? ==>
            && next.drain.value.owner == owner
            && next.drain.value.sending in left && (forall e :: e in next.drain.value.left ==> e in left)
            && Sends(stored, tab, owner, next.drain.value.sending)
            && IsForDrain(stored, tab, owner, next.drain.value.sending)
            && exists i :: ComesTo(stored, tab, left, next.drain.value, i))
      && (next.drain == None ==>
            forall e :: e in left ==> !Sends(stored, tab, owner, e) && IsPassedOver(stored, tab, owner, e))
    decreases |left|
  {
    hide Sends, IsForDrain, IsPassedOver;
    if left != [] {
      SendsSaid(stored, tab, owner, left[0]);
    }
    if left != [] && !Sends(stored, tab, owner, left[0]) {
      AdvanceSends(stored, tab, owner, left[1..]);
      var next := Advance(stored, tab, owner, left);
      if next.drain.Some? {
        var i :| ComesTo(stored, tab, left[1..], next.drain.value, i);
        ComesToLater(stored, tab, left, next.drain.value, i);
      }
    } else if left != [] {
      assert ComesTo(stored, tab, left, Drain(owner, left[0], left[1..]), 0);
    }
  }
}
