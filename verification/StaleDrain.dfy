/** One tab, one person, and a press recorded twice: the way in which once is not once. */
module StaleDrain {
  import opened Entries
  import opened ExactlyOnce
  import opened OneTab
  import opened Options
  import opened OutboxRuns
  import opened SafeRuns

  /** A run in tab 0, with presses as screens make them, from one state to another. */
  ghost predicate Leads(s: State, es: seq<Event>, last: State) {
    PressedRun(s, es) && AllHere(0, es) && Ends(s, es) == last
  }

  lemma LeadsNowhere(s: State)
    ensures Leads(s, [], s)
  {
  }

  lemma LeadsOn(s: State, e: Event, es: seq<Event>, last: State)
    requires Enabled(s, e) && AsPressed(s, e) && Here(0, e) && Leads(Next(s, e), es, last)
    ensures Leads(s, [e] + es, last)
  {
    assert ([e] + es)[1..] == es;
  }

  lemma {:induction false} LeadsThrough(s: State, es: seq<Event>, mid: State, fs: seq<Event>, last: State)
    requires Leads(s, es, mid) && Leads(mid, fs, last)
    ensures Leads(s, es + fs, last)
    decreases |es|
  {
    if es == [] {
      assert es + fs == fs;
    } else {
      assert es[0] in es;
      LeadsThrough(Next(s, es[0]), es[1..], mid, fs, last);
      assert es + fs == [es[0]] + (es[1..] + fs);
      LeadsOn(s, es[0], es[1..] + fs, last);
    }
  }

  lemma LeadsOne(s: State, e: Event)
    requires Enabled(s, e) && AsPressed(s, e) && Here(0, e)
    ensures Leads(s, [e], Next(s, e))
  {
    LeadsNowhere(Next(s, e));
    LeadsOn(s, e, [], Next(s, e));
    assert [e] + [] == [e];
  }

  /** All there is to know of a state with one tab. */
  ghost predicate Is(s: State, stored: seq<Held>, tab: Tab, requests: set<Request>, ledger: set<Request>, unused: nat,
                     keys: set<Key>) {
    && s.stored == stored && s.tabs == map[0 := tab] && s.requests == requests && s.ledger == ledger
    && s.unused == unused && s.kept.Keys == keys
  }

  const LOST := Failed(None, "")

  /** What is minted as the `n`th id of all. */
  function Nth(key: Key, name: string, n: nat): Id {
    Id(key, name, n)
  }

  /** An act's request under a name, with the `n`th id of all. */
  function Asked(h: Held, name: string, n: nat): Request {
    Request(h.key, name, Nth(h.key, name, n), h.at)
  }

  /** An act with the `n`th id of all under a name. */
  function Minted(h: Held, name: string, n: nat): Held {
    h.(ids := h.ids[name := Nth(h.key, name, n)])
  }

  function Counted(h: Held): Held {
    h.(done := h.done + 1)
  }

  // ---------- One step at a time ----------

  lemma TabsBefore(s: State)
    requires s == START || s.tabs == map[0 := TabOf(s, 0)]
    ensures forall tab :: s.tabs[0 := tab] == map[0 := tab]
  {
    assert forall tab: Tab :: map[0 := TabOf(s, 0)][0 := tab] == map[0 := tab];
  }

  /** A new act is pressed, whatever else is being pressed. */
  lemma PressBegins(s: State, n: nat, h: Held, stored: seq<Held>, tab: Tab, requests: set<Request>, unused: nat,
                    keys: set<Key>)
    returns (u: State)
    requires (s == START && stored == [] && tab == NEW_TAB && requests == {} && unused == 0 && keys == {})
          || Is(s, stored, tab, requests, {}, unused, keys)
    requires n !in tab.nows && h.key !in keys && h.ids == map[] && h.done == 0 && Find(stored, h.key) < 0
    ensures Leads(s, [Presses(0, n, h)], u)
    ensures Is(u, stored + [h], Tab(tab.drain, tab.nows[n := h], tab.pressed + {h.key}), requests, {}, unused,
               keys + {h.key})
    ensures AskedBy(u, ByPress(0, n)) == {}
  {
    TabsBefore(s);
    u := Next(s, Presses(0, n, h));
    LeadsOne(s, Presses(0, n, h));
  }

  /** A press asks under a name it has no id for. */
  lemma PressAsks(s: State, n: nat, h: Held, name: string, stored: seq<Held>, kept: seq<Held>, tab: Tab,
                  requests: set<Request>, ledger: set<Request>, unused: nat, keys: set<Key>)
    returns (u: State)
    requires Is(s, stored, tab, requests, ledger, unused, keys) && n in tab.nows && tab.nows[n] == h
    requires name !in h.ids && h.key in keys && UpdateIn(stored, Minted(h, name, unused)) == kept
    ensures Leads(s, [Requests(ByPress(0, n), name)], u)
    ensures Is(u, kept, tab.(nows := tab.nows[n := Minted(h, name, unused)]), requests + {Asked(h, name, unused)},
               ledger, unused + 1, keys)
    ensures AskedBy(u, ByPress(0, n)) == AskedBy(s, ByPress(0, n)) + {Nth(h.key, name, unused)}
    ensures AskedBy(u, ByDrain(0)) == AskedBy(s, ByDrain(0))
  {
    var p := ByPress(0, n);
    assert Copy(s, p) == h && IdUnder(s, p, name) == Nth(h.key, name, unused);
    hide UpdateIn;
    TabsBefore(s);
    u := Next(s, Requests(p, name));
    assert u.kept.Keys == keys;
    LeadsOne(s, Requests(p, name));
  }

  /** The server records a request it has no record of the id of. */
  lemma ServerRecords(s: State, r: Request, stored: seq<Held>, tab: Tab, requests: set<Request>, ledger: set<Request>,
                      unused: nat, keys: set<Key>)
    returns (u: State)
    requires Is(s, stored, tab, requests, ledger, unused, keys) && r in requests
    requires forall l :: l in ledger ==> l.id != r.id
    ensures Leads(s, [Records(r)], u) && Is(u, stored, tab, requests, ledger + {r}, unused, keys) && u.asked == s.asked
  {
    u := Next(s, Records(r));
    LeadsOne(s, Records(r));
  }

  /** A send's next write, of one name, has its answer when it was asked for and recorded. */
  lemma NextAnswered(s: State, p: Sender, name: string, r: Request)
    requires Active(s, p) && Copy(s, p).done < |Copy(s, p).writes| && Copy(s, p).writes[Copy(s, p).done] == {name}
    requires name in Copy(s, p).ids && Copy(s, p).ids[name] == r.id && r.id in AskedBy(s, p) && r in s.ledger
    ensures Enabled(s, Lands(p))
  {
    assert HasId(s, r.id);
  }

  /** A press's write lands. */
  lemma PressLands(s: State, n: nat, h: Held, name: string, r: Request, stored: seq<Held>, kept: seq<Held>, tab: Tab,
                   requests: set<Request>, ledger: set<Request>, unused: nat, keys: set<Key>)
    returns (u: State)
    requires Is(s, stored, tab, requests, ledger, unused, keys) && n in tab.nows && tab.nows[n] == h && h.key in keys
    requires h.done < |h.writes| && h.writes[h.done] == {name} && name in h.ids && h.ids[name] == r.id
    requires r.id in AskedBy(s, ByPress(0, n)) && r in ledger && UpdateIn(stored, Counted(h)) == kept
    ensures Leads(s, [Lands(ByPress(0, n))], u)
    ensures Is(u, kept, tab.(nows := tab.nows[n := Counted(h)]), requests, ledger, unused, keys)
    ensures u.asked == s.asked
  {
    var p := ByPress(0, n);
    assert Copy(s, p) == h;
    NextAnswered(s, p, name, r);
    hide UpdateIn, WriteAnswered;
    TabsBefore(s);
    u := Next(s, Lands(p));
    assert u.kept.Keys == keys;
    LeadsOne(s, Lands(p));
  }

  /** A press loses its reply, and its act waits; whatever else is being sent goes on. */
  lemma PressLost(s: State, n: nat, h: Held, stored: seq<Held>, tab: Tab, requests: set<Request>,
                  ledger: set<Request>, unused: nat, keys: set<Key>)
    returns (u: State)
    requires Is(s, stored, tab, requests, ledger, unused, keys) && n in tab.nows && tab.nows[n] == h
    ensures Leads(s, [PressReply(0, n, LOST)], u)
    ensures Is(u, stored, Tab(tab.drain, tab.nows - {n}, tab.pressed - {h.key}), requests, ledger, unused, keys)
    ensures forall p :: AskedBy(u, p) == AskedBy(s, p)
  {
    TabsBefore(s);
    u := Next(s, PressReply(0, n, LOST));
    LeadsOne(s, PressReply(0, n, LOST));
  }

  /** A drain reads its list: two acts, the second being pressed. */
  lemma DrainReads(s: State, w: Held, p: Held, n: nat, requests: set<Request>, unused: nat, keys: set<Key>)
    returns (u: State)
    requires Is(s, [w, p], Tab(None, map[n := p], {p.key}), requests, {}, unused, keys)
    requires w.owner == "sam" && w.refused == None && w.key != p.key
    ensures Leads(s, [Drains(0, "sam")], u)
    ensures Is(u, [w, p], Tab(Some(Drain("sam", w, [p])), map[n := p], {p.key}), requests, {}, unused, keys)
    ensures AskedBy(u, ByDrain(0)) == {} && AskedBy(u, ByPress(0, n)) == AskedBy(s, ByPress(0, n))
  {
    var e, tab := Drains(0, "sam"), TabOf(s, 0);
    assert [w, p][0] == w && [w, p][1..] == [p];
    assert Sends([w, p], tab, "sam", w);
    u := Next(s, e);
    assert u.tabs[0] == tab.(drain := Some(Drain("sam", w, [p])));
    LeadsOne(s, e);
  }

  lemma SecondUpdated(w: Held, p: Held, after: Held)
    requires w.key != p.key && after.key == p.key
    ensures UpdateIn([w, p], after) == [w, after]
  {
    assert Find([w, p], p.key) == 1;
  }

  /** A drain's send asks with an id it has. */
  lemma DrainAsks(s: State, w: Held, name: string, left: seq<Held>, stored: seq<Held>, requests: set<Request>,
                  ledger: set<Request>, unused: nat, keys: set<Key>)
    returns (u: State)
    requires Is(s, stored, Tab(Some(Drain("sam", w, left)), map[], {}), requests, ledger, unused, keys)
    requires name in w.ids && Request(w.key, name, w.ids[name], w.at) in requests
    ensures Leads(s, [Requests(ByDrain(0), name)], u)
    ensures Is(u, stored, Tab(Some(Drain("sam", w, left)), map[], {}), requests, ledger, unused, keys)
    ensures w.ids[name] in AskedBy(u, ByDrain(0))
  {
    u := Next(s, Requests(ByDrain(0), name));
    assert Copy(s, ByDrain(0)) == w;
    assert u.requests == requests;
    LeadsOne(s, Requests(ByDrain(0), name));
  }

  /** A drain's write lands: its own copy, whatever that is, takes the place of the act stored. */
  lemma DrainLands(s: State, w: Held, name: string, r: Request, left: seq<Held>, stored: seq<Held>, kept: seq<Held>,
                   requests: set<Request>, ledger: set<Request>, unused: nat, keys: set<Key>)
    returns (u: State)
    requires Is(s, stored, Tab(Some(Drain("sam", w, left)), map[], {}), requests, ledger, unused, keys)
    requires w.key in keys && w.done < |w.writes| && w.writes[w.done] == {name} && name in w.ids && w.ids[name] == r.id
    requires r.id in AskedBy(s, ByDrain(0)) && r in ledger && UpdateIn(stored, Counted(w)) == kept
    ensures Leads(s, [Lands(ByDrain(0))], u)
    ensures Is(u, kept, Tab(Some(Drain("sam", Counted(w), left)), map[], {}), requests, ledger, unused, keys)
  {
    var p := ByDrain(0);
    assert Copy(s, p) == w;
    NextAnswered(s, p, name, r);
    hide UpdateIn, WriteAnswered;
    TabsBefore(s);
    u := Next(s, Lands(p));
    assert u.kept.Keys == keys;
    LeadsOne(s, Lands(p));
  }

  /** All of it landed, it is dropped, and the drain comes to the other act: the entry it
      read, not the one stored. */
  lemma DrainComesToIt(s: State, w: Held, p: Held, after: Held, requests: set<Request>, ledger: set<Request>,
                       unused: nat, keys: set<Key>)
    returns (u: State)
    requires Is(s, [w, after], Tab(Some(Drain("sam", w, [p])), map[], {}), requests, ledger, unused, keys)
    requires w.key != p.key && after.key == p.key && after.refused == p.refused == None && p.owner == "sam"
    requires w.done == |w.writes|
    ensures Leads(s, [DrainReply(0, Landed)], u)
    ensures Is(u, [after], Tab(Some(Drain("sam", p, [])), map[], {}), requests, ledger, unused, keys)
  {
    FirstDropped(w, after);
    ReadIsSent([after], TabOf(s, 0), p);
    hide DropFrom, Advance;
    u := Next(s, DrainReply(0, Landed));
    LeadsOne(s, DrainReply(0, Landed));
  }

  lemma FirstDropped(w: Held, p: Held)
    requires w.key != p.key
    ensures DropFrom([w, p], w.key) == [p]
  {
    assert [w, p][1..] == [p] && [p][1..] == [];
    assert DropFrom([p], w.key) == [p] + DropFrom([], w.key);
  }

  lemma ReadIsSent(stored: seq<Held>, tab: Tab, p: Held)
    requires |stored| == 1 && stored[0].key == p.key && stored[0].refused == None
    requires p.refused == None && p.owner == "sam"
    requires tab.pressed == {}
    ensures Advance(stored, tab, "sam", [p]) == tab.(drain := Some(Drain("sam", p, [])))
  {
    assert Sends(stored, tab, "sam", p);
    assert [p][1..] == [];
  }

  /** A drain's send asks under a name it has no id for. */
  lemma DrainMints(s: State, p: Held, name: string, stored: seq<Held>,
                   requests: set<Request>, ledger: set<Request>, unused: nat, keys: set<Key>)
    returns (u: State)
    requires Is(s, stored, Tab(Some(Drain("sam", p, [])), map[], {}), requests, ledger, unused, keys) && name !in p.ids
    ensures Leads(s, [Requests(ByDrain(0), name)], u)
    ensures u.requests == requests + {Asked(p, name, unused)} && u.ledger == ledger
  {
    u := Next(s, Requests(ByDrain(0), name));
    assert Copy(s, ByDrain(0)) == p && IdUnder(s, ByDrain(0), name) == Nth(p.key, name, unused);
    LeadsOne(s, Requests(ByDrain(0), name));
  }

  lemma BothRecorded(s: State, q: Request, r: Request) returns (es: seq<Event>, u: State)
    requires q in s.requests && r in s.requests && q.id != r.id
    requires forall l :: l in s.ledger ==> l.id != q.id && l.id != r.id
    ensures Leads(s, es, u) && u.ledger == s.ledger + {q, r} && u.requests == s.requests
  {
    var s1 := Next(s, Records(q));
    LeadsOne(s, Records(q));
    u := Next(s1, Records(r));
    LeadsOne(s1, Records(r));
    LeadsThrough(s, [Records(q)], s1, [Records(r)], u);
    es := [Records(q)] + [Records(r)];
  }

  // ---------- The run ----------

  /** An act of one write, and a press of two. */
  const ONE := Held("one", "sam", [{"event"}], map[], 1, 0, None)
  const TWO := Held("two", "sam", [{"first"}, {"second"}], map[], 2, 0, None)

  // What each act is once it has asked for its first, and what was asked.
  const ONE_ASKED := Minted(ONE, "event", 0)
  const TWO_ASKED := Minted(TWO, "first", 1)
  const EVENT := Asked(ONE, "event", 0)
  const FIRST := Asked(TWO, "first", 1)

  // The press when it ends; what it asked for last; what the drain asks for in its place.
  const TWO_ENDED := Minted(Counted(TWO_ASKED), "second", 2)
  const SECOND := Asked(TWO, "second", 2)
  const AGAIN := Asked(TWO, "second", 3)

  lemma Apart()
    ensures ONE.key != TWO.key && "first" != "second"
  {
    assert "one"[0] != "two"[0] && "first"[0] != "second"[0];
  }

  /** An act is pressed, and asks for its one write. */
  lemma OnePressed() returns (es: seq<Event>, u: State)
    ensures Leads(START, es, u)
    ensures Is(u, [ONE_ASKED], Tab(None, map[0 := ONE_ASKED], {ONE.key}), {EVENT}, {}, 1, {ONE.key})
  {
    var none, tab := NEW_TAB, Tab(None, map[0 := ONE], {ONE.key});
    assert UpdateIn([ONE], ONE_ASKED) == [ONE_ASKED];
    hide Leads, Is, UpdateIn;
    var s1 := PressBegins(START, 0, ONE, [], none, {}, 0, {});
    assert [] + [ONE] == [ONE] && {} + {ONE.key} == {ONE.key} && {} + {EVENT} == {EVENT};
    assert Tab(none.drain, none.nows[0 := ONE], none.pressed + {ONE.key}) == tab;
    u := PressAsks(s1, 0, ONE, "event", [ONE], [ONE_ASKED], tab, {}, {}, 0, {ONE.key});
    assert tab.nows[0 := ONE_ASKED] == map[0 := ONE_ASKED];
    LeadsThrough(START, [Presses(0, 0, ONE)], s1, [Requests(ByPress(0, 0), "event")], u);
    es := [Presses(0, 0, ONE)] + [Requests(ByPress(0, 0), "event")];
  }

  /** While that is on its way the press of two writes begins, and asks for its first. */
  lemma TwoPressed(s: State) returns (es: seq<Event>, u: State)
    requires Is(s, [ONE_ASKED], Tab(None, map[0 := ONE_ASKED], {ONE.key}), {EVENT}, {}, 1, {ONE.key})
    ensures Leads(s, es, u)
    ensures Is(u, [ONE_ASKED, TWO_ASKED], Tab(None, map[0 := ONE_ASKED, 1 := TWO_ASKED], {ONE.key, TWO.key}),
               {EVENT, FIRST}, {}, 2, {ONE.key, TWO.key})
    ensures AskedBy(u, ByPress(0, 1)) == {FIRST.id}
  {
    Apart();
    var keys := {ONE.key, TWO.key};
    var tab, both := Tab(None, map[0 := ONE_ASKED], {ONE.key}), Tab(None, map[0 := ONE_ASKED, 1 := TWO], keys);
    SecondUpdated(ONE_ASKED, TWO, TWO_ASKED);
    hide Leads, Is, UpdateIn;
    var s1 := PressBegins(s, 1, TWO, [ONE_ASKED], tab, {EVENT}, 1, {ONE.key});
    assert Tab(None, tab.nows[1 := TWO], tab.pressed + {TWO.key}) == both;
    assert [ONE_ASKED] + [TWO] == [ONE_ASKED, TWO] && {ONE.key} + {TWO.key} == keys;
    u := PressAsks(s1, 1, TWO, "first", [ONE_ASKED, TWO], [ONE_ASKED, TWO_ASKED], both, {EVENT}, {}, 1, keys);
    assert both.nows[1 := TWO_ASKED] == map[0 := ONE_ASKED, 1 := TWO_ASKED];
    assert {EVENT} + {FIRST} == {EVENT, FIRST} && {} + {FIRST.id} == {FIRST.id};
    LeadsThrough(s, [Presses(0, 1, TWO)], s1, [Requests(ByPress(0, 1), "first")], u);
    es := [Presses(0, 1, TWO)] + [Requests(ByPress(0, 1), "first")];
  }

  /** The one loses its reply and waits, and a drain begins: what it reads of the press
      has one id. */
  lemma DrainReadsMidPress(s: State) returns (es: seq<Event>, u: State)
    requires Is(s, [ONE_ASKED, TWO_ASKED], Tab(None, map[0 := ONE_ASKED, 1 := TWO_ASKED], {ONE.key, TWO.key}),
                {EVENT, FIRST}, {}, 2, {ONE.key, TWO.key})
    requires AskedBy(s, ByPress(0, 1)) == {FIRST.id}
    ensures Leads(s, es, u)
    ensures Is(u, [ONE_ASKED, TWO_ASKED],
               Tab(Some(Drain("sam", ONE_ASKED, [TWO_ASKED])), map[1 := TWO_ASKED], {TWO.key}),
               {EVENT, FIRST}, {}, 2, {ONE.key, TWO.key})
    ensures AskedBy(u, ByPress(0, 1)) == {FIRST.id}
  {
    Apart();
    var tab := Tab(None, map[0 := ONE_ASKED, 1 := TWO_ASKED], {ONE.key, TWO.key});
    hide Leads, Is;
    var s1 := PressLost(s, 0, ONE_ASKED, [ONE_ASKED, TWO_ASKED], tab, {EVENT, FIRST}, {}, 2, {ONE.key, TWO.key});
    assert tab.nows - {0} == map[1 := TWO_ASKED] && tab.pressed - {ONE.key} == {TWO.key};
    u := DrainReads(s1, ONE_ASKED, TWO_ASKED, 1, {EVENT, FIRST}, 2, {ONE.key, TWO.key});
    LeadsThrough(s, [PressReply(0, 0, LOST)], s1, [Drains(0, "sam")], u);
    es := [PressReply(0, 0, LOST)] + [Drains(0, "sam")];
  }

  /** The press's first write lands; it mints its second id, keeps it, and loses that reply. */
  lemma PressGoesOn(s: State) returns (es: seq<Event>, u: State)
    requires Is(s, [ONE_ASKED, TWO_ASKED],
                Tab(Some(Drain("sam", ONE_ASKED, [TWO_ASKED])), map[1 := TWO_ASKED], {TWO.key}),
                {EVENT, FIRST}, {}, 2, {ONE.key, TWO.key})
    requires AskedBy(s, ByPress(0, 1)) == {FIRST.id}
    ensures Leads(s, es, u)
    ensures Is(u, [ONE_ASKED, TWO_ENDED], Tab(Some(Drain("sam", ONE_ASKED, [TWO_ASKED])), map[], {}),
               {EVENT, FIRST, SECOND}, {FIRST}, 3, {ONE.key, TWO.key})
  {
    Apart();
    var landed, d, keys := Counted(TWO_ASKED), Some(Drain("sam", ONE_ASKED, [TWO_ASKED])), {ONE.key, TWO.key};
    SecondUpdated(ONE_ASKED, TWO_ASKED, landed);
    SecondUpdated(ONE_ASKED, landed, TWO_ENDED);
    hide Leads, Is, UpdateIn;
    var t0, t1 := Tab(d, map[1 := TWO_ASKED], {TWO.key}), Tab(d, map[1 := landed], {TWO.key});
    var t2 := Tab(d, map[1 := TWO_ENDED], {TWO.key});
    var s1 := ServerRecords(s, FIRST, [ONE_ASKED, TWO_ASKED], t0, {EVENT, FIRST}, {}, 2, keys);
    assert {} + {FIRST} == {FIRST} && {EVENT, FIRST} + {SECOND} == {EVENT, FIRST, SECOND};
    var s2 := PressLands(s1, 1, TWO_ASKED, "first", FIRST, [ONE_ASKED, TWO_ASKED], [ONE_ASKED, landed], t0,
                         {EVENT, FIRST}, {FIRST}, 2, keys);
    assert t0.nows[1 := landed] == t1.nows && t1.nows[1 := TWO_ENDED] == t2.nows && t2.nows - {1} == map[];
    var s3 := PressAsks(s2, 1, landed, "second", [ONE_ASKED, landed], [ONE_ASKED, TWO_ENDED], t1,
                        {EVENT, FIRST}, {FIRST}, 2, keys);
    u := PressLost(s3, 1, TWO_ENDED, [ONE_ASKED, TWO_ENDED], t2, {EVENT, FIRST, SECOND}, {FIRST}, 3, keys);
    assert {TWO.key} - {TWO.key} == {};
    var e1, e2, e3, e4 := [Records(FIRST)], [Lands(ByPress(0, 1))], [Requests(ByPress(0, 1), "second")],
      [PressReply(0, 1, LOST)];
    LeadsThrough(s2, e3, s3, e4, u);
    LeadsThrough(s1, e2, s2, e3 + e4, u);
    LeadsThrough(s, e1, s1, e2 + (e3 + e4), u);
    es := e1 + (e2 + (e3 + e4));
  }

  /** The drain asks again for the one's write, which is recorded and lands, and comes to
      the press. */
  lemma DrainLandsTheOne(s: State) returns (es: seq<Event>, u: State)
    requires Is(s, [ONE_ASKED, TWO_ENDED], Tab(Some(Drain("sam", ONE_ASKED, [TWO_ASKED])), map[], {}),
                {EVENT, FIRST, SECOND}, {FIRST}, 3, {ONE.key, TWO.key})
    ensures Leads(s, es, u)
    ensures Is(u, [TWO_ENDED], Tab(Some(Drain("sam", TWO_ASKED, [])), map[], {}),
               {EVENT, FIRST, SECOND}, {FIRST, EVENT}, 3, {ONE.key, TWO.key})
  {
    Apart();
    var keys, asked, left := {ONE.key, TWO.key}, {EVENT, FIRST, SECOND}, [TWO_ASKED];
    var stored, tab := [ONE_ASKED, TWO_ENDED], Tab(Some(Drain("sam", ONE_ASKED, left)), map[], {});
    assert {FIRST} + {EVENT} == {FIRST, EVENT};
    assert UpdateIn(stored, Counted(ONE_ASKED)) == [Counted(ONE_ASKED), TWO_ENDED];
    hide Leads, Is, UpdateIn;
    var s1 := DrainAsks(s, ONE_ASKED, "event", left, stored, asked, {FIRST}, 3, keys);
    var s2 := ServerRecords(s1, EVENT, stored, tab, asked, {FIRST}, 3, keys);
    assert AskedBy(s2, ByDrain(0)) == AskedBy(s1, ByDrain(0));
    var s3 := DrainLands(s2, ONE_ASKED, "event", EVENT, left, stored, [Counted(ONE_ASKED), TWO_ENDED], asked,
                         {FIRST, EVENT}, 3, keys);
    u := DrainComesToIt(s3, Counted(ONE_ASKED), TWO_ASKED, TWO_ENDED, asked, {FIRST, EVENT}, 3, keys);
    var e1, e2, e3, e4 := [Requests(ByDrain(0), "event")], [Records(EVENT)], [Lands(ByDrain(0))],
      [DrainReply(0, Landed)];
    LeadsThrough(s2, e3, s3, e4, u);
    LeadsThrough(s1, e2, s2, e3 + e4, u);
    LeadsThrough(s, e1, s1, e2 + (e3 + e4), u);
    es := e1 + (e2 + (e3 + e4));
  }

  /** It sends the press as it read it: the first write again, which lands and puts the
      stale copy in the store, and then the second under an id of its own. */
  lemma DrainSendsWhatItRead(s: State) returns (es: seq<Event>, u: State)
    requires Is(s, [TWO_ENDED], Tab(Some(Drain("sam", TWO_ASKED, [])), map[], {}),
                {EVENT, FIRST, SECOND}, {FIRST, EVENT}, 3, {ONE.key, TWO.key})
    ensures Leads(s, es, u) && SECOND in u.ledger && AGAIN in u.ledger
  {
    Apart();
    var keys, asked, landed := {ONE.key, TWO.key}, {EVENT, FIRST, SECOND}, Counted(TWO_ASKED);
    assert UpdateIn([TWO_ENDED], landed) == [landed];
    hide Leads, Is, UpdateIn;
    var s1 := DrainAsks(s, TWO_ASKED, "first", [], [TWO_ENDED], asked, {FIRST, EVENT}, 3, keys);
    var s2 := DrainLands(s1, TWO_ASKED, "first", FIRST, [], [TWO_ENDED], [landed], asked, {FIRST, EVENT}, 3, keys);
    var s3 := DrainMints(s2, landed, "second", [landed], asked, {FIRST, EVENT}, 3, keys);
    var e4, s4 := BothRecorded(s3, SECOND, AGAIN);
    u := s4;
    var e1, e2, e3 := [Requests(ByDrain(0), "first")], [Lands(ByDrain(0))], [Requests(ByDrain(0), "second")];
    LeadsThrough(s2, e3, s3, e4, u);
    LeadsThrough(s1, e2, s2, e3 + e4, u);
    LeadsThrough(s, e1, s1, e2 + (e3 + e4), u);
    es := e1 + (e2 + (e3 + e4));
  }

  /** One tab, one person. An act is on its way as a press of two writes begins. The act
      loses its reply, and a drain begins that reads both. The press goes on to its
      second write and loses that reply. The drain, done with the act, comes to the
      press, no longer being pressed, and sends the entry it read, write by write: that
      has no second id, so it mints another. Each was recorded, so the ledger has two
      records of one write. */
  lemma RecordsItTwice() returns (es: seq<Event>, last: State)
    ensures PressedRun(START, es) && AllHere(0, es) && Ends(START, es) == last
    ensures SECOND in last.ledger && AGAIN in last.ledger
    ensures SECOND != AGAIN && SECOND.key == AGAIN.key && SECOND.name == AGAIN.name
    ensures !AlwaysSafe(START, es) && !AlwaysSendsTheStoredIds(START, es)
  {
    hide Is;
    var es1, s1 := OnePressed();
    var es2, s2 := TwoPressed(s1);
    var es3, s3 := DrainReadsMidPress(s2);
    var es4, s4 := PressGoesOn(s3);
    var es5, s5 := DrainLandsTheOne(s4);
    var es6, s6 := DrainSendsWhatItRead(s5);
    LeadsThrough(s4, es5, s5, es6, s6);
    LeadsThrough(s3, es4, s4, es5 + es6, s6);
    LeadsThrough(s2, es3, s3, es4 + (es5 + es6), s6);
    LeadsThrough(s1, es2, s2, es3 + (es4 + (es5 + es6)), s6);
    LeadsThrough(START, es1, s1, es2 + (es3 + (es4 + (es5 + es6))), s6);
    es, last := es1 + (es2 + (es3 + (es4 + (es5 + es6)))), s6;
    NotOnce(es, SECOND, AGAIN);
  }

  lemma NotOnce(es: seq<Event>, q: Request, r: Request)
    requires PressedRun(START, es) && AllHere(0, es) && q in Ends(START, es).ledger && r in Ends(START, es).ledger
    requires q != r && q.key == r.key && q.name == r.name
    ensures !AlwaysSafe(START, es) && !AlwaysSendsTheStoredIds(START, es)
  {
    SafeExactly(es);
    SafeExactlyInOneTab(0, es);
    if AlwaysSendsWhatIsStored(START, es) {
      OnceThroughout(es);
    }
  }
}
