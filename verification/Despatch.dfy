/** Despatching a carton and its load: the writes of one act, and which of them share a name. */
module Despatch {
  import Acts
  import opened Entries
  import opened MultiWrite
  import opened Options
  import opened Sorting

  datatype BookedLine = BookedLine(line: Uuid, quantity: int)

  datatype Booked = Booked(id: Uuid, lines: seq<BookedLine>, despatched: bool)

  function LineName(carton: Uuid, line: Uuid): string {
    "line:" + carton + ":" + line
  }

  function ItselfName(package: Uuid): string {
    "itself:" + package
  }

  function LineWrite(carton: Uuid, b: BookedLine, at: nat): Write {
    Write(LineName(carton, b.line), DespatchLine(carton, b.line, b.quantity, at))
  }

  function LineWrites(carton: Uuid, lines: seq<BookedLine>, at: nat): (ws: seq<Write>)
    ensures |ws| == |lines| && forall i :: 0 <= i < |lines| ==> ws[i] == LineWrite(carton, lines[i], at)
  {
    if lines == [] then [] else [LineWrite(carton, lines[0], at)] + LineWrites(carton, lines[1..], at)
  }

  function OwnWrites(carton: Uuid, lines: seq<BookedLine>, at: nat): seq<Write> {
    if lines == [] then [Write(ItselfName(carton), DespatchItself(carton, at))] else LineWrites(carton, lines, at)
  }

  function InsideWrites(inside: seq<Booked>, at: nat): seq<Write> {
    if inside == [] then []
    else
      (if inside[0].despatched then [] else OwnWrites(inside[0].id, inside[0].lines, at))
      + InsideWrites(inside[1..], at)
  }

  function ByLines(b: Booked): real {
    -(|b.lines| as real)
  }

  /** What is inside, most lines first. */
  function MostLinesFirst(inside: seq<Booked>): seq<Booked> {
    Sorted(inside, ByLines)
  }

  /** Cartons with lines come before what has none, and equals stay in the order given. */
  lemma MostLinesComeFirst(inside: seq<Booked>, lines: real)
    ensures
      var order := MostLinesFirst(inside);
      && (forall i, j :: 0 <= i < j < |order| ==> |order[i].lines| >= |order[j].lines|)
      && multiset(order) == multiset(inside)
      && Having(order, ByLines, lines) == Having(inside, ByLines, lines)
  {
    var order := MostLinesFirst(inside);
    SortedSorts(inside, ByLines);
    SortedStays(inside, ByLines, lines);
    forall i, j | 0 <= i < j < |order|
      ensures |order[i].lines| >= |order[j].lines|
    {
      assert ByLines(order[i]) <= ByLines(order[j]);
    }
  }

  function DespatchPlan(carton: Uuid, lines: seq<BookedLine>, inside: seq<Booked>, at: nat): Plan {
    if lines == [] && inside == [] then Plan([], Failed(Some(409), "That carton is empty."))
    else Plan(InsideWrites(MostLinesFirst(inside), at) + OwnWrites(carton, lines, at), Landed)
  }

  method DespatchesItself(server: Server, package: Uuid, at: nat) returns (out: Outcome)
    modifies server
    ensures (server.Now(), out) == SentAll(old(server.Now()), OwnWrites(package, [], at))
  {
    var w := Write(ItselfName(package), DespatchItself(package, at));
    assert [w][1..] == [];
    out := server.Send(w);
  }

  method DespatchesLines(server: Server, carton: Uuid, lines: seq<BookedLine>, at: nat) returns (out: Outcome)
    modifies server
    ensures (server.Now(), out) == SentAll(old(server.Now()), LineWrites(carton, lines, at))
  {
    assert lines[0..] == lines;
    for k := 0 to |lines|
      invariant SentAll(server.Now(), LineWrites(carton, lines[k..], at))
             == SentAll(old(server.Now()), LineWrites(carton, lines, at))
    {
      var line := lines[k];
      ghost var ws := LineWrites(carton, lines[k..], at);
      assert lines[k..][0] == line && lines[k..][1..] == lines[k + 1..];
      assert ws[1..] == LineWrites(carton, lines[k + 1..], at);
      out := server.Send(LineWrite(carton, line, at));
      if out.Failed? {
        return;
      }
    }
    out := Landed;
  }

  lemma NothingInside(carton: Uuid, lines: seq<BookedLine>, at: nat)
    requires lines != []
    ensures DespatchPlan(carton, lines, [], at) == Plan(OwnWrites(carton, lines, at), Landed)
  {
    assert [] + OwnWrites(carton, lines, at) == OwnWrites(carton, lines, at);
  }

  lemma NextInside(order: seq<Booked>, i: nat, at: nat)
    requires i < |order|
    ensures
      var p := order[i];
      InsideWrites(order[i..], at)
      == (if p.despatched then [] else OwnWrites(p.id, p.lines, at)) + InsideWrites(order[i + 1..], at)
  {
    assert order[i..][0] == order[i] && order[i..][1..] == order[i + 1..];
  }

  lemma Despatching(wire: Wire, carton: Uuid, lines: seq<BookedLine>, inside: seq<Booked>, at: nat)
    ensures
      var p := DespatchPlan(carton, lines, inside, at);
      if lines == [] && inside == [] then Performed(wire, p) == (wire, Failed(Some(409), "That carton is empty."))
      else Performed(wire, p) == SentAll(wire, InsideWrites(MostLinesFirst(inside), at) + OwnWrites(carton, lines, at))
    ensures MostLinesFirst(inside) != [] ==> inside != []
    ensures InsideWrites([], at) == []
  {
  }

  lemma OneInside(wire: Wire, order: seq<Booked>, i: nat, own: seq<Write>, at: nat)
    requires i < |order|
    ensures
      var p := order[i];
      var r := SentAll(wire, OwnWrites(p.id, p.lines, at));
      var rest := InsideWrites(order[i + 1..], at) + own;
      SentAll(wire, InsideWrites(order[i..], at) + own)
      == if p.despatched then SentAll(wire, rest) else if r.1.Failed? then r else SentAll(r.0, rest)
  {
    var p, after := order[i], InsideWrites(order[i + 1..], at);
    hide SentAll, OwnWrites;
    NextInside(order, i, at);
    assert [] + after == after;
    var theirs := OwnWrites(p.id, p.lines, at);
    assert (theirs + after) + own == theirs + (after + own);
    SentInParts(wire, theirs, after + own);
  }

  lemma OwnOnly(wire: Wire, carton: Uuid, lines: seq<BookedLine>, at: nat)
    requires lines != []
    ensures Performed(wire, DespatchPlan(carton, lines, [], at)) == SentAll(wire, LineWrites(carton, lines, at))
    ensures OwnWrites(carton, lines, at) == LineWrites(carton, lines, at)
  {
    NothingInside(carton, lines, at);
  }

  /** The recursion over the load comes before the carton's own writes, which are its
      lines', or the one named by the carton. */
  method DespatchCarton(server: Server, carton: Uuid, lines: seq<BookedLine>, inside: seq<Booked>, at: nat)
    returns (out: Outcome)
    modifies server
    ensures (server.Now(), out) == Performed(old(server.Now()), DespatchPlan(carton, lines, inside, at))
    decreases |inside|
  {
    hide Performed, DespatchPlan, SentAll, Sent, InsideWrites, OwnWrites, LineWrites, MostLinesFirst;
    Despatching(server.Now(), carton, lines, inside, at);
    if lines == [] && inside == [] {
      return Failed(Some(409), "That carton is empty.");
    }
    var order := MostLinesFirst(inside);
    ghost var own := OwnWrites(carton, lines, at);
    assert order[0..] == order;
    var i := 0;
    while i < |order|
      invariant i <= |order|
      invariant SentAll(server.Now(), InsideWrites(order[i..], at) + own)
             == SentAll(old(server.Now()), InsideWrites(order, at) + own)
    {
      var p := order[i];
      OneInside(server.Now(), order, i, own, at);
      i := i + 1;
      if p.despatched {
        continue;
      }
      if |p.lines| > 0 {
        OwnOnly(server.Now(), p.id, p.lines, at);
        out := DespatchCarton(server, p.id, p.lines, [], at);
      } else {
        out := DespatchesItself(server, p.id, at);
      }
      if out.Failed? {
        return;
      }
    }
    assert order[|order|..] == [] && [] + own == own;
    if lines == [] {
      out := DespatchesItself(server, carton, at);
    } else {
      OwnOnly(server.Now(), carton, lines, at);
      out := DespatchesLines(server, carton, lines, at);
    }
  }

  // ---------- What is on it leaves first ----------

  ghost predicate DistinctIds(bs: seq<Booked>) {
    bs == [] || ((forall i :: 0 < i < |bs| ==> bs[i].id != bs[0].id) && DistinctIds(bs[1..]))
  }

  ghost predicate DistinctLines(lines: seq<BookedLine>) {
    forall i, j :: 0 <= i < j < |lines| ==> lines[i].line != lines[j].line
  }

  /** Ids as the server gives them: no colon in one. */
  ghost predicate Plain(id: Uuid) {
    ':' !in id
  }

  ghost predicate Writes(w: Write, package: Uuid) {
    match w.body
    case DespatchLine(p, l, _, _) => p == package && w.name == LineName(p, l)
    case DespatchItself(p, _) => p == package && w.name == ItselfName(p)
    case _ => false
  }

  lemma OfThePackage(carton: Uuid, lines: seq<BookedLine>, at: nat)
    ensures forall w :: w in OwnWrites(carton, lines, at) ==> Writes(w, carton)
  {
  }

  lemma ColonIn(c: Uuid, d: Uuid)
    requires c + ":" <= d
    ensures !Plain(d)
  {
    assert d[|c|] == ':';
  }

  lemma LineNamesTell(c: Uuid, l: Uuid, d: Uuid, m: Uuid)
    requires Plain(c) && Plain(d) && LineName(c, l) == LineName(d, m)
    ensures c == d && l == m
  {
    var s, t := Acts.PartName(c, l), Acts.PartName(d, m);
    assert LineName(c, l) == "line:" + s && LineName(d, m) == "line:" + t;
    assert LineName(c, l)[5..] == s && LineName(d, m)[5..] == t;
    if c + ":" <= d {
      ColonIn(c, d);
    } else if d + ":" <= c {
      ColonIn(d, c);
    } else if |c| <= |d| {
      Acts.CollidesByPrefix(c, d, l, m);
    } else {
      Acts.CollidesByPrefix(d, c, m, l);
    }
    assert s[|c| + 1..] == l && t[|d| + 1..] == m;
  }

  lemma NameTellsKind(w: Write, c: Uuid)
    requires Writes(w, c)
    ensures w.name != "" && (w.name[0] == 'l' <==> w.body.DespatchLine?)
  {
  }

  /** Two writes for different packages, or different lines of one, are named apart. */
  lemma NamesTellPackages(w: Write, x: Write, c: Uuid, d: Uuid)
    requires Plain(c) && Plain(d) && Writes(w, c) && Writes(x, d) && w.name == x.name
    ensures c == d && (w.body.DespatchItself? <==> x.body.DespatchItself?)
    ensures w.body.DespatchLine? ==> x.body.DespatchLine? && w.body.line == x.body.line
  {
    NameTellsKind(w, c);
    NameTellsKind(x, d);
    if w.body.DespatchLine? {
      LineNamesTell(c, w.body.line, d, x.body.line);
    } else {
      assert ItselfName(c)[7..] == c && ItselfName(d)[7..] == d;
    }
  }

  /** A carton's lines are named apart exactly when none is on it twice. */
  lemma LinesApart(carton: Uuid, lines: seq<BookedLine>, at: nat)
    requires Plain(carton)
    ensures NamedApart(LineWrites(carton, lines, at)) <==> DistinctLines(lines)
  {
    var ws := LineWrites(carton, lines, at);
    forall i, j | 0 <= i < j < |lines|
      ensures ws[i].name == ws[j].name <==> lines[i].line == lines[j].line
    {
      if ws[i].name == ws[j].name {
        LineNamesTell(carton, lines[i].line, carton, lines[j].line);
      }
    }
  }

  ghost predicate Packed(bs: seq<Booked>) {
    DistinctIds(bs) && forall i :: 0 <= i < |bs| ==> Plain(bs[i].id) && DistinctLines(bs[i].lines)
  }

  lemma {:induction false} OfThePackages(bs: seq<Booked>, at: nat, w: Write)
    requires w in InsideWrites(bs, at)
    ensures exists i :: 0 <= i < |bs| && Writes(w, bs[i].id)
  {
    if w in InsideWrites(bs[1..], at) {
      OfThePackages(bs[1..], at, w);
      var i :| 0 <= i < |bs[1..]| && Writes(w, bs[1..][i].id);
      assert Writes(w, bs[i + 1].id);
    } else {
      OfThePackage(bs[0].id, bs[0].lines, at);
      assert Writes(w, bs[0].id);
    }
  }

  lemma JoinApart(a: seq<Write>, b: seq<Write>)
    requires NamedApart(a) && NamedApart(b)
    requires forall i, j :: 0 <= i < |a| && 0 <= j < |b| ==> a[i].name != b[j].name
    ensures NamedApart(a + b)
  {
  }

  /** A package's writes share no name with the writes of others. */
  lemma OthersApart(carton: Uuid, lines: seq<BookedLine>, bs: seq<Booked>, at: nat)
    requires Plain(carton) && forall i :: 0 <= i < |bs| ==> Plain(bs[i].id) && bs[i].id != carton
    ensures forall w, x :: w in OwnWrites(carton, lines, at) && x in InsideWrites(bs, at) ==> w.name != x.name
  {
    forall w, x | w in OwnWrites(carton, lines, at) && x in InsideWrites(bs, at)
      ensures w.name != x.name
    {
      OfThePackage(carton, lines, at);
      OfThePackages(bs, at, x);
      var i :| 0 <= i < |bs| && Writes(x, bs[i].id);
      if w.name == x.name {
        NamesTellPackages(w, x, carton, bs[i].id);
      }
    }
  }

  lemma {:induction false} InsideApart(bs: seq<Booked>, at: nat)
    requires Packed(bs)
    ensures NamedApart(InsideWrites(bs, at))
  {
    if bs != [] {
      var p, rest := bs[0], bs[1..];
      assert forall i :: 0 <= i < |rest| ==> rest[i] == bs[i + 1];
      InsideApart(rest, at);
      LinesApart(p.id, p.lines, at);
      OthersApart(p.id, p.lines, rest, at);
      var a, b := if p.despatched then [] else OwnWrites(p.id, p.lines, at), InsideWrites(rest, at);
      assert forall i :: 0 <= i < |a| ==> a[i] in OwnWrites(p.id, p.lines, at);
      assert forall i :: 0 <= i < |b| ==> b[i] in InsideWrites(rest, at);
      JoinApart(a, b);
    }
  }

  lemma {:induction false} PlacedDistinct(b: Booked, sorted: seq<Booked>)
    requires DistinctIds(sorted) && forall i :: 0 <= i < |sorted| ==> sorted[i].id != b.id
    ensures DistinctIds(Placed(b, sorted, ByLines))
  {
    var after := Placed(b, sorted, ByLines);
    if sorted != [] && ByLines(b) > ByLines(sorted[0]) {
      var rest := sorted[1..];
      PlacedDistinct(b, rest);
      PlacedAmong(b, rest, ByLines);
      forall i | 0 < i < |after|
        ensures after[i].id != after[0].id
      {
        assert after[i] == Placed(b, rest, ByLines)[i - 1] && after[i] in multiset(Placed(b, rest, ByLines));
        assert after[i] == b || after[i] in rest;
      }
    } else {
      assert after[1..] == sorted;
    }
  }

  lemma {:induction false} SortedDistinct(inside: seq<Booked>)
    requires DistinctIds(inside)
    ensures DistinctIds(MostLinesFirst(inside))
  {
    if inside != [] {
      var rest := MostLinesFirst(inside[1..]);
      SortedDistinct(inside[1..]);
      SortedSorts(inside[1..], ByLines);
      forall i | 0 <= i < |rest|
        ensures rest[i].id != inside[0].id
      {
        assert rest[i] in rest;
      }
      PlacedDistinct(inside[0], rest);
    }
  }

  /** Packages each named once, with each line once, give every write of a despatch
      a name of its own. */
  lemma DespatchNamedApart(carton: Uuid, lines: seq<BookedLine>, inside: seq<Booked>, at: nat)
    requires Packed([Booked(carton, lines, false)] + inside)
    ensures NamedApart(DespatchPlan(carton, lines, inside, at).writes)
  {
    var order, all := MostLinesFirst(inside), [Booked(carton, lines, false)] + inside;
    assert all[1..] == inside && all[0] == Booked(carton, lines, false);
    assert forall i :: 0 <= i < |inside| ==> inside[i] == all[i + 1];
    SortedSorts(inside, ByLines);
    SortedDistinct(inside);
    forall i | 0 <= i < |order|
      ensures Plain(order[i].id) && DistinctLines(order[i].lines) && order[i].id != carton
    {
      assert order[i] in inside;
    }
    InsideApart(order, at);
    LinesApart(carton, lines, at);
    OthersApart(carton, lines, order, at);
    var a, b := InsideWrites(order, at), OwnWrites(carton, lines, at);
    assert forall i :: 0 <= i < |a| ==> a[i] in InsideWrites(order, at);
    assert forall i :: 0 <= i < |b| ==> b[i] in OwnWrites(carton, lines, at);
    JoinApart(a, b);
  }

  /** However often a despatch is attempted and wherever it stops, nothing of the
      carton's own has left before everything on it has. */
  lemma LoadLeavesFirst(l: Ledger, carton: Uuid, lines: seq<BookedLine>, inside: seq<Booked>, at: nat,
                        attempts: seq<seq<Answer>>, own: Write)
    requires Plain(carton) && forall i :: 0 <= i < |inside| ==> Plain(inside[i].id) && inside[i].id != carton
    requires own in OwnWrites(carton, lines, at) && own.name !in l
    requires own.name in Attempted(l, DespatchPlan(carton, lines, inside, at), attempts)
    ensures
      var after := Attempted(l, DespatchPlan(carton, lines, inside, at), attempts);
      forall w :: w in InsideWrites(MostLinesFirst(inside), at) ==> w.name in after
  {
    var p, order := DespatchPlan(carton, lines, inside, at), MostLinesFirst(inside);
    var a := InsideWrites(order, at);
    assert p.writes[..0] == [];
    var k := AttemptsRecordAFirstPart(l, p, attempts, 0);
    if k <= |a| {
      SortedSorts(inside, ByLines);
      forall i | 0 <= i < |order|
        ensures Plain(order[i].id) && order[i].id != carton
      {
        assert order[i] in inside;
      }
      OthersApart(carton, lines, order, at);
      forall w | w in p.writes[..k]
        ensures w.name != own.name
      {
        assert w in a;
      }
      NoOthers(l, p.writes[..k], own.name);
      assert false;
    }
    RecordKeeps(l, p.writes[..k]);
    assert forall i :: 0 <= i < |a| ==> p.writes[..k][i] == a[i];
  }

  // ---------- What leaves, and how many ----------

  /** A write of a package's own: of one of its lines, as many as are in it; or, when it
      has none, of itself. */
  ghost predicate LeavesBy(w: Write, p: Booked, at: nat) {
    if p.lines == [] then w == Write("itself:" + p.id, DespatchItself(p.id, at))
    else
      exists i :: 0 <= i < |p.lines| &&
        w == Write("line:" + p.id + ":" + p.lines[i].line, DespatchLine(p.id, p.lines[i].line, p.lines[i].quantity, at))
  }

  lemma OwnLeaveBy(p: Booked, at: nat, w: Write)
    ensures w in OwnWrites(p.id, p.lines, at) <==> LeavesBy(w, p, at)
  {
    if p.lines != [] {
      var ws := LineWrites(p.id, p.lines, at);
      if w in ws {
        var i :| 0 <= i < |ws| && ws[i] == w;
        assert w == LineWrite(p.id, p.lines[i], at);
      }
      if LeavesBy(w, p, at) {
        var i :| 0 <= i < |p.lines| &&
          w == Write("line:" + p.id + ":" + p.lines[i].line,
            DespatchLine(p.id, p.lines[i].line, p.lines[i].quantity, at));
        assert ws[i] == w;
      }
    }
  }

  lemma {:induction false} InsideLeaveBy(bs: seq<Booked>, at: nat, w: Write)
    ensures w in InsideWrites(bs, at) <==> exists i :: 0 <= i < |bs| && !bs[i].despatched && LeavesBy(w, bs[i], at)
  {
    if bs != [] {
      hide LeavesBy, OwnWrites;
      InsideLeaveBy(bs[1..], at, w);
      OwnLeaveBy(bs[0], at, w);
      var rest := bs[1..];
      assert forall i :: 0 <= i < |rest| ==> rest[i] == bs[i + 1];
      if i :| 0 <= i < |bs| && !bs[i].despatched && LeavesBy(w, bs[i], at) {
        assert i > 0 ==> rest[i - 1] == bs[i];
      }
    }
  }

  /** A despatch is the writes of the carton and of everything on it that has not left
      already, and no others; an empty carton's is none, and throws. */
  lemma WhatLeaves(carton: Uuid, lines: seq<BookedLine>, inside: seq<Booked>, at: nat, w: Write)
    ensures
      var p := DespatchPlan(carton, lines, inside, at);
      if lines == [] && inside == [] then p.writes == [] && p.ending == Failed(Some(409), "That carton is empty.")
      else
        && p.ending == Landed
        && (w in p.writes <==>
              || LeavesBy(w, Booked(carton, lines, false), at)
              || exists b :: b in inside && !b.despatched && LeavesBy(w, b, at))
  {
    var order := MostLinesFirst(inside);
    SortedSorts(inside, ByLines);
    InsideLeaveBy(order, at, w);
    OwnLeaveBy(Booked(carton, lines, false), at, w);
    assert forall b :: b in order <==> b in inside;
    hide LeavesBy, OwnWrites, InsideWrites, MostLinesFirst;
    if b :| b in inside && !b.despatched && LeavesBy(w, b, at) {
      var i :| 0 <= i < |order| && order[i] == b;
    }
  }

  /** Once a despatch is answered throughout, after any attempts, the ledger has each line
      of each package that left, with its own quantity. */
  lemma LeftWithItsQuantities(l: Ledger, carton: Uuid, lines: seq<BookedLine>, inside: seq<Booked>, at: nat,
                              attempts: seq<seq<Answer>>, last: seq<Answer>, w: Write)
    requires Packed([Booked(carton, lines, false)] + inside)
    requires NoneYet(l, DespatchPlan(carton, lines, inside, at).writes)
    requires
      var p := DespatchPlan(carton, lines, inside, at);
      SentAll(Wire(Attempted(l, p, attempts), last), p.writes).1 == Landed
    requires
      || (LeavesBy(w, Booked(carton, lines, false), at) && (lines != [] || inside != []))
      || exists b :: b in inside && !b.despatched && LeavesBy(w, b, at)
    ensures
      var after := Performed(Wire(Attempted(l, DespatchPlan(carton, lines, inside, at), attempts), last),
                             DespatchPlan(carton, lines, inside, at)).0.ledger;
      w.name in after && after[w.name] == w
  {
    var p := DespatchPlan(carton, lines, inside, at);
    WhatLeaves(carton, lines, inside, at, w);
    DespatchNamedApart(carton, lines, inside, at);
    hide DespatchPlan, LeavesBy, Packed, NoneYet, NamedApart;
    ResumedIsUninterrupted(l, p, attempts, last);
    EachItsOwnExactlyWhenNamedApart(l, p.writes);
    var i :| 0 <= i < |p.writes| && p.writes[i] == w;
  }
}
