/** Taking out what was picked: one correction for each pick it reverses. */
module TakeOut {
  import opened Entries
  import opened MultiWrite
  import opened Options

  type Picked = (Uuid, int)

  function CorrectionName(movement: Uuid): string {
    "correction:" + movement
  }

  function Least(a: int, b: int): int {
    if a < b then a else b
  }

  function CorrectionOf(p: Picked, left: int, reason: Uuid): Write {
    Write(CorrectionName(p.0), Correction(p.0, Least(left, p.1), reason))
  }

  function Corrections(picks: seq<Picked>, left: int, reason: Uuid): seq<Write> {
    if picks == [] || left <= 0 then []
    else [CorrectionOf(picks[0], left, reason)] + Corrections(picks[1..], left - Least(left, picks[0].1), reason)
  }

  function LeftOver(picks: seq<Picked>, left: int): int {
    if picks == [] || left <= 0 then left else LeftOver(picks[1..], left - Least(left, picks[0].1))
  }

  function TakeOutPlan(picks: seq<Picked>, quantity: int, reason: Uuid): Plan {
    Plan(Corrections(picks, quantity, reason),
         if LeftOver(picks, quantity) > 0 then Failed(Some(409), "Only some of those units were removed.") else Landed)
  }

  /** Walks the picks, reversing each as far as is still wanted. */
  method TakeOut(server: Server, picks: seq<Picked>, quantity: int, reason: Uuid) returns (out: Outcome)
    modifies server
    ensures (server.Now(), out) == Performed(old(server.Now()), TakeOutPlan(picks, quantity, reason))
  {
    var left, i := quantity, 0;
    assert picks[0..] == picks;
    while i < |picks|
      invariant i <= |picks|
      invariant Performed(server.Now(), TakeOutPlan(picks[i..], left, reason))
             == Performed(old(server.Now()), TakeOutPlan(picks, quantity, reason))
    {
      if left <= 0 {
        break;
      }
      var (movement, available) := picks[i];
      var take := Least(left, available);
      var w := Write(CorrectionName(movement), Correction(movement, take, reason));
      var rest := picks[i + 1..];
      assert picks[i..][0] == picks[i] && picks[i..][1..] == rest;
      assert Corrections(picks[i..], left, reason) == [w] + Corrections(rest, left - take, reason);
      assert ([w] + Corrections(rest, left - take, reason))[1..] == Corrections(rest, left - take, reason);
      out := server.Send(w);
      if out.Failed? {
        return;
      }
      left := left - take;
      i := i + 1;
    }
    out := if left > 0 then Failed(Some(409), "Only some of those units were removed.") else Landed;
  }

  function Total(picks: seq<Picked>): int {
    if picks == [] then 0 else picks[0].1 + Total(picks[1..])
  }

  ghost predicate Distinct(picks: seq<Picked>) {
    forall i, j :: 0 <= i < j < |picks| ==> picks[i].0 != picks[j].0
  }

  ghost predicate Units(picks: seq<Picked>) {
    forall i :: 0 <= i < |picks| ==> picks[i].1 >= 0
  }

  /** What the ledger says was taken back of one pick. */
  function TakenOf(l: Ledger, p: Picked): int {
    var name := CorrectionName(p.0);
    if name in l && l[name].body.Correction? then l[name].body.quantity else 0
  }

  function TakenBack(l: Ledger, picks: seq<Picked>): int {
    if picks == [] then 0 else TakenOf(l, picks[0]) + TakenBack(l, picks[1..])
  }

  ghost predicate NoneTaken(l: Ledger, picks: seq<Picked>) {
    forall i :: 0 <= i < |picks| ==> CorrectionName(picks[i].0) !in l
  }

  function Asked(quantity: int, total: int): int {
    if Least(quantity, total) < 0 then 0 else Least(quantity, total)
  }

  lemma NamesTell(a: Uuid, b: Uuid)
    requires CorrectionName(a) == CorrectionName(b)
    ensures a == b
  {
    assert CorrectionName(a)[11..] == a && CorrectionName(b)[11..] == b;
  }

  lemma NotTakenFromTheRest(l: Ledger, p: Picked, w: Write, rest: seq<Picked>)
    requires w.name == CorrectionName(p.0) && forall i :: 0 <= i < |rest| ==> rest[i].0 != p.0
    ensures TakenBack(l[w.name := w], rest) == TakenBack(l, rest)
    ensures NoneTaken(l, rest) ==> NoneTaken(l[w.name := w], rest)
  {
    if rest != [] {
      if CorrectionName(rest[0].0) == w.name {
        NamesTell(rest[0].0, p.0);
      }
      NotTakenFromTheRest(l, p, w, rest[1..]);
      forall i | 0 <= i < |rest| && NoneTaken(l, rest)
        ensures CorrectionName(rest[i].0) !in l[w.name := w]
      {
        if CorrectionName(rest[i].0) == w.name {
          NamesTell(rest[i].0, p.0);
        }
      }
    }
  }

  lemma {:induction false} NothingTaken(l: Ledger, picks: seq<Picked>)
    requires NoneTaken(l, picks)
    ensures TakenBack(l, picks) == 0
  {
    if picks != [] {
      forall i | 0 <= i < |picks[1..]|
        ensures CorrectionName(picks[1..][i].0) !in l
      {
        assert picks[1..][i] == picks[i + 1];
      }
      NothingTaken(l, picks[1..]);
    }
  }

  lemma RestOfThem(l: Ledger, picks: seq<Picked>)
    requires Distinct(picks) && Units(picks) && NoneTaken(l, picks) && picks != []
    ensures Distinct(picks[1..]) && Units(picks[1..]) && NoneTaken(l, picks[1..])
  {
    assert forall i :: 0 <= i < |picks[1..]| ==> picks[1..][i] == picks[i + 1];
  }

  /** A first part of the corrections, recorded: never more of a pick than it has,
      never more than was asked, and all of what was asked when it is all of them. */
  lemma {:induction false} TakenByAFirstPart(l: Ledger, picks: seq<Picked>, left: int, reason: Uuid, k: nat)
    requires Distinct(picks) && Units(picks) && NoneTaken(l, picks)
    requires k <= |Corrections(picks, left, reason)|
    ensures
      var after := RecordAll(l, Corrections(picks, left, reason)[..k]);
      && (forall i :: 0 <= i < |picks| ==> 0 <= TakenOf(after, picks[i]) <= picks[i].1)
      && 0 <= TakenBack(after, picks) <= Asked(left, Total(picks))
      && (k == |Corrections(picks, left, reason)| ==> TakenBack(after, picks) == Asked(left, Total(picks)))
    ensures LeftOver(picks, left) > 0 <==> left > Total(picks)
    ensures Total(picks) >= 0
    decreases |picks|
  {
    var ws := Corrections(picks, left, reason);
    var after := RecordAll(l, ws[..k]);
    if picks == [] || left <= 0 {
      NothingTaken(l, picks);
      TotalUnits(picks);
    } else {
      var w, rest, less := CorrectionOf(picks[0], left, reason), picks[1..], left - Least(left, picks[0].1);
      RestOfThem(l, picks);
      assert ws[1..] == Corrections(rest, less, reason);
      if k == 0 {
        NothingTaken(l, picks);
        TakenByAFirstPart(l, rest, less, reason, 0);
      } else {
        var next := l[w.name := w];
        assert CorrectionName(picks[0].0) !in l;
        NotTakenFromTheRest(l, picks[0], w, rest);
        hide Distinct, Units, NoneTaken;
        TakenByAFirstPart(next, rest, less, reason, k - 1);
        assert ws[..k][1..] == Corrections(rest, less, reason)[..k - 1];
        assert after == RecordAll(next, Corrections(rest, less, reason)[..k - 1]);
        RecordKeeps(next, Corrections(rest, less, reason)[..k - 1]);
        assert TakenOf(after, picks[0]) == Least(left, picks[0].1);
        forall i | 0 <= i < |picks|
          ensures 0 <= TakenOf(after, picks[i]) <= picks[i].1
        {
          if i > 0 {
            assert picks[i] == rest[i - 1];
          }
        }
      }
    }
  }

  lemma {:induction false} TotalUnits(picks: seq<Picked>)
    requires Units(picks)
    ensures Total(picks) >= 0
    ensures forall left :: left <= 0 ==> LeftOver(picks, left) == left
  {
    if picks != [] {
      assert forall i :: 0 <= i < |picks[1..]| ==> picks[1..][i] == picks[i + 1];
      TotalUnits(picks[1..]);
    }
  }

  /** Taking out, attempted any number of times and stopped anywhere: never more of
      a pick than it has, and never more in all than was asked or there was. */
  lemma NeverTooMuchTakenOut(l: Ledger, picks: seq<Picked>, quantity: int, reason: Uuid, attempts: seq<seq<Answer>>)
    requires Distinct(picks) && Units(picks) && NoneTaken(l, picks)
    ensures
      var after := Attempted(l, TakeOutPlan(picks, quantity, reason), attempts);
      && (forall i :: 0 <= i < |picks| ==> 0 <= TakenOf(after, picks[i]) <= picks[i].1)
      && 0 <= TakenBack(after, picks) <= Asked(quantity, Total(picks))
  {
    var p := TakeOutPlan(picks, quantity, reason);
    assert p.writes[..0] == [];
    var k := AttemptsRecordAFirstPart(l, p, attempts, 0);
    TakenByAFirstPart(l, picks, quantity, reason, k);
  }

  /** And once an attempt's requests are all answered, exactly what was asked or
      there was; it throws, to be shown and not tried again, exactly when there was less. */
  lemma TakesOutWhatWasAsked(
      l: Ledger, picks: seq<Picked>, quantity: int, reason: Uuid, attempts: seq<seq<Answer>>, last: seq<Answer>)
    requires Distinct(picks) && Units(picks) && NoneTaken(l, picks)
    requires
      var wire := Wire(Attempted(l, TakeOutPlan(picks, quantity, reason), attempts), last);
      SentAll(wire, Corrections(picks, quantity, reason)).1 == Landed
    ensures
      var wire := Wire(Attempted(l, TakeOutPlan(picks, quantity, reason), attempts), last);
      var r := Performed(wire, TakeOutPlan(picks, quantity, reason));
      && TakenBack(r.0.ledger, picks) == Asked(quantity, Total(picks))
      && r.1 == (if quantity > Total(picks) then Failed(Some(409), "Only some of those units were removed.")
        else Landed)
  {
    var p := TakeOutPlan(picks, quantity, reason);
    ResumedIsUninterrupted(l, p, attempts, last);
    TakenByAFirstPart(l, picks, quantity, reason, |p.writes|);
    assert p.writes[..|p.writes|] == p.writes;
  }

  // ---------- From which picks, and why ----------

  /** A correction of a pick: it reverses that movement, for this reason. */
  ghost predicate Reverses(w: Write, p: Picked, reason: Uuid) {
    && w.name == "correction:" + p.0
    && w.body.Correction? && w.body.movement == p.0 && w.body.reason == reason
  }

  lemma {:induction false} EachReverses(picks: seq<Picked>, left: int, reason: Uuid)
    ensures |Corrections(picks, left, reason)| <= |picks|
    ensures
      forall i :: 0 <= i < |Corrections(picks, left, reason)| ==>
        Reverses(Corrections(picks, left, reason)[i], picks[i], reason)
  {
    if picks != [] && left > 0 {
      EachReverses(picks[1..], left - Least(left, picks[0].1), reason);
      assert Corrections(picks, left, reason)[1..]
          == Corrections(picks[1..], left - Least(left, picks[0].1), reason);
    }
  }

  lemma {:induction false} RecordedIsOneOf(l: Ledger, ws: seq<Write>, name: string)
    requires name !in l && name in RecordAll(l, ws)
    ensures RecordAll(l, ws)[name] in ws && RecordAll(l, ws)[name].name == name
    decreases |ws|
  {
    if ws != [] {
      if name in Record(l, ws[0]) {
        RecordKeeps(Record(l, ws[0]), ws[1..]);
      } else {
        RecordedIsOneOf(Record(l, ws[0]), ws[1..], name);
      }
    }
  }

  /** Whatever is recorded of a pick, through any attempts, reverses that pick for the
      reason given. */
  lemma ReversedForItsReason(l: Ledger, picks: seq<Picked>, quantity: int, reason: Uuid, attempts: seq<seq<Answer>>,
                             p: Picked)
    requires CorrectionName(p.0) !in l
    requires CorrectionName(p.0) in Attempted(l, TakeOutPlan(picks, quantity, reason), attempts)
    ensures
      var w := Attempted(l, TakeOutPlan(picks, quantity, reason), attempts)[CorrectionName(p.0)];
      Reverses(w, p, reason)
  {
    var plan := TakeOutPlan(picks, quantity, reason);
    assert plan.writes[..0] == [];
    var k := AttemptsRecordAFirstPart(l, plan, attempts, 0);
    RecordedIsOneOf(l, plan.writes[..k], CorrectionName(p.0));
    EachReverses(picks, quantity, reason);
    var w := RecordAll(l, plan.writes[..k])[CorrectionName(p.0)];
    var i :| 0 <= i < |plan.writes| && plan.writes[i] == w;
    assert CorrectionName(picks[i].0) == CorrectionName(p.0);
    NamesTell(picks[i].0, p.0);
  }

  /** The picks are taken from in the order given: one is touched only when all before
      it have been taken whole. */
  ghost predicate InTurn(l: Ledger, picks: seq<Picked>) {
    forall i, j :: 0 <= i < j < |picks| && TakenOf(l, picks[j]) > 0 ==> TakenOf(l, picks[i]) == picks[i].1
  }

  lemma NoneInTurn(l: Ledger, picks: seq<Picked>)
    requires NoneTaken(l, picks)
    ensures InTurn(l, picks) && forall i :: 0 <= i < |picks| ==> TakenOf(l, picks[i]) == 0
  {
  }

  lemma {:induction false} TakenInTurn(l: Ledger, picks: seq<Picked>, left: int, reason: Uuid, k: nat)
    requires Distinct(picks) && Units(picks) && NoneTaken(l, picks)
    requires k <= |Corrections(picks, left, reason)|
    ensures InTurn(RecordAll(l, Corrections(picks, left, reason)[..k]), picks)
    ensures k == 0 || left <= 0 ==>
      forall i :: 0 <= i < |picks| ==> TakenOf(RecordAll(l, Corrections(picks, left, reason)[..k]), picks[i]) == 0
    decreases |picks|
  {
    var ws := Corrections(picks, left, reason);
    var after := RecordAll(l, ws[..k]);
    if k == 0 {
      NoneInTurn(l, picks);
    } else {
      var w, rest, less := CorrectionOf(picks[0], left, reason), picks[1..], left - Least(left, picks[0].1);
      var next := l[w.name := w];
      RestOfThem(l, picks);
      NotTakenFromTheRest(l, picks[0], w, rest);
      TakenInTurn(next, rest, less, reason, k - 1);
      assert ws[..k][1..] == Corrections(rest, less, reason)[..k - 1];
      assert CorrectionName(picks[0].0) !in l;
      assert after == RecordAll(next, Corrections(rest, less, reason)[..k - 1]);
      RecordKeeps(next, Corrections(rest, less, reason)[..k - 1]);
      assert TakenOf(after, picks[0]) == Least(left, picks[0].1);
      hide Distinct, Units, NoneTaken, Corrections, RecordAll;
      OneMoreInTurn(after, picks);
    }
  }

  lemma OneMoreInTurn(l: Ledger, picks: seq<Picked>)
    requires picks != [] && InTurn(l, picks[1..])
    requires TakenOf(l, picks[0]) == picks[0].1 || forall i :: 0 <= i < |picks[1..]| ==> TakenOf(l, picks[1..][i]) == 0
    ensures InTurn(l, picks)
  {
    assert forall i :: 0 <= i < |picks[1..]| ==> picks[1..][i] == picks[i + 1];
    forall i, j | 0 <= i < j < |picks| && TakenOf(l, picks[j]) > 0
      ensures TakenOf(l, picks[i]) == picks[i].1
    {
      assert picks[1..][j - 1] == picks[j];
      if i > 0 {
        assert picks[1..][i - 1] == picks[i];
      }
    }
  }

  lemma TakenInTurnThroughout(l: Ledger, picks: seq<Picked>, quantity: int, reason: Uuid, attempts: seq<seq<Answer>>)
    requires Distinct(picks) && Units(picks) && NoneTaken(l, picks)
    ensures InTurn(Attempted(l, TakeOutPlan(picks, quantity, reason), attempts), picks)
  {
    var p := TakeOutPlan(picks, quantity, reason);
    assert p.writes[..0] == [];
    var k := AttemptsRecordAFirstPart(l, p, attempts, 0);
    TakenInTurn(l, picks, quantity, reason, k);
  }
}
