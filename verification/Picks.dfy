/** A pick that claims its stock first: two writes, the first of which may be turned away. */
module Picks {
  import opened Entries
  import opened MultiWrite
  import opened Options

  datatype Press = Press(line: Uuid, stock: Uuid, to: Place, quantity: int, claim: int, at: nat, pickAnyway: bool)

  function ClaimOf(p: Press): Write {
    Write("allocation", Allocation(p.line, p.stock, p.claim))
  }

  function PickOf(p: Press): Write {
    Write("event", Body.Pick(p.stock, p.line, p.to, p.quantity, p.at))
  }

  /** Whether a claim that came out so stops the press: at the shelf any failure
      does, and from the outbox only one worth trying again. */
  predicate Stops(p: Press, claim: Outcome) {
    claim.Failed? && (!p.pickAnyway || Transient(claim.status))
  }

  function Pressed(wire: Wire, p: Press): (Wire, Outcome) {
    if p.claim > 0 then
      var r := Sent(wire, ClaimOf(p));
      if Stops(p, r.1) then r else Sent(r.0, PickOf(p))
    else Sent(wire, PickOf(p))
  }

  method Pick(server: Server, p: Press) returns (out: Outcome)
    modifies server
    ensures (server.Now(), out) == Pressed(old(server.Now()), p)
  {
    if p.claim > 0 {
      out := server.Send(ClaimOf(p));
      if out.Failed? && (!p.pickAnyway || Transient(out.status)) {
        return;
      }
    }
    out := server.Send(PickOf(p));
  }

  function PressedAgain(l: Ledger, p: Press, attempts: seq<seq<Answer>>): Ledger
    decreases |attempts|
  {
    if attempts == [] then l
    else PressedAgain(Pressed(Wire(l, attempts[0]), p).0.ledger, p, attempts[1..])
  }

  /** What can have been recorded of a press. */
  ghost predicate SoFar(l: Ledger, p: Press, after: Ledger) {
    || after == l
    || after == Record(Record(l, ClaimOf(p)), PickOf(p))
    || (p.claim > 0 && after == Record(l, ClaimOf(p)))
    || ((p.claim <= 0 || p.pickAnyway) && after == Record(l, PickOf(p)))
  }

  lemma RecordedEitherWayRound(l: Ledger, c: Write, k: Write)
    requires c.name != k.name
    ensures Record(Record(l, k), c) == Record(Record(l, c), k)
    ensures forall w :: w in {c, k} ==> Record(Record(l, w), w) == Record(l, w)
    ensures Record(Record(Record(l, c), k), c) == Record(Record(l, c), k)
    ensures Record(Record(Record(l, c), k), k) == Record(Record(l, c), k)
  {
  }

  lemma OneMorePress(l: Ledger, p: Press, now: Ledger, answers: seq<Answer>)
    requires SoFar(l, p, now) && (p.claim > 0 || now in {l, Record(l, PickOf(p))})
    ensures
      var r := Pressed(Wire(now, answers), p);
      && SoFar(l, p, r.0.ledger)
      && (p.claim <= 0 ==> r.0.ledger in {l, Record(l, PickOf(p))})
      && (r.1 == Landed ==>
            (|| r.0.ledger == Record(Record(l, ClaimOf(p)), PickOf(p))
             || ((p.claim <= 0 || p.pickAnyway) && r.0.ledger == Record(l, PickOf(p)))))
  {
    var c, k := ClaimOf(p), PickOf(p);
    RecordedEitherWayRound(l, c, k);
    hide Record, ClaimOf, PickOf, Transient;
    var first := Sent(Wire(now, answers), c);
    assert first.0.ledger == now || first.0.ledger == Record(now, c);
  }

  lemma {:induction false} AnyPresses(l: Ledger, p: Press, now: Ledger, attempts: seq<seq<Answer>>)
    requires SoFar(l, p, now) && (p.claim > 0 || now in {l, Record(l, PickOf(p))})
    ensures SoFar(l, p, PressedAgain(now, p, attempts))
    ensures p.claim <= 0 ==> PressedAgain(now, p, attempts) in {l, Record(l, PickOf(p))}
    decreases |attempts|
  {
    if attempts != [] {
      OneMorePress(l, p, now, attempts[0]);
      AnyPresses(l, p, Pressed(Wire(now, attempts[0]), p).0.ledger, attempts[1..]);
    }
  }

  /** With a claim to make and nothing passed over, no answers to any attempts leave a
      pick on the ledger alone. */
  lemma NeverWithoutItsClaim(l: Ledger, p: Press, attempts: seq<seq<Answer>>)
    requires p.claim > 0 && !p.pickAnyway && "event" !in l
    ensures "event" in PressedAgain(l, p, attempts) ==> "allocation" in PressedAgain(l, p, attempts)
  {
    AnyPresses(l, p, l, attempts);
  }

  /** Once a press lands, after any attempts before it, the pick is recorded once as
      it was made, its claim with it; sent from the outbox, the pick even if the
      claim was turned away. */
  lemma PickedOnce(l: Ledger, p: Press, attempts: seq<seq<Answer>>, last: seq<Answer>)
    requires Pressed(Wire(PressedAgain(l, p, attempts), last), p).1 == Landed
    ensures
      var after := Pressed(Wire(PressedAgain(l, p, attempts), last), p).0.ledger;
      || after == Record(Record(l, ClaimOf(p)), PickOf(p))
      || ((p.claim <= 0 || p.pickAnyway) && after == Record(l, PickOf(p)))
  {
    AnyPresses(l, p, l, attempts);
    OneMorePress(l, p, PressedAgain(l, p, attempts), last);
  }

  // ---------- Exactly when it is recorded ----------

  /** How the `i`-th request of an attempt comes out. */
  function AnswerAt(answers: seq<Answer>, i: nat): Answer {
    if i < |answers| then answers[i] else Answered
  }

  predicate Recording(a: Answer) {
    a == Answered || a == ReplyLost
  }

  /** The claim lets the press go on: answered, or, from the outbox, turned away for good. */
  predicate Passes(p: Press, claim: Answer) {
    claim == Answered || (p.pickAnyway && claim.TurnedAway? && !Transient(Some(claim.status)))
  }

  /** An attempt's answers let its pick be recorded. */
  predicate Reaches(p: Press, answers: seq<Answer>) {
    if p.claim > 0 then Passes(p, AnswerAt(answers, 0)) && Recording(AnswerAt(answers, 1))
    else Recording(AnswerAt(answers, 0))
  }

  lemma OneAttemptReaches(l: Ledger, p: Press, answers: seq<Answer>)
    ensures "event" in Pressed(Wire(l, answers), p).0.ledger <==> "event" in l || Reaches(p, answers)
  {
    assert "event"[0] != "allocation"[0];
    hide Transient;
    var first := Sent(Wire(l, answers), ClaimOf(p));
    assert answers != [] ==> first.0.answers == answers[1..];
  }

  /** A pick is on the ledger after any number of attempts exactly when it was before or
      the answers of one let it be: a claim answered and the pick received. At the
      shelf a claim turned away never lets it; from the outbox it does, unless it was
      turned away for now. */
  lemma {:induction false} RecordedExactly(l: Ledger, p: Press, attempts: seq<seq<Answer>>)
    ensures "event" in PressedAgain(l, p, attempts) <==>
      "event" in l || exists i :: 0 <= i < |attempts| && Reaches(p, attempts[i])
    decreases |attempts|
  {
    if attempts != [] {
      hide Reaches, Pressed;
      var rest := attempts[1..];
      OneAttemptReaches(l, p, attempts[0]);
      RecordedExactly(Pressed(Wire(l, attempts[0]), p).0.ledger, p, rest);
      assert (exists i :: 0 <= i < |attempts| && Reaches(p, attempts[i])) <==>
             Reaches(p, attempts[0]) || exists i :: 0 <= i < |rest| && Reaches(p, rest[i]) by {
        forall i | 0 <= i < |rest|
          ensures rest[i] == attempts[i + 1]
        {
        }
        if i :| 0 <= i < |attempts| && Reaches(p, attempts[i]) {
          assert i > 0 ==> rest[i - 1] == attempts[i];
        }
      }
    }
  }

  /** What a press that landed, after any attempts, has on the ledger: the pick of its stock
      for its line, to where it was put, as many as were picked and at its moment; and if
      a claim, one of as many as it was to claim. */
  lemma RecordedAsPressed(l: Ledger, p: Press, attempts: seq<seq<Answer>>, last: seq<Answer>)
    requires "event" !in l && "allocation" !in l
    requires Pressed(Wire(PressedAgain(l, p, attempts), last), p).1 == Landed
    ensures
      var after := Pressed(Wire(PressedAgain(l, p, attempts), last), p).0.ledger;
      && "event" in after && after["event"].body == Body.Pick(p.stock, p.line, p.to, p.quantity, p.at)
      && ("allocation" in after ==> after["allocation"].body == Allocation(p.line, p.stock, p.claim))
      && (p.claim > 0 && !p.pickAnyway ==> "allocation" in after)
      && (p.claim <= 0 ==> "allocation" !in after)
  {
    assert "event"[0] != "allocation"[0];
    PickedOnce(l, p, attempts, last);
    AnyPresses(l, p, l, attempts);
    OneMorePress(l, p, PressedAgain(l, p, attempts), last);
    hide Pressed, PressedAgain, SoFar;
  }
}
