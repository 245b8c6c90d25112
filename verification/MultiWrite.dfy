/** Acts that are several writes: each named in its act, sent in order, and stopped by the first failure. */
module MultiWrite {
  import opened Entries
  import opened Options

  type Uuid = string

  datatype Place = Package(id: Uuid) | Location(id: Uuid)

  datatype Body =
    | Correction(movement: Uuid, quantity: int, reason: Uuid)
    | DespatchLine(package: Uuid, line: Uuid, quantity: int, at: nat)
    | DespatchItself(package: Uuid, at: nat)
    | Allocation(line: Uuid, stock: Uuid, quantity: int)
    | Pick(stock: Uuid, line: Uuid, to: Place, quantity: int, at: nat)

  /** A write, under the name its id has in the act: one id to a name. */
  datatype Write = Write(name: string, body: Body)

  type Ledger = map<string, Write>

  /** How one request comes out: answered, recorded and its reply lost, never
      received, or turned away. */
  datatype Answer = Answered | ReplyLost | Unreached | TurnedAway(status: int, message: string)

  /** The server's ledger of the act, and how the requests to come will come out;
      after those, every one is answered. */
  datatype Wire = Wire(ledger: Ledger, answers: seq<Answer>)

  // ---------- The ledger: an id it has is an act it has ----------

  function Record(l: Ledger, w: Write): Ledger {
    if w.name in l then l else l[w.name := w]
  }

  function RecordAll(l: Ledger, ws: seq<Write>): Ledger
    decreases |ws|
  {
    if ws == [] then l else RecordAll(Record(l, ws[0]), ws[1..])
  }

  function Sent(wire: Wire, w: Write): (Wire, Outcome) {
    var rest := if wire.answers == [] then [] else wire.answers[1..];
    match if wire.answers == [] then Answered else wire.answers[0]
    case Answered => (Wire(Record(wire.ledger, w), rest), Landed)
    case ReplyLost => (Wire(Record(wire.ledger, w), rest), Failed(None, ""))
    case Unreached => (Wire(wire.ledger, rest), Failed(None, ""))
    case TurnedAway(status, message) => (Wire(wire.ledger, rest), Failed(Some(status), message))
  }

  function SentAll(wire: Wire, ws: seq<Write>): (Wire, Outcome)
    decreases |ws|
  {
    if ws == [] then (wire, Landed)
    else
      var r := Sent(wire, ws[0]);
      if r.1.Failed? then r else SentAll(r.0, ws[1..])
  }

  /** The writes an act makes if none fails, and how it ends then. */
  datatype Plan = Plan(writes: seq<Write>, ending: Outcome)

  function Performed(wire: Wire, p: Plan): (Wire, Outcome) {
    var r := SentAll(wire, p.writes);
    if r.1.Failed? then r else (r.0, p.ending)
  }

  class Server {
    var ledger: Ledger
    var answers: seq<Answer>

    constructor (ledger: Ledger, answers: seq<Answer>)
      ensures Now() == Wire(ledger, answers)
    {
      this.ledger, this.answers := ledger, answers;
    }

    function Now(): Wire
      reads this
    {
      Wire(ledger, answers)
    }

    method Send(w: Write) returns (out: Outcome)
      modifies this
      ensures (Now(), out) == Sent(old(Now()), w)
    {
      var answer := Answered;
      if answers != [] {
        answer, answers := answers[0], answers[1..];
      }
      if answer in {Answered, ReplyLost} && w.name !in ledger {
        ledger := ledger[w.name := w];
      }
      match answer {
        case Answered => out := Landed;
        case TurnedAway(status, message) => out := Failed(Some(status), message);
        case _ => out := Failed(None, "");
      }
    }
  }

  // ---------- Stopped anywhere, and run again ----------

  lemma {:induction false} RecordJoins(l: Ledger, a: seq<Write>, b: seq<Write>)
    ensures RecordAll(l, a + b) == RecordAll(RecordAll(l, a), b)
    decreases |a|
  {
    if a == [] {
      assert a + b == b;
    } else {
      assert (a + b)[1..] == a[1..] + b;
      RecordJoins(Record(l, a[0]), a[1..], b);
    }
  }

  lemma {:induction false} RecordKeeps(l: Ledger, ws: seq<Write>)
    ensures l.Keys <= RecordAll(l, ws).Keys
    ensures forall k :: k in l ==> RecordAll(l, ws)[k] == l[k]
    ensures forall w :: w in ws ==> w.name in RecordAll(l, ws)
    decreases |ws|
  {
    if ws != [] {
      RecordKeeps(Record(l, ws[0]), ws[1..]);
    }
  }

  lemma {:induction false} AlreadyRecorded(l: Ledger, ws: seq<Write>)
    requires forall w :: w in ws ==> w.name in l
    ensures RecordAll(l, ws) == l
    decreases |ws|
  {
    if ws != [] {
      AlreadyRecorded(l, ws[1..]);
    }
  }

  /** One attempt after another leaves what the further of them would have left alone. */
  lemma FurtherOfTwo(l: Ledger, ws: seq<Write>, j: nat, k: nat)
    requires j <= |ws| && k <= |ws|
    ensures RecordAll(RecordAll(l, ws[..j]), ws[..k]) == RecordAll(l, ws[..if j < k then k else j])
  {
    var once := RecordAll(l, ws[..j]);
    RecordKeeps(l, ws[..j]);
    if k <= j {
      assert forall w :: w in ws[..k] ==> w in ws[..j];
      AlreadyRecorded(once, ws[..k]);
    } else {
      AlreadyRecorded(once, ws[..j]);
      assert ws[..k] == ws[..j] + ws[j..k];
      RecordJoins(once, ws[..j], ws[j..k]);
      RecordJoins(l, ws[..j], ws[j..k]);
    }
  }

  /** However an attempt's requests come out, it records a first part of its writes,
      and all of them if none fails. */
  lemma {:induction false} RecordsAFirstPart(wire: Wire, ws: seq<Write>) returns (k: nat)
    ensures k <= |ws|
    ensures SentAll(wire, ws).0.ledger == RecordAll(wire.ledger, ws[..k])
    ensures SentAll(wire, ws).1 == Landed ==> k == |ws|
    decreases |ws|
  {
    k := 0;
    if ws != [] {
      var r := Sent(wire, ws[0]);
      if r.1.Failed? {
        k := if r.0.ledger == wire.ledger then 0 else 1;
        assert ws[..1] == [ws[0]] && [ws[0]][1..] == [];
      } else {
        var further := RecordsAFirstPart(r.0, ws[1..]);
        k := further + 1;
        assert ws[..k][1..] == ws[1..][..further];
      }
    }
  }

  /** The same act and input, attempted once for each list of answers. */
  function Attempted(l: Ledger, p: Plan, attempts: seq<seq<Answer>>): Ledger
    decreases |attempts|
  {
    if attempts == [] then l
    else Attempted(Performed(Wire(l, attempts[0]), p).0.ledger, p, attempts[1..])
  }

  lemma {:induction false} AttemptsRecordAFirstPart(l: Ledger, p: Plan, attempts: seq<seq<Answer>>, done: nat)
    returns (k: nat)
    requires done <= |p.writes|
    ensures done <= k <= |p.writes|
    ensures Attempted(RecordAll(l, p.writes[..done]), p, attempts) == RecordAll(l, p.writes[..k])
    decreases |attempts|
  {
    k := done;
    if attempts != [] {
      var reached := RecordsAFirstPart(Wire(RecordAll(l, p.writes[..done]), attempts[0]), p.writes);
      FurtherOfTwo(l, p.writes, done, reached);
      k := AttemptsRecordAFirstPart(l, p, attempts[1..], if done < reached then reached else done);
    }
  }

  /** Stopped after any write, any number of times, and then run to its end, an act
      leaves the ledger of one uninterrupted run. */
  lemma ResumedIsUninterrupted(l: Ledger, p: Plan, attempts: seq<seq<Answer>>, last: seq<Answer>)
    requires SentAll(Wire(Attempted(l, p, attempts), last), p.writes).1 == Landed
    ensures Performed(Wire(Attempted(l, p, attempts), last), p).0.ledger == Performed(Wire(l, []), p).0.ledger
    ensures Performed(Wire(l, []), p).0.ledger == RecordAll(l, p.writes)
  {
    var ws := p.writes;
    assert ws[..|ws|] == ws && ws[..0] == [];
    var j := AttemptsRecordAFirstPart(l, p, attempts, 0);
    var k := RecordsAFirstPart(Wire(RecordAll(l, ws[..j]), last), ws);
    FurtherOfTwo(l, ws, j, |ws|);
    Unhindered(l, ws);
    assert RecordAll(l, ws[..0]) == l;
  }

  lemma {:induction false} Unhindered(l: Ledger, ws: seq<Write>)
    ensures SentAll(Wire(l, []), ws) == (Wire(RecordAll(l, ws), []), Landed)
    decreases |ws|
  {
    if ws != [] {
      Unhindered(Record(l, ws[0]), ws[1..]);
    }
  }

  lemma {:induction false} SentInParts(wire: Wire, a: seq<Write>, b: seq<Write>)
    ensures SentAll(wire, a + b) == var r := SentAll(wire, a); if r.1.Failed? then r else SentAll(r.0, b)
    decreases |a|
  {
    if a == [] {
      assert a + b == b;
    } else {
      assert (a + b)[1..] == a[1..] + b;
      SentInParts(Sent(wire, a[0]).0, a[1..], b);
    }
  }

  // ---------- Each write is a record of its own ----------

  ghost predicate NamedApart(ws: seq<Write>) {
    forall i, j :: 0 <= i < j < |ws| ==> ws[i].name != ws[j].name
  }

  ghost predicate NoneYet(l: Ledger, ws: seq<Write>) {
    forall i :: 0 <= i < |ws| ==> ws[i].name !in l
  }

  ghost predicate EachRecorded(l: Ledger, ws: seq<Write>) {
    forall i :: 0 <= i < |ws| ==> ws[i].name in l && l[ws[i].name] == ws[i]
  }

  lemma FirstApart(l: Ledger, ws: seq<Write>)
    requires ws != []
    ensures NamedApart(ws) && NoneYet(l, ws) <==>
      ws[0].name !in l && NamedApart(ws[1..]) && NoneYet(Record(l, ws[0]), ws[1..])
  {
    var rest := ws[1..];
    assert forall i :: 0 <= i < |rest| ==> rest[i] == ws[i + 1];
    if NamedApart(ws) && NoneYet(l, ws) {
      assert ws[0].name !in l;
      forall i, j | 0 <= i < j < |rest|
        ensures rest[i].name != rest[j].name
      {
        assert ws[i + 1].name != ws[j + 1].name;
      }
    }
  }

  /** Each write of a run adds a record of its own exactly when no two share a name
      and none was there; and then it is there as it was made. */
  lemma {:induction false} EachItsOwnExactlyWhenNamedApart(l: Ledger, ws: seq<Write>)
    ensures |RecordAll(l, ws)| <= |l| + |ws|
    ensures |RecordAll(l, ws)| == |l| + |ws| <==> NamedApart(ws) && NoneYet(l, ws)
    ensures NamedApart(ws) && NoneYet(l, ws) ==> EachRecorded(RecordAll(l, ws), ws)
    decreases |ws|
  {
    if ws != [] {
      var next, rest := Record(l, ws[0]), ws[1..];
      FirstApart(l, ws);
      EachItsOwnExactlyWhenNamedApart(next, rest);
      RecordKeeps(next, rest);
      assert ws[0].name !in l ==> next.Keys == l.Keys + {ws[0].name} && |next.Keys| == |l.Keys| + 1;
      if NamedApart(ws) && NoneYet(l, ws) {
        forall i | 0 <= i < |ws|
          ensures ws[i].name in RecordAll(l, ws) && RecordAll(l, ws)[ws[i].name] == ws[i]
        {
          if i > 0 {
            assert rest[i - 1] == ws[i];
          }
        }
      }
    }
  }

  lemma NoOthers(l: Ledger, ws: seq<Write>, name: string)
    requires forall w :: w in ws ==> w.name != name
    ensures name in RecordAll(l, ws) <==> name in l
    decreases |ws|
  {
    if ws != [] {
      NoOthers(Record(l, ws[0]), ws[1..], name);
    }
  }
}
