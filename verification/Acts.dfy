/** Acts: ids minted once a name, a moment that stays, and when two names come out alike. */
module Acts {

  /** An act: the ids asked of it so far, and its own moment. */
  class Act {
    var minted: map<string, nat>
    const at: nat

    constructor (clock: nat)
      ensures minted == map[] && at == clock
    {
      minted, at := map[], clock;
    }

    method Id(name: string, mint: nat) returns (id: nat)
      modifies this
      ensures name in minted && minted[name] == id
      ensures minted == if name in old(minted) then old(minted) else old(minted)[name := mint]
    {
      if name in minted {
        return minted[name];
      }
      id := mint;
      minted := minted[name := id];
    }
  }

  /** The acts held by key until they land; a key that is held gets the act it already has. */
  class Pressing {
    var held: map<string, Act>

    constructor ()
      ensures held == map[]
    {
      held := map[];
    }

    method Attempt(key: string, clock: nat) returns (act: Act)
      modifies this
      ensures key in held && held[key] == act
      ensures key in old(held) ==> held == old(held)
      ensures key !in old(held) ==>
        fresh(act) && act.at == clock && act.minted == map[] && held == old(held)[key := act]
    {
      if key in held {
        return held[key];
      }
      act := new Act(clock);
      held := held[key := act];
    }

    method Landed(key: string)
      modifies this
      ensures held == old(held) - {key}
    {
      held := held - {key};
    }
  }

  /** An id asked for twice, with any others asked for between, is the same id. */
  method AskedTwice(act: Act, name: string, others: seq<string>, mint: nat) returns (first: nat, again: nat)
    modifies act
    ensures first == again
  {
    first := act.Id(name, mint);
    for i := 0 to |others|
      invariant name in act.minted && act.minted[name] == first
    {
      var other := act.Id(others[i], mint + 1 + i);
    }
    again := act.Id(name, mint + 1 + |others|);
  }

  // ---------- The parts of an act ----------

  /** The name a part's name has in its act. */
  function PartName(part: string, name: string): string {
    part + ":" + name
  }

  ghost predicate Collide(p: string, q: string) {
    exists m, n :: PartName(p, m) == PartName(q, n)
  }

  lemma PrefixCollides(p: string, q: string)
    requires p + ":" <= q
    ensures Collide(p, q)
  {
    var m := q[|p| + 1..] + ":";
    assert q == (p + ":") + q[|p| + 1..];
    assert PartName(p, m) == PartName(q, "");
  }

  lemma CollidesByPrefix(p: string, q: string, m: string, n: string)
    requires PartName(p, m) == PartName(q, n) && |p| <= |q|
    ensures p == q || p + ":" <= q
  {
    var s := PartName(p, m);
    assert s[..|p|] == p && PartName(q, n)[..|q|] == q;
    if |p| < |q| {
      assert s[..|p| + 1] == p + ":";
      assert q[..|p| + 1] == s[..|p| + 1];
    }
  }

  /** Two parts of an act are named apart exactly when neither goes on from the
      other by a colon. */
  lemma PartsApart(p: string, q: string)
    requires p != q
    ensures Collide(p, q) <==> p + ":" <= q || q + ":" <= p
  {
    if p + ":" <= q {
      PrefixCollides(p, q);
    }
    if q + ":" <= p {
      PrefixCollides(q, p);
      var m, n :| PartName(q, m) == PartName(p, n);
      assert PartName(p, n) == PartName(q, m);
    }
    if Collide(p, q) {
      var m, n :| PartName(p, m) == PartName(q, n);
      if |p| <= |q| {
        CollidesByPrefix(p, q, m, n);
      } else {
        CollidesByPrefix(q, p, n, m);
      }
    }
  }

  /** As the parts `carton` and `carton:2` can: asked for `2:event` and `event`. */
  lemma PartsThatCollide()
    ensures PartName("carton", "2:event") == PartName("carton:2", "event") && Collide("carton", "carton:2")
  {
    assert "carton" + ":" + "2:event" == "carton:2" + ":" + "event";
    assert PartName("carton", "2:event") == PartName("carton:2", "event");
  }
}
