/** The list of acts a device stores, and what each operation does to one key and the rest. */
module Entries {
  import opened Options

  type Key = string
  /** An id is minted for one act under one name, and is no other's. */
  datatype Id = Id(act: Key, name: string, n: nat)

  /** The names a write has records under once it is answered; none, when it carries no id. */
  type Names = set<string>

  /** A stored act; `done` counts its landed writes, and `refused` says why it is not sent. */
  datatype Held = Held(key: Key, owner: string, writes: seq<Names>, ids: map<string, Id>, at: nat, done: nat,
                       refused: Option<string>)

  // ---------- Finding ----------

  function Find(all: seq<Held>, key: Key): (at: int)
    ensures -1 <= at < |all|
    ensures at >= 0 ==> all[at].key == key && forall i :: 0 <= i < at ==> all[i].key != key
    ensures at < 0 ==> forall i :: 0 <= i < |all| ==> all[i].key != key
  {
    if all == [] then -1
    else if all[0].key == key then 0
    else
      var rest := Find(all[1..], key);
      assert forall i :: 0 < i < |all| ==> all[i] == all[1..][i - 1];
      if rest < 0 then -1 else rest + 1
  }

  predicate Stored(all: seq<Held>, key: Key) {
    Find(all, key) >= 0
  }

  function Get(all: seq<Held>, key: Key): Held
    requires Stored(all, key)
  {
    all[Find(all, key)]
  }

  function Keys(all: seq<Held>): (ks: seq<Key>)
    ensures |ks| == |all| && forall i :: 0 <= i < |all| ==> ks[i] == all[i].key
  {
    seq(|all|, i requires 0 <= i < |all| => all[i].key)
  }

  ghost predicate Unique(all: seq<Held>) {
    forall i, j :: 0 <= i < j < |all| ==> all[i].key != all[j].key
  }

  // ---------- What is done ----------

  /** The list with `e` where its key was, or last. */
  function PutIn(all: seq<Held>, e: Held): seq<Held> {
    var at := Find(all, e.key);
    if at >= 0 then all[at := e] else all + [e]
  }

  /** Kept only if it still is. */
  function UpdateIn(all: seq<Held>, e: Held): seq<Held> {
    var at := Find(all, e.key);
    if at >= 0 then all[at := e] else all
  }

  function DropFrom(all: seq<Held>, key: Key): seq<Held> {
    if all == [] then []
    else if all[0].key == key then DropFrom(all[1..], key)
    else [all[0]] + DropFrom(all[1..], key)
  }

  function RefuseIn(all: seq<Held>, key: Key, reason: string): (r: seq<Held>)
    ensures |r| == |all|
    ensures forall i :: 0 <= i < |all| ==>
      r[i] == if all[i].key == key then all[i].(refused := Some(reason)) else all[i]
  {
    seq(|all|, i requires 0 <= i < |all| => if all[i].key == key then all[i].(refused := Some(reason)) else all[i])
  }

  // ---------- What it leaves: each key once, each in its place ----------

  /** `a` was kept before `b`. */
  ghost predicate Before(all: seq<Held>, a: Key, b: Key) {
    exists i, j :: 0 <= i < j < |all| && all[i].key == a && all[j].key == b
  }

  /** Of those kept in both, none has changed places. */
  ghost predicate OrderKept(all: seq<Held>, after: seq<Held>) {
    forall a, b :: Before(all, a, b) && Stored(after, a) && Stored(after, b) ==> Before(after, a, b)
  }

  lemma FindIs(all: seq<Held>, i: nat)
    requires Unique(all) && i < |all|
    ensures Find(all, all[i].key) == i
  {
  }

  lemma SameKeysKeep(all: seq<Held>, after: seq<Held>)
    requires |after| == |all| && forall i :: 0 <= i < |all| ==> after[i].key == all[i].key
    ensures Unique(all) ==> Unique(after)
    ensures OrderKept(all, after)
    ensures forall k :: Stored(after, k) <==> Stored(all, k)
  {
    forall a, b | Before(all, a, b)
      ensures Before(after, a, b)
    {
      var i, j :| 0 <= i < j < |all| && all[i].key == a && all[j].key == b;
      assert after[i].key == a && after[j].key == b;
    }
  }

  lemma PutKeeps(all: seq<Held>, e: Held)
    requires Unique(all)
    ensures Unique(PutIn(all, e)) && OrderKept(all, PutIn(all, e))
    ensures Stored(PutIn(all, e), e.key) && Get(PutIn(all, e), e.key) == e
    ensures forall k :: Stored(PutIn(all, e), k) <==> Stored(all, k) || k == e.key
    ensures forall k :: k != e.key && Stored(all, k) ==> Get(PutIn(all, e), k) == Get(all, k)
  {
    var put := PutIn(all, e);
    var at := Find(all, e.key);
    if at >= 0 {
      SameKeysKeep(all, put);
      FindIs(put, at);
    } else {
      FindIs(put, |all|);
      forall a, b | Before(all, a, b)
        ensures Before(put, a, b)
      {
        var i, j :| 0 <= i < j < |all| && all[i].key == a && all[j].key == b;
        assert put[i].key == a && put[j].key == b;
      }
    }
    forall k | k != e.key
      ensures Stored(put, k) <==> Stored(all, k)
      ensures Stored(all, k) ==> Get(put, k) == Get(all, k)
    {
      if Stored(all, k) {
        FindIs(put, Find(all, k));
      }
      assert forall i :: 0 <= i < |put| && put[i].key == k ==> i < |all| && all[i].key == k;
    }
  }

  lemma UpdateKeeps(all: seq<Held>, e: Held)
    requires Unique(all)
    ensures Unique(UpdateIn(all, e)) && OrderKept(all, UpdateIn(all, e))
    ensures forall k :: Stored(UpdateIn(all, e), k) <==> Stored(all, k)
    ensures Stored(all, e.key) ==> Get(UpdateIn(all, e), e.key) == e
    ensures forall k :: k != e.key && Stored(all, k) ==> Get(UpdateIn(all, e), k) == Get(all, k)
  {
    if Stored(all, e.key) {
      PutKeeps(all, e);
    } else {
      SameKeysKeep(all, all);
    }
  }

  lemma RefuseKeeps(all: seq<Held>, key: Key, reason: string)
    requires Unique(all)
    ensures Unique(RefuseIn(all, key, reason)) && OrderKept(all, RefuseIn(all, key, reason))
    ensures forall k :: Stored(RefuseIn(all, key, reason), k) <==> Stored(all, k)
    ensures forall k :: Stored(all, k) ==>
      Get(RefuseIn(all, key, reason), k) == if k == key then Get(all, k).(refused := Some(reason)) else Get(all, k)
  {
    var after := RefuseIn(all, key, reason);
    SameKeysKeep(all, after);
    forall k | Stored(all, k)
      ensures Find(after, k) == Find(all, k)
    {
      assert after[Find(all, k)].key == k;
      FindIs(after, Find(all, k));
    }
  }

  lemma {:induction false} DropKeeps(all: seq<Held>, key: Key)
    requires Unique(all)
    ensures var after := DropFrom(all, key);
      && Unique(after)
      && (forall k :: Stored(after, k) <==> Stored(all, k) && k != key)
      && (forall k :: Stored(after, k) ==> Get(after, k) == Get(all, k))
  {
    var after := DropFrom(all, key);
    if all != [] {
      var rest := DropFrom(all[1..], key);
      DropKeeps(all[1..], key);
      assert all == [all[0]] + all[1..];
      FirstOrRest(all);
      if all[0].key != key {
        assert after == [all[0]] + rest && after[1..] == rest;
        forall i | 0 <= i < |rest|
          ensures rest[i].key != all[0].key
        {
          FindIs(rest, i);
          assert Stored(all[1..], rest[i].key);
        }
        FirstOrRest(after);
      }
    }
  }

  lemma FirstOrRest(all: seq<Held>)
    requires |all| > 0
    ensures forall k :: Stored(all, k) <==> k == all[0].key || Stored(all[1..], k)
    ensures forall k :: k != all[0].key && Stored(all[1..], k) ==> Get(all, k) == Get(all[1..], k)
    ensures Get(all, all[0].key) == all[0]
  {
  }

  lemma BeforeOn(e: Held, rest: seq<Held>, a: Key, b: Key)
    requires Before(rest, a, b) || (e.key == a && Stored(rest, b))
    ensures Before([e] + rest, a, b)
  {
    var all := [e] + rest;
    if Before(rest, a, b) {
      var m, n :| 0 <= m < n < |rest| && rest[m].key == a && rest[n].key == b;
      assert all[m + 1].key == a && all[n + 1].key == b;
    } else {
      assert all[0].key == a && all[Find(rest, b) + 1].key == b;
    }
  }

  lemma BeforeOff(all: seq<Held>, a: Key, b: Key)
    requires Before(all, a, b)
    ensures all != []
    ensures Before(all[1..], a, b) || (all[0].key == a && Stored(all[1..], b))
  {
    var i, j :| 0 <= i < j < |all| && all[i].key == a && all[j].key == b;
    assert all[1..][j - 1].key == b;
    if i > 0 {
      assert all[1..][i - 1].key == a;
    }
  }

  lemma {:induction false} DropKeepsOrder(all: seq<Held>, key: Key, a: Key, b: Key)
    requires Unique(all) && Before(all, a, b) && a != key && b != key
    ensures Before(DropFrom(all, key), a, b)
  {
    hide Find, Before;
    BeforeOff(all, a, b);
    DropKeeps(all[1..], key);
    if Before(all[1..], a, b) {
      DropKeepsOrder(all[1..], key, a, b);
    }
    if all[0].key != key {
      BeforeOn(all[0], DropFrom(all[1..], key), a, b);
    }
  }

  lemma DropOrderKept(all: seq<Held>, key: Key)
    requires Unique(all)
    ensures OrderKept(all, DropFrom(all, key))
  {
    var after := DropFrom(all, key);
    forall a, b | Before(all, a, b) && Stored(after, a) && Stored(after, b)
      ensures Before(after, a, b)
    {
      DropKeeps(all, key);
      DropKeepsOrder(all, key, a, b);
    }
  }

  // ---------- Which failures are worth trying again ----------

  /** The statuses after which the act is sent again rather than refused. */
  predicate Transient(status: Option<int>) {
    if status == None || status.value == 0 then true
    else var n := status.value; n == 401 || n == 408 || n == 425 || n == 429 || n >= 500
  }

  /** How a send came out. */
  datatype Outcome = Landed | Failed(status: Option<int>, message: string)

  function Said(message: string): string {
    if message != "" then message else "The server refused it."
  }
}
