/** The condition list of a Coherence resource's status. The clock is a parameter. */
module Conditions {
  import opened Wrappers

  /** Condition types, which are also the phases. `NoPhase` is the empty string. */
  datatype Kind =
    | NoPhase | Initialized | Waiting | Created | Ready | Scaling | RollingUpgrade
    | Failed | Stopped | Completed | Versioned | Other(name: string)

  datatype Truth = True | False | Unknown

  datatype Condition = Condition(kind: Kind, status: Truth, reason: string, message: string, since: int)

  /** The first condition of a kind: `GetCondition`. */
  function Find(cs: seq<Condition>, k: Kind): (r: Option<Condition>)
    ensures r.Some? ==> r.value in cs && r.value.kind == k
    ensures r.None? ==> forall c <- cs :: c.kind != k
  {
    if cs == [] then None else if cs[0].kind == k then Some(cs[0]) else Find(cs[1..], k)
  }

  predicate Has(cs: seq<Condition>, k: Kind) {
    Find(cs, k).Some?
  }

  predicate IsTrue(cs: seq<Condition>, k: Kind) {
    Find(cs, k).Some? && Find(cs, k).value.status == True
  }

  predicate UniqueKinds(cs: seq<Condition>) {
    forall i, j :: 0 <= i < j < |cs| ==> cs[i].kind != cs[j].kind
  }

  /** `c` as it is stored next to `was`: the transition time moves only when the status does. */
  function Stamped(c: Condition, was: Option<Condition>, now: int): Condition {
    c.(since := if was.Some? && was.value.status == c.status then was.value.since else now)
  }

  /** Replace the condition of `c`'s kind, or append it. */
  function Set(cs: seq<Condition>, c: Condition, now: int): seq<Condition> {
    if cs == [] then [Stamped(c, None, now)]
    else if cs[0].kind == c.kind then [Stamped(c, Some(cs[0]), now)] + cs[1..]
    else [cs[0]] + Set(cs[1..], c, now)
  }

  /** Whether setting `c` is reported as a change. */
  predicate Changes(cs: seq<Condition>, c: Condition) {
    match Find(cs, c.kind)
    case None => true
    case Some(was) => was.status != c.status || was.reason != c.reason || was.message != c.message
  }

  /** `Conditions.SetCondition`: the list is updated in place, an unknown type is appended. */
  method SetCondition(cs: seq<Condition>, c: Condition, now: int) returns (r: seq<Condition>, changed: bool)
    ensures r == Set(cs, c, now)
    ensures changed == Changes(cs, c)
  {
    for i := 0 to |cs|
      invariant forall j :: 0 <= j < i ==> cs[j].kind != c.kind
    {
      var was := cs[i];
      if was.kind == c.kind {
        var stamped := c.(since := now);
        if was.status == c.status {
          stamped := stamped.(since := was.since);
        }
        changed := was.status != c.status || was.reason != c.reason || was.message != c.message;
        r := cs[i := stamped];
        SetIsUpdate(cs, c, now, i);
        return;
      }
    }
    SetIsUpdate(cs, c, now, |cs|);
    return cs + [c.(since := now)], true;
  }

  lemma {:induction false} SetIsUpdate(cs: seq<Condition>, c: Condition, now: int, i: nat)
    requires i <= |cs| && forall j :: 0 <= j < i ==> cs[j].kind != c.kind
    requires i < |cs| ==> cs[i].kind == c.kind
    ensures Find(cs, c.kind) == if i < |cs| then Some(cs[i]) else None
    ensures Set(cs, c, now) == if i < |cs| then cs[i := Stamped(c, Some(cs[i]), now)] else cs + [Stamped(c, None, now)]
  {
    if i > 0 {
      SetIsUpdate(cs[1..], c, now, i - 1);
    } else if cs != [] {
      assert cs == [cs[0]] + cs[1..];
    }
  }

  /** Setting a condition touches no other kind. */
  lemma {:induction false} FindAfterSet(cs: seq<Condition>, c: Condition, now: int, k: Kind)
    ensures Find(Set(cs, c, now), k) ==
              if k == c.kind then Some(Stamped(c, Find(cs, c.kind), now)) else Find(cs, k)
  {
    if cs != [] {
      if cs[0].kind == c.kind {
        assert ([Stamped(c, Some(cs[0]), now)] + cs[1..])[1..] == cs[1..];
      } else {
        FindAfterSet(cs[1..], c, now, k);
        assert ([cs[0]] + Set(cs[1..], c, now))[1..] == Set(cs[1..], c, now);
      }
    }
  }

  /** What is found after a set: the status, the reason and the message that were set, with the transition
      time of the condition that was there if its status was the same, and `now` otherwise. */
  lemma TransitionTime(cs: seq<Condition>, c: Condition, now: int)
    ensures var before, after := Find(cs, c.kind), Find(Set(cs, c, now), c.kind);
            && after.Some?
            && after.value.status == c.status && after.value.reason == c.reason && after.value.message == c.message
            && after.value.since == if before.Some? && before.value.status == c.status then before.value.since else now
  {
    FindAfterSet(cs, c, now, c.kind);
  }

  /** A change is reported exactly when the list is different afterwards. */
  lemma {:induction false} ReportedChange(cs: seq<Condition>, c: Condition, now: int)
    ensures Set(cs, c, now) != cs <==> Changes(cs, c)
  {
    if cs != [] {
      if cs[0].kind == c.kind {
        assert cs == [cs[0]] + cs[1..];
        assert Set(cs, c, now)[0] == Stamped(c, Some(cs[0]), now);
      } else {
        ReportedChange(cs[1..], c, now);
        assert Set(cs, c, now)[1..] == Set(cs[1..], c, now);
      }
    }
  }

  lemma {:induction false} SetKeepsUnique(cs: seq<Condition>, c: Condition, now: int)
    requires UniqueKinds(cs)
    ensures UniqueKinds(Set(cs, c, now))
  {
    if cs != [] && cs[0].kind != c.kind {
      var rest := Set(cs[1..], c, now);
      SetKeepsUnique(cs[1..], c, now);
      FindAfterSet(cs[1..], c, now, cs[0].kind);
      assert Find(cs[1..], cs[0].kind) == None;
      assert forall i :: 0 <= i < |rest| ==> rest[i] in rest;
    }
  }

  ghost function KindsOf(cs: seq<Condition>): set<Kind> {
    set c | c in cs :: c.kind
  }

  lemma KindsOfSet(cs: seq<Condition>, c: Condition, now: int)
    ensures KindsOf(Set(cs, c, now)) == KindsOf(cs) + {c.kind}
  {
    var r := Set(cs, c, now);
    forall k ensures k in KindsOf(r) <==> k in KindsOf(cs) + {c.kind} {
      FindAfterSet(cs, c, now, k);
      assert k in KindsOf(r) <==> Has(r, k);
      assert k in KindsOf(cs) <==> Has(cs, k);
    }
  }

  /** The last condition of a type, dated `now`. */
  function Latest(cs: seq<Condition>, k: Kind, now: int): Option<Condition> {
    if cs == [] then None
    else
      var c := cs[|cs| - 1];
      if c.kind == k then Some(c.(since := now)) else Latest(cs[..|cs| - 1], k, now)
  }

  /** `NewConditions` keeps the last condition of each type in its argument. */
  method NewConditions(conds: seq<Condition>, now: int) returns (r: seq<Condition>)
    ensures UniqueKinds(r) && KindsOf(r) == KindsOf(conds)
    ensures forall k :: Find(r, k) == Latest(conds, k, now)
  {
    r := [];
    for i := 0 to |conds|
      invariant UniqueKinds(r) && KindsOf(r) == KindsOf(conds[..i])
      invariant forall k :: Find(r, k) == Latest(conds[..i], k, now)
    {
      ghost var before := r;
      SetKeepsUnique(r, conds[i], now);
      KindsOfSet(r, conds[i], now);
      assert conds[..i + 1] == conds[..i] + [conds[i]];
      var changed;
      r, changed := SetCondition(r, conds[i], now);
      forall k ensures Find(r, k) == Latest(conds[..i + 1], k, now) {
        FindAfterSet(before, conds[i], now, k);
        LatestOfMore(conds[..i], conds[i], k, now);
      }
    }
    assert conds[..|conds|] == conds;
  }

  lemma LatestOfMore(cs: seq<Condition>, c: Condition, k: Kind, now: int)
    ensures Latest(cs + [c], k, now) == if c.kind == k then Some(c.(since := now)) else Latest(cs, k, now)
    ensures Latest(cs, k, now).Some? ==> Latest(cs, k, now).value.since == now
  {
    assert (cs + [c])[..|cs|] == cs;
  }

  /** The list without its first condition of the type. */
  function Removed(cs: seq<Condition>, k: Kind): seq<Condition> {
    if cs == [] then [] else if cs[0].kind == k then cs[1..] else [cs[0]] + Removed(cs[1..], k)
  }

  /** `RemoveCondition`: with one condition a type it removes that one and nothing else. */
  method RemoveCondition(cs: seq<Condition>, k: Kind) returns (r: seq<Condition>, removed: bool)
    ensures r == Removed(cs, k) && removed == Has(cs, k)
    ensures UniqueKinds(cs) ==> UniqueKinds(r) && forall c :: c in r <==> c in cs && c.kind != k
  {
    if UniqueKinds(cs) {
      RemovedExactly(cs, k);
    }
    for i := 0 to |cs|
      invariant forall j :: 0 <= j < i ==> cs[j].kind != k
    {
      if cs[i].kind == k {
        RemovedAt(cs, k, i);
        return cs[..i] + cs[i + 1..], true;
      }
    }
    RemovedAt(cs, k, |cs|);
    return cs, false;
  }

  lemma {:induction false} RemovedAt(cs: seq<Condition>, k: Kind, i: nat)
    requires i <= |cs| && forall j :: 0 <= j < i ==> cs[j].kind != k
    requires i < |cs| ==> cs[i].kind == k
    ensures Removed(cs, k) == cs[..i] + (if i < |cs| then cs[i + 1..] else [])
    ensures Has(cs, k) <==> i < |cs|
  {
    if i > 0 {
      RemovedAt(cs[1..], k, i - 1);
      assert cs[..i] == [cs[0]] + cs[1..][..i - 1];
    }
  }

  lemma {:induction false} RemovedExactly(cs: seq<Condition>, k: Kind)
    requires UniqueKinds(cs)
    ensures forall c :: c in Removed(cs, k) <==> c in cs && c.kind != k
    ensures UniqueKinds(Removed(cs, k))
  {
    if cs != [] {
      UniqueTail(cs);
      RemovedExactly(cs[1..], k);
      hide UniqueKinds;
      assert forall c :: c in cs <==> c == cs[0] || c in cs[1..];
      if cs[0].kind != k {
        UniqueCons(cs[0], Removed(cs[1..], k));
      }
    }
  }

  lemma UniqueTail(cs: seq<Condition>)
    requires UniqueKinds(cs) && cs != []
    ensures UniqueKinds(cs[1..]) && forall c <- cs[1..] :: c.kind != cs[0].kind
  {
  }

  lemma UniqueCons(c: Condition, rest: seq<Condition>)
    requires UniqueKinds(rest) && forall x <- rest :: x.kind != c.kind
    ensures UniqueKinds([c] + rest)
  {
    assert forall i :: 0 <= i < |rest| ==> rest[i] in rest;
  }
}
