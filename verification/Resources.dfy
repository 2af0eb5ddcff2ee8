/** Collections of secondary resources, and the difference between two versions of one. */
module Resources {
  import opened Wrappers

  datatype Kind = ConfigMap | Secret | Service | ServiceMonitor | StatefulSet | Job | Coherence

  /** A Kubernetes object: its hash label, and everything else about it. */
  datatype Spec = Spec(hash: Option<string>, content: string)

  /** An entry without a spec asks for a deletion. */
  datatype Resource = Resource(kind: Kind, name: string, spec: Option<Spec>) {
    predicate IsDelete() {
      spec.None?
    }
  }

  datatype Resources = Resources(version: int, items: seq<Resource>)

  const NOTHING := Resources(0, [])

  /** `GetResource`: the first entry of that kind and name. */
  function Find(items: seq<Resource>, kind: Kind, name: string): (r: Option<Resource>)
    ensures r.Some? ==> r.value.kind == kind && r.value.name == name
  {
    if items == [] then None
    else if items[0].kind == kind && items[0].name == name then Some(items[0])
    else Find(items[1..], kind, name)
  }

  lemma {:induction false} FindMembers(items: seq<Resource>, kind: Kind, name: string)
    ensures Find(items, kind, name).Some? <==> exists x :: x in items && x.kind == kind && x.name == name
    ensures Find(items, kind, name).Some? ==> Find(items, kind, name).value in items
  {
    if items != [] {
      FindMembers(items[1..], kind, name);
      if items[0].kind == kind && items[0].name == name {
        assert items[0] in items;
      } else {
        assert forall x <- items[1..] :: x in items;
      }
    }
  }

  /** `GetResourcesOfKind`, in order. */
  function OfKind(items: seq<Resource>, kind: Kind): seq<Resource> {
    if items == [] then []
    else if items[0].kind == kind then [items[0]] + OfKind(items[1..], kind)
    else OfKind(items[1..], kind)
  }

  lemma {:induction false} OfKindMembers(items: seq<Resource>, kind: Kind)
    ensures forall x :: x in OfKind(items, kind) <==> x in items && x.kind == kind
  {
    if items != [] {
      OfKindMembers(items[1..], kind);
    }
  }

  /** The entries of a kind come in the order of the collection. */
  lemma {:induction false} OfKindInOrder(a: seq<Resource>, b: seq<Resource>, kind: Kind)
    ensures OfKind(a + b, kind) == OfKind(a, kind) + OfKind(b, kind)
    ensures |OfKind(a, kind)| <= |a|
  {
    if a == [] {
      assert a + b == b;
    } else {
      assert (a + b)[1..] == a[1..] + b;
      OfKindInOrder(a[1..], b, kind);
    }
  }

  /** No two entries of the kind share a name. */
  predicate UniqueNames(items: seq<Resource>, kind: Kind) {
    items == [] ||
    (&& (items[0].kind == kind ==> Find(items[1..], kind, items[0].name).None?)
     && UniqueNames(items[1..], kind))
  }

  predicate NoDeletes(items: seq<Resource>, kind: Kind) {
    forall x <- items :: x.kind == kind ==> !x.IsDelete()
  }

  lemma {:induction false} FindUnique(items: seq<Resource>, kind: Kind, r: Resource)
    requires UniqueNames(items, kind) && r in items && r.kind == kind
    ensures Find(items, kind, r.name) == Some(r)
  {
    if items[0] != r {
      assert r in items[1..];
      FindMembers(items[1..], kind, r.name);
      FindUnique(items[1..], kind, r);
    }
  }

  method GetResource(items: seq<Resource>, kind: Kind, name: string) returns (r: Option<Resource>)
    ensures r == Find(items, kind, name)
    ensures r.None? ==> forall x <- items :: !(x.kind == kind && x.name == name)
    ensures r.Some? ==>
              exists i :: 0 <= i < |items| && items[i] == r.value && r.value.kind == kind && r.value.name == name
                && forall j :: 0 <= j < i ==> !(items[j].kind == kind && items[j].name == name)
  {
    for i := 0 to |items|
      invariant forall j :: 0 <= j < i ==> !(items[j].kind == kind && items[j].name == name)
      invariant Find(items, kind, name) == Find(items[i..], kind, name)
    {
      if items[i].kind == kind && items[i].name == name {
        return Some(items[i]);
      }
    }
    return None;
  }

  method GetResourcesOfKind(items: seq<Resource>, kind: Kind) returns (r: seq<Resource>)
    ensures r == OfKind(items, kind)
  {
    r := [];
    for i := 0 to |items|
      invariant OfKind(items, kind) == r + OfKind(items[i..], kind)
    {
      assert items[i..][1..] == items[i + 1..];
      if items[i].kind == kind {
        r := r + [items[i]];
      }
    }
  }

  // ----- The difference of two versions ------------------------------------------------------------

  /** Deletions for the entries of `previous` that `latest` lacks, in order. */
  function Removed(previous: seq<Resource>, latest: seq<Resource>): seq<Resource> {
    if previous == [] then []
    else
      var r := previous[|previous| - 1];
      var before := Removed(previous[..|previous| - 1], latest);
      if Find(latest, r.kind, r.name).None? then before + [Resource(r.kind, r.name, None)] else before
  }

  /** The entries of `latest` that `previous` lacks or has differently, in order. */
  function Changed(latest: seq<Resource>, previous: seq<Resource>): seq<Resource> {
    if latest == [] then []
    else
      var r := latest[|latest| - 1];
      var before := Changed(latest[..|latest| - 1], previous);
      if Find(previous, r.kind, r.name) != Some(r) then before + [r] else before
  }

  function Diff(latest: seq<Resource>, kind: Kind, previous: seq<Resource>): seq<Resource> {
    Removed(OfKind(previous, kind), latest) + Changed(OfKind(latest, kind), previous)
  }

  /** `DiffForKind`: the deletions, then the additions and updates; and the number of entries the
      previous version had. */
  method DiffForKind(latest: seq<Resource>, kind: Kind, previous: seq<Resource>)
    returns (diff: seq<Resource>, count: nat)
    ensures diff == Diff(latest, kind, previous)
    ensures count == |OfKind(previous, kind)|
  {
    diff := [];
    var res := GetResourcesOfKind(previous, kind);
    OfKindMembers(previous, kind);
    for i := 0 to |res|
      invariant diff == Removed(res[..i], latest)
    {
      assert res[i] in res && res[..i + 1][..i] == res[..i];
      var found := GetResource(latest, kind, res[i].name);
      if found.None? {
        diff := diff + [Resource(res[i].kind, res[i].name, None)];
      }
    }
    assert res[..|res|] == res;
    var changed := ChangesOf(latest, kind, previous);
    diff := diff + changed;
    count := |res|;
  }

  /** The second loop of `DiffForKind`. */
  method ChangesOf(latest: seq<Resource>, kind: Kind, previous: seq<Resource>) returns (diff: seq<Resource>)
    ensures diff == Changed(OfKind(latest, kind), previous)
  {
    diff := [];
    var items := GetResourcesOfKind(latest, kind);
    for i := 0 to |items|
      invariant diff == Changed(items[..i], previous)
    {
      var r := items[i];
      assert items[..i + 1][..i] == items[..i];
      var prev := GetResource(previous, r.kind, r.name);
      if prev.Some? {
        if prev.value != r {
          diff := diff + [r];
        }
      } else {
        diff := diff + [r];
      }
    }
    assert items[..|items|] == items;
  }

  // ----- Applying a difference ---------------------------------------------------------------------

  /** The entries of a kind, by name; the first of a name counts. */
  ghost function View(items: seq<Resource>, kind: Kind): map<string, Option<Spec>> {
    map n | n in (set x | x in items && x.kind == kind :: x.name) ::
      (FindMembers(items, kind, n); Find(items, kind, n).value.spec)
  }

  lemma ViewFinds(items: seq<Resource>, kind: Kind, n: string)
    ensures At(View(items, kind), n) ==
              if Find(items, kind, n).Some? then Some(Find(items, kind, n).value.spec) else None
  {
    FindMembers(items, kind, n);
  }

  function At(m: map<string, Option<Spec>>, n: string): Option<Option<Spec>> {
    if n in m then Some(m[n]) else None
  }

  function ApplyOne(m: map<string, Option<Spec>>, r: Resource): map<string, Option<Spec>> {
    if r.IsDelete() then m - {r.name} else m[r.name := r.spec]
  }

  function ApplyAll(m: map<string, Option<Spec>>, diff: seq<Resource>): map<string, Option<Spec>> {
    if diff == [] then m else ApplyOne(ApplyAll(m, diff[..|diff| - 1]), diff[|diff| - 1])
  }

  lemma ApplySnoc(m: map<string, Option<Spec>>, diff: seq<Resource>, r: Resource)
    ensures ApplyAll(m, diff + [r]) == ApplyOne(ApplyAll(m, diff), r)
  {
    assert (diff + [r])[..|diff|] == diff;
  }

  lemma {:induction false} ApplyConcat(m: map<string, Option<Spec>>, a: seq<Resource>, b: seq<Resource>)
    ensures ApplyAll(m, a + b) == ApplyAll(ApplyAll(m, a), b)
  {
    if b == [] {
      assert a + b == a;
    } else {
      assert a + b == (a + b[..|b| - 1]) + [b[|b| - 1]];
      ApplySnoc(m, a + b[..|b| - 1], b[|b| - 1]);
      ApplyConcat(m, a, b[..|b| - 1]);
    }
  }

  /** The effect of the deletions on one name. */
  lemma {:induction false} ApplyRemoved(m: map<string, Option<Spec>>, previous: seq<Resource>,
        latest: seq<Resource>, kind: Kind, n: string)
    requires forall r <- previous :: r.kind == kind
    ensures At(ApplyAll(m, Removed(previous, latest)), n) ==
              if Find(previous, kind, n).Some? && Find(latest, kind, n).None? then None else At(m, n)
  {
    if previous != [] {
      var before, r := previous[..|previous| - 1], previous[|previous| - 1];
      assert previous == before + [r] && r in previous;
      ApplyRemoved(m, before, latest, kind, n);
      FindSnoc(before, r, kind, n);
      if Find(latest, kind, r.name).None? {
        ApplySnoc(m, Removed(before, latest), Resource(r.kind, r.name, None));
      }
    }
  }

  /** The effect of the additions and updates on one name. */
  lemma {:induction false} ApplyChanged(m: map<string, Option<Spec>>, latest: seq<Resource>,
        previous: seq<Resource>, kind: Kind, n: string)
    requires forall r <- latest :: r.kind == kind && !r.IsDelete()
    requires UniqueNames(latest, kind)
    ensures var r := Find(latest, kind, n);
            At(ApplyAll(m, Changed(latest, previous)), n) ==
              if r.Some? && Find(previous, kind, n) != r then Some(r.value.spec) else At(m, n)
  {
    if latest != [] {
      var before, r := latest[..|latest| - 1], latest[|latest| - 1];
      assert latest == before + [r] && r in latest;
      UniqueSnoc(before, r, kind);
      ApplyChanged(m, before, previous, kind, n);
      ApplyChangedSnoc(m, before, r, previous, kind, n);
    }
  }

  lemma ApplyChangedSnoc(m: map<string, Option<Spec>>, before: seq<Resource>, r: Resource,
        previous: seq<Resource>, kind: Kind, n: string)
    requires r.kind == kind && !r.IsDelete() && Find(before, kind, r.name).None?
    requires var x := Find(before, kind, n);
             At(ApplyAll(m, Changed(before, previous)), n) ==
               if x.Some? && Find(previous, kind, n) != x then Some(x.value.spec) else At(m, n)
    ensures var x := Find(before + [r], kind, n);
            At(ApplyAll(m, Changed(before + [r], previous)), n) ==
              if x.Some? && Find(previous, kind, n) != x then Some(x.value.spec) else At(m, n)
  {
    hide ApplyAll, Changed;
    FindSnoc(before, r, kind, n);
    ChangedSnoc(before, r, previous);
    ApplySnoc(m, Changed(before, previous), r);
  }

  lemma ChangedSnoc(latest: seq<Resource>, r: Resource, previous: seq<Resource>)
    ensures Changed(latest + [r], previous) ==
              if Find(previous, r.kind, r.name) != Some(r) then Changed(latest, previous) + [r]
              else Changed(latest, previous)
  {
    assert (latest + [r])[..|latest|] == latest;
  }

  lemma {:induction false} FindSnoc(items: seq<Resource>, r: Resource, kind: Kind, n: string)
    ensures Find(items + [r], kind, n) ==
              if Find(items, kind, n).Some? then Find(items, kind, n)
              else if r.kind == kind && r.name == n then Some(r) else None
  {
    if items != [] {
      assert (items + [r])[1..] == items[1..] + [r];
      FindSnoc(items[1..], r, kind, n);
    }
  }

  lemma {:induction false} UniqueSnoc(items: seq<Resource>, r: Resource, kind: Kind)
    requires UniqueNames(items + [r], kind)
    ensures UniqueNames(items, kind)
    ensures r.kind == kind ==> Find(items, kind, r.name).None?
  {
    if items != [] {
      assert (items + [r])[1..] == items[1..] + [r];
      UniqueSnoc(items[1..], r, kind);
      FindSnoc(items[1..], r, kind, items[0].name);
    }
  }

  /** Restricting to a kind keeps what is found, and the uniqueness of the names. */
  lemma {:induction false} FindOfKind(items: seq<Resource>, kind: Kind, n: string)
    ensures Find(OfKind(items, kind), kind, n) == Find(items, kind, n)
  {
    if items != [] {
      FindOfKind(items[1..], kind, n);
      assert ([items[0]] + OfKind(items[1..], kind))[1..] == OfKind(items[1..], kind);
    }
  }

  lemma {:induction false} UniqueOfKind(items: seq<Resource>, kind: Kind)
    requires UniqueNames(items, kind)
    ensures UniqueNames(OfKind(items, kind), kind)
  {
    if items != [] {
      UniqueOfKind(items[1..], kind);
      FindOfKind(items[1..], kind, items[0].name);
      assert ([items[0]] + OfKind(items[1..], kind))[1..] == OfKind(items[1..], kind);
    }
  }

  lemma HeadIsIn(rs: seq<Resource>)
    ensures rs == [] || rs[0] in rs
  {
  }

  /** Applying the difference to the previous version gives exactly the latest one. */
  lemma DiffIsEnough(latest: seq<Resource>, kind: Kind, previous: seq<Resource>)
    requires UniqueNames(latest, kind) && NoDeletes(latest, kind)
    ensures ApplyAll(View(previous, kind), Diff(latest, kind, previous)) == View(latest, kind)
  {
    var result := ApplyAll(View(previous, kind), Diff(latest, kind, previous));
    forall n ensures At(result, n) == At(View(latest, kind), n) {
      DiffAt(latest, kind, previous, n);
    }
    SameEverywhere(result, View(latest, kind));
  }

  lemma SameEverywhere(a: map<string, Option<Spec>>, b: map<string, Option<Spec>>)
    requires forall n :: At(a, n) == At(b, n)
    ensures a == b
  {
    forall n ensures n in a <==> n in b {
      assert At(a, n) == At(b, n);
    }
    forall n | n in a ensures a[n] == b[n] {
      assert At(a, n) == At(b, n);
    }
  }

  lemma DiffAt(latest: seq<Resource>, kind: Kind, previous: seq<Resource>, n: string)
    requires UniqueNames(latest, kind) && NoDeletes(latest, kind)
    ensures At(ApplyAll(View(previous, kind), Diff(latest, kind, previous)), n) == At(View(latest, kind), n)
  {
    hide ApplyAll, Removed, Changed, View, At, UniqueNames;
    var ps, ls, was := OfKind(previous, kind), OfKind(latest, kind), View(previous, kind);
    OfKindMembers(previous, kind);
    OfKindMembers(latest, kind);
    UniqueOfKind(latest, kind);
    FindOfKind(previous, kind, n);
    FindOfKind(latest, kind, n);
    ApplyConcat(was, Removed(ps, latest), Changed(ls, previous));
    ApplyRemoved(was, ps, latest, kind, n);
    ApplyChanged(ApplyAll(was, Removed(ps, latest)), ls, previous, kind, n);
    ViewFinds(latest, kind, n);
    ViewFinds(previous, kind, n);
  }

  lemma {:induction false} RemovedMembers(previous: seq<Resource>, latest: seq<Resource>)
    ensures forall d :: d in Removed(previous, latest) ==>
              && d.IsDelete() && Find(latest, d.kind, d.name).None?
              && exists r :: r in previous && r.kind == d.kind && r.name == d.name
  {
    if previous != [] {
      var before, r := previous[..|previous| - 1], previous[|previous| - 1];
      assert previous == before + [r];
      RemovedMembers(before, latest);
    }
  }

  lemma {:induction false} ChangedMembers(latest: seq<Resource>, previous: seq<Resource>)
    ensures forall d :: d in Changed(latest, previous) ==> d in latest && Find(previous, d.kind, d.name) != Some(d)
  {
    if latest != [] {
      assert latest == latest[..|latest| - 1] + [latest[|latest| - 1]];
      ChangedMembers(latest[..|latest| - 1], previous);
    }
  }

  /** A difference is empty exactly when both versions agree. It holds no unchanged entry, unless that
      is a deletion which the previous version had already. */
  lemma DiffIsMinimal(latest: seq<Resource>, kind: Kind, previous: seq<Resource>)
    requires UniqueNames(latest, kind) && NoDeletes(latest, kind)
    ensures forall d <- Diff(latest, kind, previous) ::
              d.kind == kind && (d.IsDelete() || Find(previous, kind, d.name) != Some(d))
    ensures NoDeletes(previous, kind) ==>
              forall d <- Diff(latest, kind, previous) :: Find(previous, kind, d.name) != Some(d)
    ensures Diff(latest, kind, previous) == [] <==> View(latest, kind) == View(previous, kind)
  {
    var diff := Diff(latest, kind, previous);
    forall d | d in diff
      ensures d.kind == kind
      ensures (d.IsDelete() && !NoDeletes(previous, kind)) || Find(previous, kind, d.name) != Some(d)
    {
      DiffMember(latest, kind, previous, d);
    }
    DiffIsEnough(latest, kind, previous);
    HeadIsIn(diff);
    if View(latest, kind) == View(previous, kind) {
      forall d | d in diff ensures false {
        DiffMember(latest, kind, previous, d);
        ViewFinds(latest, kind, d.name);
        ViewFinds(previous, kind, d.name);
      }
    }
  }

  /** The deletions of a difference come before its additions and updates. */
  lemma DeletionsFirst(latest: seq<Resource>, kind: Kind, previous: seq<Resource>, i: nat, j: nat)
    requires NoDeletes(latest, kind) && i < j < |Diff(latest, kind, previous)|
    ensures Diff(latest, kind, previous)[j].IsDelete() ==> Diff(latest, kind, previous)[i].IsDelete()
  {
    var removed, changed := Removed(OfKind(previous, kind), latest), Changed(OfKind(latest, kind), previous);
    hide Removed, Changed;
    RemovedMembers(OfKind(previous, kind), latest);
    ChangedMembers(OfKind(latest, kind), previous);
    OfKindMembers(latest, kind);
    if i < |removed| {
      assert removed[i] in removed;
    } else {
      assert changed[j - |removed|] in changed;
    }
  }

  lemma DiffMember(latest: seq<Resource>, kind: Kind, previous: seq<Resource>, d: Resource)
    requires UniqueNames(latest, kind) && NoDeletes(latest, kind)
    requires d in Diff(latest, kind, previous)
    ensures d.kind == kind
    ensures (d.IsDelete() && !NoDeletes(previous, kind)) || Find(previous, kind, d.name) != Some(d)
    ensures At(View(latest, kind), d.name) != At(View(previous, kind), d.name)
  {
    hide Removed, Changed, View, UniqueNames;
    OfKindMembers(previous, kind);
    OfKindMembers(latest, kind);
    RemovedMembers(OfKind(previous, kind), latest);
    ChangedMembers(OfKind(latest, kind), previous);
    FindMembers(previous, kind, d.name);
    ViewFinds(latest, kind, d.name);
    ViewFinds(previous, kind, d.name);
    if d in Changed(OfKind(latest, kind), previous) {
      FindUnique(latest, kind, d);
    }
  }
}
