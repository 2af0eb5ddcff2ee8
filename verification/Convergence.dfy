/** The generic secondary-resource reconciler: after a version has been stored, one pass over a kind
    makes the cluster hold exactly the stored objects of that kind. */
module Convergence {
  import opened Wrappers
  import opened Resources
  import Storage

  /** An object in the cluster; one with a deletion timestamp is terminating. */
  datatype Object = Object(spec: Spec, terminating: bool)

  type Objects = map<string, Object>

  /** The names for which a call of the API fails during a pass. */
  datatype Faults = Faults(get: set<string>, create: set<string>, patch: set<string>, delete: set<string>)

  const NO_FAULTS := Faults({}, {}, {}, {})

  /** What a pass reads of the store, and the name of the owning resource. */
  datatype Store = Store(latest: seq<Resource>, previous: seq<Resource>, hash: Option<string>, owner: string)

  /** The store's own Secret is never reconciled. */
  predicate IsStoreSecret(kind: Kind, name: string, owner: string) {
    kind == Secret && name == owner
  }

  // ----- What a pass does --------------------------------------------------------------------------

  predicate DeleteWorks(n: string, f: Faults) {
    n !in f.get && n !in f.delete
  }

  function WithoutOne(objs: Objects, r: Resource, kind: Kind, f: Faults): Objects {
    if r.kind == kind && DeleteWorks(r.name, f) then objs - {r.name} else objs
  }

  /** The objects after the deletions; a deletion that fails goes unnoticed. */
  function Without(objs: Objects, deletions: seq<Resource>, kind: Kind, f: Faults): Objects {
    if deletions == [] then objs
    else WithoutOne(Without(objs, deletions[..|deletions| - 1], kind, f), deletions[|deletions| - 1], kind, f)
  }

  predicate UpToDate(objs: Objects, n: string, hash: Option<string>) {
    n in objs && !objs[n].terminating && objs[n].spec.hash == hash
  }

  /** The objects after a create or a patch of `name` that succeeded: the first entry of that name in
      the latest version is what is wanted. */
  function Put(objs: Objects, kind: Kind, name: string, store: Store): Objects {
    match Find(store.latest, kind, name)
    case Some(r) => if r.IsDelete() then objs else objs[name := Object(r.spec.value, false)]
    case None => objs
  }

  function SettledName(objs: Objects, kind: Kind, name: string, store: Store): Objects {
    if IsStoreSecret(kind, name, store.owner) || UpToDate(objs, name, store.hash) then objs
    else Put(objs, kind, name, store)
  }

  /** The objects after one entry has been reconciled without an error. */
  function SettledOne(objs: Objects, r: Resource, kind: Kind, store: Store, f: Faults): Objects {
    if !r.IsDelete() then SettledName(objs, kind, r.name, store)
    else if r.name in f.delete then objs
    else objs - {r.name}
  }

  function Settled(objs: Objects, items: seq<Resource>, kind: Kind, store: Store, f: Faults): Objects {
    if items == [] then objs
    else SettledOne(Settled(objs, items[..|items| - 1], kind, store, f), items[|items| - 1], kind, store, f)
  }

  /** The objects when a pass has dealt with the first `k` entries of its kind. */
  function AfterSome(objs: Objects, kind: Kind, store: Store, f: Faults, k: nat): Objects {
    var items := OfKind(store.latest, kind);
    Settled(Without(objs, Storage.Deletions(store.previous, store.latest), kind, f),
            if k < |items| then items[..k] else items, kind, store, f)
  }

  function AfterPass(objs: Objects, kind: Kind, store: Store, f: Faults): Objects {
    AfterSome(objs, kind, store, f, |OfKind(store.latest, kind)|)
  }

  /** Whether reconciling the entry `name` ends in an error. A terminating object counts as absent, so
      it is created again, which the API refuses. */
  predicate EntryFails(objs: Objects, kind: Kind, name: string, store: Store, f: Faults) {
    || name in f.get
    || (&& !IsStoreSecret(kind, name, store.owner) && !UpToDate(objs, name, store.hash)
        && Find(store.latest, kind, name).Some?
        && (|| Find(store.latest, kind, name).value.IsDelete()
            || (if name in objs then objs[name].terminating || name in f.patch else name in f.create)))
  }

  /** Whose a single resource is: the owner's, with its store; nobody's, having no owner reference to a
      Coherence resource; of an owner that is gone; or the lookup of the owner, or then the loading of
      its store, has failed. A pass over a kind knows the owner. */
  datatype Owning = Owned(store: Store) | Unowned | OwnerGone | OwnerUnknown | StoreUnread(owner: string)

  predicate SingleFails(objs: Objects, kind: Kind, name: string, owning: Owning, f: Faults) {
    match owning
    case Owned(store) => EntryFails(objs, kind, name, store, f)
    case Unowned => name in f.get
    case OwnerGone => true
    case OwnerUnknown => true
    case StoreUnread(owner) => name in f.get || !IsStoreSecret(kind, name, owner)
  }

  /** The objects after a single resource has been reconciled without an error: what has no owner
      reference goes. */
  function AfterSingle(objs: Objects, kind: Kind, name: string, owning: Owning, f: Faults): Objects {
    match owning
    case Owned(store) => SettledName(objs, kind, name, store)
    case Unowned =>
      if name in objs && !objs[name].terminating && name !in f.delete then objs - {name} else objs
    case _ => objs
  }

  /** The objects after an event about an owner's resources has been handled, error or not. The object
      is the one of the owner's name; whose it is can only be read off an object that is there. */
  function Watched(objs: Objects, kind: Kind, name: string, owning: Owning, f: Faults): Objects {
    if name !in objs || SingleFails(objs, kind, name, owning, f) then objs
    else AfterSingle(objs, kind, name, owning, f)
  }

  /** Every entry of the kind gets through. */
  ghost predicate Completes(objs: Objects, kind: Kind, store: Store, f: Faults) {
    var items := OfKind(store.latest, kind);
    forall i :: 0 <= i < |items| ==>
      PassesAt(Without(objs, Storage.Deletions(store.previous, store.latest), kind, f), items, i, kind, store, f)
  }

  /** The entry at `i` gets through once those before it have. */
  predicate PassesAt(objs: Objects, items: seq<Resource>, i: nat, kind: Kind, store: Store, f: Faults)
    requires i < |items|
  {
    EntryPasses(Settled(objs, items[..i], kind, store, f), items[i], kind, store, f)
  }

  predicate EntryPasses(objs: Objects, r: Resource, kind: Kind, store: Store, f: Faults) {
    r.IsDelete() || !EntryFails(objs, kind, r.name, store, f)
  }

  predicate SettledAlready(objs: Objects, r: Resource, kind: Kind, store: Store) {
    !r.IsDelete() && (IsStoreSecret(kind, r.name, store.owner) || UpToDate(objs, r.name, store.hash))
  }

  /** Nothing of the kind is left to delete, and every entry is there with the store's hash. */
  ghost predicate Quiet(objs: Objects, kind: Kind, store: Store) {
    && (forall r <- Storage.Deletions(store.previous, store.latest) :: r.kind == kind ==> r.name !in objs)
    && (forall r <- OfKind(store.latest, kind) :: SettledAlready(objs, r, kind, store))
  }

  // ----- The source's methods ----------------------------------------------------------------------

  /** The objects of one kind in the namespace, and how many writing calls have been made. */
  class Cluster {
    var objects: Objects
    var writes: nat

    constructor (objects: Objects)
      ensures this.objects == objects && writes == 0
    {
      this.objects, writes := objects, 0;
    }
  }

  class ReconcileSecondaryResource {
    const kind: Kind
    const cluster: Cluster

    constructor (kind: Kind, cluster: Cluster)
      ensures this.kind == kind && this.cluster == cluster
    {
      this.kind := kind;
      this.cluster := cluster;
    }

    method FindResource(name: string, f: Faults) returns (found: Option<Object>, failed: bool)
      ensures failed <==> name in f.get
      ensures found == if name !in f.get && name in cluster.objects then Some(cluster.objects[name]) else None
    {
      found, failed := None, name in f.get;
      if !failed && name in cluster.objects {
        found := Some(cluster.objects[name]);
      }
    }

    /** `Delete` has no failure to report: a failed call is only logged. */
    method Delete(name: string, f: Faults)
      modifies cluster
      ensures cluster.objects == if name in f.delete then old(cluster.objects) else old(cluster.objects) - {name}
      ensures cluster.writes == old(cluster.writes) + 1
    {
      cluster.writes := cluster.writes + 1;
      if name !in f.delete {
        cluster.objects := cluster.objects - {name};
      }
    }

    /** `Create`: the API refuses a name that is taken, and an entry without a spec. */
    method Create(name: string, store: Store, f: Faults) returns (ok: bool)
      modifies cluster
      ensures cluster.objects == if ok then Put(old(cluster.objects), kind, name, store) else old(cluster.objects)
      ensures ok <==> var r := Find(store.latest, kind, name);
                r.Some? ==> !r.value.IsDelete() && name !in f.create && name !in old(cluster.objects)
      ensures cluster.writes == old(cluster.writes) + if Find(store.latest, kind, name).Some? then 1 else 0
    {
      var r := GetResource(store.latest, kind, name);
      if r.None? {
        return true;
      }
      cluster.writes := cluster.writes + 1;
      if name in f.create || name in cluster.objects || r.value.IsDelete() {
        return false;
      }
      cluster.objects := cluster.objects[name := Object(r.value.spec.value, false)];
      return true;
    }

    /** `Update`: an object that carries the store's hash is left alone. */
    method Update(name: string, current: Object, store: Store, f: Faults) returns (ok: bool)
      modifies cluster
      ensures current.spec.hash == store.hash ==>
                ok && cluster.objects == old(cluster.objects) && cluster.writes == old(cluster.writes)
      ensures current.spec.hash != store.hash ==>
                && cluster.objects ==
                   (if ok then Put(old(cluster.objects), kind, name, store) else old(cluster.objects))
                && (ok <==>
                    var r := Find(store.latest, kind, name);
                    r.Some? ==> !r.value.IsDelete() && name !in f.patch)
                && cluster.writes == old(cluster.writes) + if Find(store.latest, kind, name).Some? then 1 else 0
    {
      if current.spec.hash == store.hash {
        return true;
      }
      var desired := GetResource(store.latest, kind, name);
      if desired.None? {
        return true;
      }
      cluster.writes := cluster.writes + 1;
      if name in f.patch || desired.value.IsDelete() {
        return false;
      }
      cluster.objects := cluster.objects[name := Object(desired.value.spec.value, false)];
      return true;
    }

    method ReconcileSingleResource(name: string, owning: Owning, f: Faults) returns (ok: bool)
      modifies cluster
      ensures ok <==> !SingleFails(old(cluster.objects), kind, name, owning, f)
      ensures cluster.objects ==
                if ok then AfterSingle(old(cluster.objects), kind, name, owning, f) else old(cluster.objects)
      ensures owning.OwnerGone? || owning.OwnerUnknown? ==> !ok && cluster.objects == old(cluster.objects)
      ensures owning.StoreUnread? ==>
                && cluster.objects == old(cluster.objects)
                && (ok <==> name !in f.get && kind == Secret && name == owning.owner)
      ensures owning.Unowned? ==>
                var objs := old(cluster.objects);
                && (ok <==> name !in f.get)
                && cluster.objects ==
                   if name in objs && !objs[name].terminating && name !in f.get && name !in f.delete then objs - {name}
                   else objs
      ensures owning.Owned? && kind == Secret && name == owning.store.owner ==>
                cluster.objects == old(cluster.objects) && (ok <==> name !in f.get)
      ensures owning.Owned? && !(kind == Secret && name == owning.store.owner) ==>
                var objs, wanted := old(cluster.objects), Find(owning.store.latest, kind, name);
                ok <==>
                  && name !in f.get
                  && (if name in objs && !objs[name].terminating
                      then objs[name].spec.hash == owning.store.hash || wanted.None?
                             || (!wanted.value.IsDelete() && name !in f.patch)
                      else wanted.None? || (!wanted.value.IsDelete() && name !in objs && name !in f.create))
      ensures owning.Owned? && (|| IsStoreSecret(kind, name, owning.store.owner)
                                || UpToDate(old(cluster.objects), name, owning.store.hash)) ==>
                cluster.writes == old(cluster.writes)
    {
      var found, failed := FindResource(name, f);
      if failed {
        return false;
      }
      var isThere := found.Some?;
      if isThere && found.value.terminating {
        isThere := false;
      }
      match owning
      case OwnerUnknown => return false;
      case OwnerGone => return false;   // a nil pointer inside a non-nil interface: Go panics on its first use
      case Unowned =>
        if isThere {
          Delete(name, f);
        }
        ok := true;
      case StoreUnread(owner) => ok := IsStoreSecret(kind, name, owner);
      case Owned(store) =>
        if IsStoreSecret(kind, name, store.owner) {
          return true;
        }
        if !isThere {
          ok := Create(name, store, f);
        } else {
          ok := Update(name, found.value, store, f);
        }
    }

    /** `SimpleReconciler.Reconcile`, once it has the lock; `refs` is what the owner references lead to. */
    method Reconcile(name: string, refs: Owning, f: Faults) returns (ok: bool)
      modifies cluster
      ensures cluster.objects == Watched(old(cluster.objects), kind, name, refs, f)
      ensures ok <==>
                if name in old(cluster.objects) then !SingleFails(old(cluster.objects), kind, name, refs, f)
                else name !in f.get
    {
      var owning := if name in cluster.objects then refs else Unowned;
      ok := ReconcileSingleResource(name, owning, f);
    }

    /** The first loop of a pass: delete what the latest version no longer has. */
    method DeleteGone(deletions: seq<Resource>, f: Faults)
      modifies cluster
      ensures cluster.objects == Without(old(cluster.objects), deletions, kind, f)
      ensures (forall r <- deletions :: r.kind == kind ==> r.name !in old(cluster.objects)) ==>
                cluster.objects == old(cluster.objects) && cluster.writes == old(cluster.writes)
    {
      for i := 0 to |deletions|
        invariant cluster.objects == Without(old(cluster.objects), deletions[..i], kind, f)
        invariant (forall r <- deletions :: r.kind == kind ==> r.name !in old(cluster.objects)) ==>
                    cluster.objects == old(cluster.objects) && cluster.writes == old(cluster.writes)
      {
        var del := deletions[i];
        assert del in deletions && deletions[..i + 1][..i] == deletions[..i];
        if del.kind == kind {
          var found, _ := FindResource(del.name, f);
          if found.Some? {
            Delete(del.name, f);
          }
        }
        assert cluster.objects == WithoutOne(Without(old(cluster.objects), deletions[..i], kind, f), del, kind, f);
      }
      assert deletions[..|deletions|] == deletions;
    }

    /** The body of the second loop of a pass. */
    method ReconcileEntry(res: Resource, store: Store, f: Faults) returns (ok: bool)
      modifies cluster
      ensures ok <==> EntryPasses(old(cluster.objects), res, kind, store, f)
      ensures cluster.objects ==
                if ok then SettledOne(old(cluster.objects), res, kind, store, f) else old(cluster.objects)
      ensures SettledAlready(old(cluster.objects), res, kind, store) ==>
                cluster.objects == old(cluster.objects) && cluster.writes == old(cluster.writes)
    {
      if res.IsDelete() {
        Delete(res.name, f);
        return true;
      }
      ok := ReconcileSingleResource(res.name, Owned(store), f);
    }

    /** The second loop of a pass; it stops at the first error, after `k` entries. */
    method ReconcileLatest(resources: seq<Resource>, store: Store, f: Faults) returns (ok: bool, k: nat)
      modifies cluster
      ensures k <= |resources| && (ok <==> k == |resources|)
      ensures forall i :: 0 <= i < k ==> PassesAt(old(cluster.objects), resources, i, kind, store, f)
      ensures !ok ==> !PassesAt(old(cluster.objects), resources, k, kind, store, f)
      ensures cluster.objects == Settled(old(cluster.objects), resources[..k], kind, store, f)
      ensures (forall r <- resources :: SettledAlready(old(cluster.objects), r, kind, store)) ==>
                cluster.objects == old(cluster.objects) && cluster.writes == old(cluster.writes)
    {
      hide SettledOne, EntryPasses, SettledAlready;
      k := 0;
      while k < |resources|
        invariant k <= |resources|
        invariant forall i :: 0 <= i < k ==> PassesAt(old(cluster.objects), resources, i, kind, store, f)
        invariant cluster.objects == Settled(old(cluster.objects), resources[..k], kind, store, f)
        invariant (forall r <- resources :: SettledAlready(old(cluster.objects), r, kind, store)) ==>
                    cluster.objects == old(cluster.objects) && cluster.writes == old(cluster.writes)
      {
        var res := resources[k];
        assert res in resources && resources[..k + 1][..k] == resources[..k];
        ok := ReconcileEntry(res, store, f);
        assert ok <==> PassesAt(old(cluster.objects), resources, k, kind, store, f);
        if !ok {
          return;
        }
        k := k + 1;
      }
      ok := true;
    }

    /** One pass. It fails only in the second loop, at the first entry that does not get through, and
        then the cluster is as after the entries before it. */
    method ReconcileAllResourceOfKind(store: Store, f: Faults) returns (ok: bool, k: nat)
      modifies cluster
      ensures ok <==> Completes(old(cluster.objects), kind, store, f)
      ensures ok ==> cluster.objects == AfterPass(old(cluster.objects), kind, store, f)
      ensures !ok ==> cluster.objects == AfterSome(old(cluster.objects), kind, store, f, k)
      ensures Quiet(old(cluster.objects), kind, store) ==>
                cluster.objects == old(cluster.objects) && cluster.writes == old(cluster.writes)
    {
      DeleteGone(Storage.Deletions(store.previous, store.latest), f);
      var resources := GetResourcesOfKind(store.latest, kind);
      ok, k := ReconcileLatest(resources, store, f);
      assert resources[..|resources|] == resources;
    }
  }

  // ----- What a pass leaves, name by name ------------------------------------------------------------

  function AtObj(objs: Objects, n: string): Option<Object> {
    if n in objs then Some(objs[n]) else None
  }

  lemma {:induction false} WithoutAt(objs: Objects, deletions: seq<Resource>, kind: Kind, f: Faults, n: string)
    ensures AtObj(Without(objs, deletions, kind, f), n) ==
              if Find(deletions, kind, n).Some? && DeleteWorks(n, f) then None else AtObj(objs, n)
  {
    if deletions != [] {
      var before, r := deletions[..|deletions| - 1], deletions[|deletions| - 1];
      assert deletions == before + [r];
      WithoutAt(objs, before, kind, f, n);
      FindSnoc(before, r, kind, n);
    }
  }

  /** What the pass wants under a name of the latest version. */
  function Wanted(objs: Objects, kind: Kind, n: string, store: Store): Option<Object> {
    match Find(store.latest, kind, n)
    case Some(r) =>
      if r.IsDelete() || UpToDate(objs, n, store.hash) then AtObj(objs, n) else Some(Object(r.spec.value, false))
    case None => AtObj(objs, n)
  }

  lemma {:induction false} SettledAt(objs: Objects, items: seq<Resource>, kind: Kind, store: Store, f: Faults,
        n: string)
    requires forall r <- items :: r.kind == kind && !r.IsDelete()
    ensures AtObj(Settled(objs, items, kind, store, f), n) ==
              if Find(items, kind, n).Some? && !IsStoreSecret(kind, n, store.owner) then Wanted(objs, kind, n, store)
              else AtObj(objs, n)
  {
    if items != [] {
      var before, r := items[..|items| - 1], items[|items| - 1];
      assert items == before + [r] && r in items;
      SettledAt(objs, before, kind, store, f, n);
      FindSnoc(before, r, kind, n);
      SettledNameAt(Settled(objs, before, kind, store, f), kind, r.name, store, n);
    }
  }

  lemma SettledNameAt(objs: Objects, kind: Kind, name: string, store: Store, n: string)
    ensures AtObj(SettledName(objs, kind, name, store), n) ==
              if n == name && !IsStoreSecret(kind, n, store.owner) then Wanted(objs, kind, n, store) else AtObj(objs, n)
  {
  }

  predicate Listed(items: seq<Resource>, kind: Kind, n: string) {
    Find(items, kind, n).Some?
  }

  /** The previous version had the name, the latest one does not. */
  predicate Gone(store: Store, kind: Kind, n: string) {
    Listed(store.previous, kind, n) && !Listed(store.latest, kind, n)
  }

  lemma DeletionsAreGone(store: Store, kind: Kind, n: string)
    ensures Find(Storage.Deletions(store.previous, store.latest), kind, n).Some? <==> Gone(store, kind, n)
  {
    Storage.DeletionMembers(store.previous, store.latest);
    FindMembers(store.previous, kind, n);
    FindMembers(Storage.Deletions(store.previous, store.latest), kind, n);
  }

  /** A complete pass, name by name. The Secret that has the name of the owner is left alone. */
  lemma PassAt(objs: Objects, kind: Kind, store: Store, f: Faults, n: string)
    requires NoDeletes(store.latest, kind)
    ensures AtObj(AfterPass(objs, kind, store, f), n) ==
              if Gone(store, kind, n) && n !in f.get && n !in f.delete then None
              else if Listed(store.latest, kind, n) && !(kind == Secret && n == store.owner)
              then Wanted(objs, kind, n, store)
              else AtObj(objs, n)
  {
    hide Settled, Without;
    var without := Without(objs, Storage.Deletions(store.previous, store.latest), kind, f);
    OfKindMembers(store.latest, kind);
    FindOfKind(store.latest, kind, n);
    DeletionsAreGone(store, kind, n);
    WithoutAt(objs, Storage.Deletions(store.previous, store.latest), kind, f, n);
    SettledAt(without, OfKind(store.latest, kind), kind, store, f, n);
  }

  /** An interrupted pass, name by name: every name is either where a complete pass would leave it
      or where it was. */
  lemma SomeAt(objs: Objects, kind: Kind, store: Store, f: Faults, k: nat, n: string)
    requires NoDeletes(store.latest, kind)
    ensures var got := AtObj(AfterSome(objs, kind, store, f, k), n);
            got == AtObj(AfterPass(objs, kind, store, f), n) || (Listed(store.latest, kind, n) && got == AtObj(objs, n))
  {
    hide Settled, Without, Wanted;
    var items := OfKind(store.latest, kind);
    var some := if k < |items| then items[..k] else items;
    var without := Without(objs, Storage.Deletions(store.previous, store.latest), kind, f);
    OfKindMembers(store.latest, kind);
    FindOfKind(store.latest, kind, n);
    DeletionsAreGone(store, kind, n);
    WithoutAt(objs, Storage.Deletions(store.previous, store.latest), kind, f, n);
    forall r | r in some ensures r in items {
    }
    SettledAt(without, items, kind, store, f, n);
    SettledAt(without, some, kind, store, f, n);
    PrefixFinds(items, some, kind, n);
  }

  lemma PrefixFinds(items: seq<Resource>, some: seq<Resource>, kind: Kind, n: string)
    requires forall r <- some :: r in items
    ensures Find(some, kind, n).Some? ==> Find(items, kind, n).Some?
  {
    FindMembers(items, kind, n);
    FindMembers(some, kind, n);
  }

  /** A pass over a cluster without terminating objects gets through if no read, create or patch fails. */
  lemma FaultlessPassCompletes(objs: Objects, kind: Kind, store: Store, f: Faults)
    requires NoDeletes(store.latest, kind)
    requires f.get == {} && f.create == {} && f.patch == {}
    requires forall n <- objs :: !objs[n].terminating
    ensures Completes(objs, kind, store, f)
  {
    hide Settled, Without;
    var items := OfKind(store.latest, kind);
    OfKindMembers(store.latest, kind);
    var without := Without(objs, Storage.Deletions(store.previous, store.latest), kind, f);
    forall i | 0 <= i < |items| ensures PassesAt(without, items, i, kind, store, f) {
      SomeAt(objs, kind, store, f, i, items[i].name);
      PassAt(objs, kind, store, f, items[i].name);
      FindMembers(store.latest, kind, items[i].name);
    }
  }

  // ----- Convergence ---------------------------------------------------------------------------------

  /** A version as the operator builds it: no deletions, the generation's hash on every object, and
      no object under the name of the store's own Secret. */
  ghost predicate Stamped(items: seq<Resource>, kind: Kind, hash: Option<string>, owner: string) {
    && NoDeletes(items, kind)
    && (forall r <- items :: r.kind == kind ==> r.spec.value.hash == hash && !IsStoreSecret(kind, r.name, owner))
  }

  /** The object a version asks for under a name. */
  function ObjectOf(items: seq<Resource>, kind: Kind, n: string): Option<Object> {
    match Find(items, kind, n)
    case Some(r) => if r.IsDelete() then None else Some(Object(r.spec.value, false))
    case None => None
  }

  /** An object that carries the hash of a version, under a name of it, is the object this version wants. */
  ghost predicate Recognised(objs: Objects, items: seq<Resource>, kind: Kind, hash: Option<string>) {
    forall n :: Listed(items, kind, n) && UpToDate(objs, n, hash) ==> AtObj(objs, n) == ObjectOf(items, kind, n)
  }

  /** Under the names of either version of the store, the cluster has exactly the latest version's, each
      with the store's hash. */
  ghost predicate Matches(objs: Objects, store: Store, kind: Kind) {
    forall n :: Listed(store.previous, kind, n) || Listed(store.latest, kind, n) ==> MatchesAt(objs, store, kind, n)
  }

  predicate MatchesAt(objs: Objects, store: Store, kind: Kind, n: string) {
    if Listed(store.latest, kind, n) then UpToDate(objs, n, store.hash) else n !in objs
  }

  /** Under the names of either version of the store, the cluster holds exactly the latest one. */
  ghost predicate Mirrors(objs: Objects, store: Store, kind: Kind) {
    forall n :: Listed(store.previous, kind, n) || Listed(store.latest, kind, n) ==>
                  AtObj(objs, n) == ObjectOf(store.latest, kind, n)
  }

  lemma StampedFind(items: seq<Resource>, kind: Kind, hash: Option<string>, owner: string, n: string)
    requires Stamped(items, kind, hash, owner) && Listed(items, kind, n)
    ensures ObjectOf(items, kind, n).Some? && ObjectOf(items, kind, n).value.spec.hash == hash
    ensures !ObjectOf(items, kind, n).value.terminating
    ensures !IsStoreSecret(kind, n, owner)
  {
    FindMembers(items, kind, n);
  }

  /** What a complete pass leaves. Under a name of the latest version: an object that is not terminating
      and carries the hash as it is, whatever it contains, and otherwise what the version wants. Under
      any other name: nothing, if the previous version had it and it can be read and deleted, and
      otherwise what was there. */
  lemma PassLeaves(objs: Objects, kind: Kind, store: Store, f: Faults, n: string)
    requires Stamped(store.latest, kind, store.hash, store.owner)
    ensures AtObj(AfterPass(objs, kind, store, f), n) ==
              if Find(store.latest, kind, n).Some?
              then (if n in objs && !objs[n].terminating && objs[n].spec.hash == store.hash then Some(objs[n])
                    else ObjectOf(store.latest, kind, n))
              else (if Find(store.previous, kind, n).Some? && n !in f.get && n !in f.delete then None
                    else AtObj(objs, n))
    ensures Listed(store.latest, kind, n) ==> UpToDate(AfterPass(objs, kind, store, f), n, store.hash)
  {
    assert NoDeletes(store.latest, kind);
    PassAt(objs, kind, store, f, n);
    hide AfterPass, NoDeletes;
    if Listed(store.latest, kind, n) {
      StampedFind(store.latest, kind, store.hash, store.owner, n);
    }
  }

  /** The deletions that the change of version calls for all take effect. */
  ghost predicate DeletionsWork(objs: Objects, kind: Kind, store: Store, f: Faults) {
    forall n :: Gone(store, kind, n) && n in objs ==> DeleteWorks(n, f)
  }

  /** One complete pass makes names and hashes match the latest version exactly when each deletion that
      the change of version calls for takes effect, whatever else is in the namespace; and the contents
      too exactly if, besides, the objects that carried the hash already were what it stands for. */
  lemma PassConverges(objs: Objects, kind: Kind, store: Store, f: Faults)
    requires Stamped(store.latest, kind, store.hash, store.owner)
    ensures Matches(AfterPass(objs, kind, store, f), store, kind) <==> DeletionsWork(objs, kind, store, f)
    ensures Mirrors(AfterPass(objs, kind, store, f), store, kind) <==>
              DeletionsWork(objs, kind, store, f) && Recognised(objs, store.latest, kind, store.hash)
  {
    hide AfterPass, Stamped;
    var after := AfterPass(objs, kind, store, f);
    forall n | Listed(store.previous, kind, n) || Listed(store.latest, kind, n)
      ensures MatchesAt(after, store, kind, n) <==> (Gone(store, kind, n) && n in objs ==> DeleteWorks(n, f))
      ensures AtObj(after, n) == ObjectOf(store.latest, kind, n) <==>
              && (Gone(store, kind, n) && n in objs ==> DeleteWorks(n, f))
              && (Listed(store.latest, kind, n) && UpToDate(objs, n, store.hash) ==>
                    AtObj(objs, n) == ObjectOf(store.latest, kind, n))
    {
      PassLeaves(objs, kind, store, f, n);
    }
  }

  /** The store when the same version has been stored once more, as every reconcile of a Coherence
      resource does before its pass. */
  function StoredAgain(store: Store): Store {
    store.(previous := store.latest)
  }

  /** A pass writes nothing exactly if names and hashes match already; and then it writes nothing either
      when the same version has been stored once more. */
  lemma MatchIsQuiet(objs: Objects, kind: Kind, store: Store)
    requires Stamped(store.latest, kind, store.hash, store.owner)
    ensures Quiet(objs, kind, store) <==> Matches(objs, store, kind)
    ensures Matches(objs, store, kind) ==> Quiet(objs, kind, StoredAgain(store))
  {
    QuietIsMatch(objs, kind, store);
    QuietIsMatch(objs, kind, StoredAgain(store));
    assert Matches(objs, store, kind) ==> Matches(objs, StoredAgain(store), kind) by {
      assert forall n :: MatchesAt(objs, StoredAgain(store), kind, n) == MatchesAt(objs, store, kind, n);
    }
  }

  lemma QuietIsMatch(objs: Objects, kind: Kind, store: Store)
    requires Stamped(store.latest, kind, store.hash, store.owner)
    ensures Quiet(objs, kind, store) <==> Matches(objs, store, kind)
  {
    if Matches(objs, store, kind) {
      MatchMakesQuiet(objs, kind, store);
    }
    if Quiet(objs, kind, store) {
      QuietMakesMatch(objs, kind, store);
    }
  }

  lemma MatchMakesQuiet(objs: Objects, kind: Kind, store: Store)
    requires Matches(objs, store, kind) && NoDeletes(store.latest, kind)
    ensures Quiet(objs, kind, store)
  {
    Storage.DeletionMembers(store.previous, store.latest);
    OfKindMembers(store.latest, kind);
    forall r | r in Storage.Deletions(store.previous, store.latest) && r.kind == kind ensures r.name !in objs {
      FindMembers(store.previous, kind, r.name);
      assert MatchesAt(objs, store, kind, r.name);
    }
    forall r | r in OfKind(store.latest, kind) ensures SettledAlready(objs, r, kind, store) {
      FindMembers(store.latest, kind, r.name);
      assert MatchesAt(objs, store, kind, r.name);
    }
  }

  lemma QuietMakesMatch(objs: Objects, kind: Kind, store: Store)
    requires Quiet(objs, kind, store) && Stamped(store.latest, kind, store.hash, store.owner)
    ensures Matches(objs, store, kind)
  {
    Storage.DeletionMembers(store.previous, store.latest);
    OfKindMembers(store.latest, kind);
    forall n | Listed(store.previous, kind, n) || Listed(store.latest, kind, n)
      ensures MatchesAt(objs, store, kind, n)
    {
      FindMembers(store.latest, kind, n);
      FindMembers(store.previous, kind, n);
      if Listed(store.latest, kind, n) {
        StampedFind(store.latest, kind, store.hash, store.owner, n);
        assert SettledAlready(objs, Find(store.latest, kind, n).value, kind, store);
      } else {
        assert Find(store.previous, kind, n).value in Storage.Deletions(store.previous, store.latest);
      }
    }
  }

  // ----- Whole runs ------------------------------------------------------------------------------------

  /** One attempt to reconcile the owner: what is stored for it, its hash, the faults of its pass, and
      how many entries of the kind the pass gets through before an error ends it. */
  datatype Attempt = Attempt(items: seq<Resource>, hash: Option<string>, faults: Faults, k: nat)

  /** What writes to the cluster: an attempt, or the handling of a watch event between two attempts. */
  datatype Step = Reconcile(a: Attempt) | Watch(name: string, owning: Owning, f: Faults)

  /** The store and the objects between two steps. */
  datatype World = World(store: Store, objs: Objects)

  /** Every attempt begins with `Store`, which makes the latest version the previous one. */
  function Rotated(store: Store, a: Attempt): Store {
    Store(a.items, store.latest, a.hash, store.owner)
  }

  function Next(w: World, kind: Kind, s: Step): World {
    match s
    case Reconcile(a) =>
      var store := Rotated(w.store, a);
      World(store, AfterSome(w.objs, kind, store, a.faults, a.k))
    case Watch(name, owning, f) => w.(objs := Watched(w.objs, kind, name, owning, f))
  }

  function Run(w: World, kind: Kind, run: seq<Step>): World {
    if run == [] then w else Next(Run(w, kind, run[..|run| - 1]), kind, run[|run| - 1])
  }

  predicate Complete(a: Attempt, kind: Kind) {
    a.k >= |OfKind(a.items, kind)|
  }

  /** Every version of the run is as the operator builds it. */
  ghost predicate AllStamped(w: World, kind: Kind, run: seq<Step>) {
    forall s <- run :: s.Reconcile? ==> Stamped(s.a.items, kind, s.a.hash, w.store.owner)
  }

  predicate Lists(s: Step, kind: Kind, n: string) {
    s.Reconcile? && Listed(s.a.items, kind, n)
  }

  /** Some version of the run lists the name. */
  ghost predicate Named(w: World, kind: Kind, run: seq<Step>, n: string) {
    Listed(w.store.latest, kind, n) || exists s :: s in run && Lists(s, kind, n)
  }

  /** The event finds the object without an owner reference, and deletes it. */
  predicate Removes(w: World, s: Step, n: string) {
    && s.Watch? && s.name == n && s.owning.Unowned?
    && n in w.objs && !w.objs[n].terminating && DeleteWorks(n, s.f)
  }

  predicate RemovesAt(w: World, kind: Kind, run: seq<Step>, j: nat, n: string)
    requires j < |run|
  {
    Removes(Run(w, kind, run[..j]), run[j], n)
  }

  /** The attempt should have deleted the object but did not. */
  predicate Misses(w: World, kind: Kind, s: Step, n: string) {
    s.Reconcile? && Gone(Rotated(w.store, s.a), kind, n) && n in w.objs && !DeleteWorks(n, s.a.faults)
  }

  /** The step at `i` missed the deletion, and since then no version has listed the name again and no
      event has removed the object. */
  ghost predicate Missed(w: World, kind: Kind, run: seq<Step>, i: nat, n: string)
    requires i < |run|
  {
    && Misses(Run(w, kind, run[..i]), kind, run[i], n)
    && forall j :: i < j < |run| ==> LeavesAt(w, kind, run, j, n)
  }

  predicate LeavesAt(w: World, kind: Kind, run: seq<Step>, j: nat, n: string)
    requires j < |run|
  {
    !Lists(run[j], kind, n) && !RemovesAt(w, kind, run, j, n)
  }

  ghost predicate SomeMissed(w: World, kind: Kind, run: seq<Step>, n: string) {
    exists i :: 0 <= i < |run| && Missed(w, kind, run, i, n)
  }

  /** Where an attempt leaves a name: gone, as it was, or as its version wants it. */
  lemma AttemptAt(w: World, kind: Kind, a: Attempt, n: string)
    requires NoDeletes(a.items, kind)
    ensures var got, was := AtObj(Next(w, kind, Reconcile(a)).objs, n), AtObj(w.objs, n);
            if !Listed(a.items, kind, n) then
              got == if Listed(w.store.latest, kind, n) && DeleteWorks(n, a.faults) then None else was
            else got == was || got == ObjectOf(a.items, kind, n)
  {
    var store := Rotated(w.store, a);
    SomeAt(w.objs, kind, store, a.faults, a.k, n);
    PassAt(w.objs, kind, store, a.faults, n);
    hide AfterSome, AfterPass;
    if Listed(a.items, kind, n) {
      FindMembers(a.items, kind, n);
    }
  }

  /** Where an event leaves a name: it deletes an object exactly if that has no owner reference, and
      otherwise at most makes it what the latest version of its own owner wants. */
  lemma WatchAt(objs: Objects, kind: Kind, name: string, owning: Owning, f: Faults, n: string)
    ensures var got, was := AtObj(Watched(objs, kind, name, owning, f), n), AtObj(objs, n);
            && (n in objs && got == None <==>
                && n == name && owning.Unowned? && n in objs && !objs[n].terminating
                && n !in f.get && n !in f.delete)
            && (n !in objs ==> got == None)
            && (got != was && got != None ==>
                  n == name && owning.Owned? && got == ObjectOf(owning.store.latest, kind, n))
  {
  }

  /** What a step does to a name that it does not list. */
  lemma UnlistedAt(w: World, kind: Kind, s: Step, n: string)
    requires s.Reconcile? ==> NoDeletes(s.a.items, kind)
    requires !Lists(s, kind, n)
    ensures n in Next(w, kind, s).objs <==>
              && n in w.objs && !Removes(w, s, n)
              && !(s.Reconcile? && Listed(w.store.latest, kind, n) && DeleteWorks(n, s.a.faults))
  {
    match s
    case Reconcile(a) => AttemptAt(w, kind, a, n);
    case Watch(name, owning, f) => WatchAt(w.objs, kind, name, owning, f, n);
  }

  lemma {:induction false} RunOwner(w: World, kind: Kind, run: seq<Step>)
    ensures Run(w, kind, run).store.owner == w.store.owner
  {
    if run != [] {
      RunOwner(w, kind, run[..|run| - 1]);
    }
  }

  lemma RunSnoc(w: World, kind: Kind, before: seq<Step>, s: Step)
    ensures Run(w, kind, before + [s]) == Next(Run(w, kind, before), kind, s)
  {
    assert (before + [s])[..|before|] == before;
  }

  /** A name that the latest version does not list is taken exactly if its deletion was missed. */
  lemma {:induction false} StraysWereMissed(w: World, kind: Kind, run: seq<Step>, n: string)
    requires forall s <- run :: s.Reconcile? ==> NoDeletes(s.a.items, kind)
    requires Named(w, kind, run, n) && !Listed(Run(w, kind, run).store.latest, kind, n)
    ensures n in Run(w, kind, run).objs <==> SomeMissed(w, kind, run, n)
  {
    if run != [] {
      var before, s := run[..|run| - 1], run[|run| - 1];
      var w1 := Run(w, kind, before);
      assert run == before + [s] && s in run;
      RunSnoc(w, kind, before, s);
      UnlistedAt(w1, kind, s, n);
      MissedInLonger(w, kind, before, s, n);
      hide Run, SomeMissed, Listed;
      if Listed(w1.store.latest, kind, n) {
        NoneMissedYet(w, kind, before, n);
      } else {
        StraysWereMissed(w, kind, before, n);
      }
    }
  }

  /** A name of the latest version is not missed. */
  lemma {:induction false} NoneMissedYet(w: World, kind: Kind, run: seq<Step>, n: string)
    requires Listed(Run(w, kind, run).store.latest, kind, n)
    ensures !SomeMissed(w, kind, run, n)
  {
    if run != [] {
      var before, s := run[..|run| - 1], run[|run| - 1];
      assert run == before + [s];
      RunSnoc(w, kind, before, s);
      MissedInLonger(w, kind, before, s, n);
      hide Run, SomeMissed, Listed;
      if s.Watch? {
        NoneMissedYet(w, kind, before, n);
      }
    }
  }

  /** What one more step means for missed deletions. */
  lemma MissedInLonger(w: World, kind: Kind, before: seq<Step>, s: Step, n: string)
    ensures var w1 := Run(w, kind, before);
            SomeMissed(w, kind, before + [s], n) <==>
            || (SomeMissed(w, kind, before, n) && !Lists(s, kind, n) && !Removes(w1, s, n))
            || Misses(w1, kind, s, n)
  {
    var run := before + [s];
    assert run[..|before|] == before;
    assert Missed(w, kind, run, |before|, n) <==> Misses(Run(w, kind, before), kind, s, n);
    forall i | 0 <= i < |before|
      ensures Missed(w, kind, run, i, n) <==>
                Missed(w, kind, before, i, n) && !Lists(s, kind, n) && !Removes(Run(w, kind, before), s, n)
    {
      MissedLonger(w, kind, before, s, i, n);
    }
  }

  lemma MissedLonger(w: World, kind: Kind, before: seq<Step>, s: Step, i: nat, n: string)
    requires i < |before|
    ensures Missed(w, kind, before + [s], i, n) <==>
              Missed(w, kind, before, i, n) && !Lists(s, kind, n) && !Removes(Run(w, kind, before), s, n)
  {
    hide LeavesAt, Run, Misses, Lists, Removes;
    var run := before + [s];
    assert run[..i] == before[..i] && run[i] == before[i];
    forall j | i < j < |run|
      ensures LeavesAt(w, kind, run, j, n) <==>
                if j < |before| then LeavesAt(w, kind, before, j, n)
                else !Lists(s, kind, n) && !Removes(Run(w, kind, before), s, n)
    {
      LeavesInLonger(w, kind, before, s, j, n);
    }
    assert LeavesAt(w, kind, run, |before|, n) <==> !Lists(s, kind, n) && !Removes(Run(w, kind, before), s, n);
  }

  lemma LeavesInLonger(w: World, kind: Kind, before: seq<Step>, s: Step, j: nat, n: string)
    requires j <= |before|
    ensures LeavesAt(w, kind, before + [s], j, n) <==>
              if j < |before| then LeavesAt(w, kind, before, j, n)
              else !Lists(s, kind, n) && !Removes(Run(w, kind, before), s, n)
  {
    assert (before + [s])[..j] == before[..j] && before[..|before|] == before;
  }

  // ----- Where a run ends ------------------------------------------------------------------------------

  /** Under the names of the run, the cluster has exactly those of the latest version, with its hash. */
  ghost predicate Settles(w: World, kind: Kind, run: seq<Step>) {
    var end := Run(w, kind, run);
    forall n :: Named(w, kind, run, n) ==> MatchesAt(end.objs, end.store, kind, n)
  }

  /** And their contents are what the latest version wants. */
  ghost predicate Converged(w: World, kind: Kind, run: seq<Step>) {
    var end := Run(w, kind, run);
    forall n :: Named(w, kind, run, n) ==> AtObj(end.objs, n) == ObjectOf(end.store.latest, kind, n)
  }

  /** Any run of attempts, each cut short anywhere, with watch events between them, from any start, the
      last attempt complete, ends with exactly the names of the last version, all with its hash, if and
      only if no deletion was missed. */
  lemma RunSettles(w: World, kind: Kind, before: seq<Step>, a: Attempt)
    requires AllStamped(w, kind, before + [Reconcile(a)]) && Complete(a, kind)
    ensures Settles(w, kind, before + [Reconcile(a)]) <==>
              !exists n :: SomeMissed(w, kind, before + [Reconcile(a)], n)
  {
    var run := before + [Reconcile(a)];
    var end := Run(w, kind, run);
    forall n | Named(w, kind, run, n)
      ensures MatchesAt(end.objs, end.store, kind, n) <==> !SomeMissed(w, kind, run, n)
    {
      EndAt(w, kind, before, a, n);
    }
    forall n | SomeMissed(w, kind, run, n) ensures Named(w, kind, run, n) {
      MissedIsNamed(w, kind, run, n);
    }
  }

  /** The end of such a run under one name of it. */
  lemma EndAt(w: World, kind: Kind, before: seq<Step>, a: Attempt, n: string)
    requires AllStamped(w, kind, before + [Reconcile(a)]) && Complete(a, kind)
    requires Named(w, kind, before + [Reconcile(a)], n)
    ensures var run := before + [Reconcile(a)];
            var end, w1 := Run(w, kind, run), Run(w, kind, before);
            && (end.store.latest, end.store.hash) == (a.items, a.hash)
            && (MatchesAt(end.objs, end.store, kind, n) <==> !SomeMissed(w, kind, run, n))
            && (Listed(a.items, kind, n) ==>
                  && !SomeMissed(w, kind, run, n)
                  && AtObj(end.objs, n) ==
                     (if UpToDate(w1.objs, n, a.hash) then AtObj(w1.objs, n) else ObjectOf(a.items, kind, n)))
            && (!Listed(a.items, kind, n) ==> (n in end.objs <==> SomeMissed(w, kind, run, n)))
  {
    var run, w1 := before + [Reconcile(a)], Run(w, kind, before);
    assert Reconcile(a) in run;
    RunSnoc(w, kind, before, Reconcile(a));
    RunOwner(w, kind, before);
    forall s | s in run && s.Reconcile? ensures NoDeletes(s.a.items, kind) {
      assert Stamped(s.a.items, kind, s.a.hash, w.store.owner);
    }
    PassLeaves(w1.objs, kind, Rotated(w1.store, a), a.faults, n);
    hide SomeMissed, Named, Stamped, NoDeletes, Listed;
    if Listed(a.items, kind, n) {
      NoneMissedYet(w, kind, run, n);
    } else {
      StraysWereMissed(w, kind, run, n);
    }
  }

  lemma {:induction false} MissedIsNamed(w: World, kind: Kind, run: seq<Step>, n: string)
    requires SomeMissed(w, kind, run, n)
    ensures Named(w, kind, run, n)
  {
    if run != [] {
      var before, s := run[..|run| - 1], run[|run| - 1];
      assert run == before + [s];
      MissedInLonger(w, kind, before, s, n);
      if SomeMissed(w, kind, before, n) {
        MissedIsNamed(w, kind, before, n);
      } else {
        LatestIsNamed(w, kind, before, n);
      }
    }
  }

  lemma {:induction false} LatestIsNamed(w: World, kind: Kind, run: seq<Step>, n: string)
    requires Listed(Run(w, kind, run).store.latest, kind, n)
    ensures Named(w, kind, run, n)
  {
    if run != [] {
      var before, s := run[..|run| - 1], run[|run| - 1];
      assert run == before + [s] && s in run;
      if s.Watch? {
        LatestIsNamed(w, kind, before, n);
      } else {
        assert Lists(s, kind, n);
      }
    }
  }

  /** The contents are those of the last version as well exactly if, besides, each object that carried
      its hash before the last attempt was what this version wants. */
  lemma ContentsConverge(w: World, kind: Kind, before: seq<Step>, a: Attempt)
    requires AllStamped(w, kind, before + [Reconcile(a)]) && Complete(a, kind)
    ensures Converged(w, kind, before + [Reconcile(a)]) <==>
              && (!exists n :: SomeMissed(w, kind, before + [Reconcile(a)], n))
              && Recognised(Run(w, kind, before).objs, a.items, kind, a.hash)
  {
    var run, w1 := before + [Reconcile(a)], Run(w, kind, before);
    var end := Run(w, kind, run);
    assert Reconcile(a) in run;
    RunSnoc(w, kind, before, Reconcile(a));
    forall n | Named(w, kind, run, n)
      ensures AtObj(end.objs, n) == ObjectOf(a.items, kind, n) <==>
              && !SomeMissed(w, kind, run, n)
              && (Listed(a.items, kind, n) && UpToDate(w1.objs, n, a.hash) ==>
                    AtObj(w1.objs, n) == ObjectOf(a.items, kind, n))
    {
      EndAt(w, kind, before, a, n);
    }
    forall n | SomeMissed(w, kind, run, n) ensures Named(w, kind, run, n) {
      MissedIsNamed(w, kind, run, n);
    }
    forall n | Listed(a.items, kind, n) ensures Named(w, kind, run, n) {
      assert Lists(Reconcile(a), kind, n);
    }
  }

  /** After a run that settled, reconciling its last version again writes nothing. */
  lemma SettledIsQuiet(w: World, kind: Kind, before: seq<Step>, a: Attempt)
    requires AllStamped(w, kind, before + [Reconcile(a)]) && Settles(w, kind, before + [Reconcile(a)])
    ensures var end := Run(w, kind, before + [Reconcile(a)]);
            Quiet(end.objs, kind, end.store) && Quiet(end.objs, kind, StoredAgain(end.store))
  {
    var run := before + [Reconcile(a)];
    var end := Run(w, kind, run);
    assert Reconcile(a) in run;
    RunSnoc(w, kind, before, Reconcile(a));
    RunOwner(w, kind, before);
    forall n | Listed(end.store.previous, kind, n) || Listed(end.store.latest, kind, n)
      ensures MatchesAt(end.objs, end.store, kind, n)
    {
      if Listed(end.store.latest, kind, n) {
        assert Lists(Reconcile(a), kind, n);
      } else {
        LatestIsNamed(w, kind, before, n);
      }
      assert Named(w, kind, run, n);
    }
    MatchIsQuiet(end.objs, kind, end.store);
  }

  /** Nor does the handling of an event about one of the owner's own objects. */
  lemma OwnEventsAreQuiet(objs: Objects, kind: Kind, store: Store, name: string, f: Faults)
    requires Matches(objs, store, kind)
    ensures Watched(objs, kind, name, Owned(store), f) == objs
  {
    assert Listed(store.latest, kind, name) ==> MatchesAt(objs, store, kind, name);
  }

  // ----- When hashes can be trusted ----------------------------------------------------------------------

  /** Two versions with one hash want the same under each name they share. */
  ghost predicate HashTells(x: seq<Resource>, hash: Option<string>, y: seq<Resource>, other: Option<string>,
                            kind: Kind) {
    hash == other ==>
      forall n :: Listed(x, kind, n) && Listed(y, kind, n) ==> ObjectOf(x, kind, n) == ObjectOf(y, kind, n)
  }

  /** What the step may write never passes for an object of the version that it is not. */
  ghost predicate Tells(s: Step, items: seq<Resource>, hash: Option<string>, kind: Kind) {
    match s
    case Reconcile(a) => HashTells(a.items, a.hash, items, hash, kind)
    case Watch(_, owning, _) =>
      owning.Owned? ==>
        && Stamped(owning.store.latest, kind, owning.store.hash, owning.store.owner)
        && HashTells(owning.store.latest, owning.store.hash, items, hash, kind)
  }

  lemma RecognisedNext(w: World, kind: Kind, s: Step, items: seq<Resource>, hash: Option<string>, owner: string)
    requires s.Reconcile? ==> Stamped(s.a.items, kind, s.a.hash, owner)
    requires Tells(s, items, hash, kind) && Recognised(w.objs, items, kind, hash)
    ensures Recognised(Next(w, kind, s).objs, items, kind, hash)
  {
    assert s.Reconcile? ==> NoDeletes(s.a.items, kind);
    hide Next, NoDeletes;
    forall n | Listed(items, kind, n) && UpToDate(Next(w, kind, s).objs, n, hash)
      ensures AtObj(Next(w, kind, s).objs, n) == ObjectOf(items, kind, n)
    {
      RecognisedNextAt(w, kind, s, items, hash, owner, n);
    }
  }

  lemma RecognisedNextAt(w: World, kind: Kind, s: Step, items: seq<Resource>, hash: Option<string>, owner: string,
        n: string)
    requires s.Reconcile? ==> Stamped(s.a.items, kind, s.a.hash, owner)
    requires Tells(s, items, hash, kind) && Recognised(w.objs, items, kind, hash)
    requires Listed(items, kind, n) && UpToDate(Next(w, kind, s).objs, n, hash)
    ensures AtObj(Next(w, kind, s).objs, n) == ObjectOf(items, kind, n)
  {
    match s
    case Reconcile(a) =>
      assert NoDeletes(a.items, kind);
      AttemptAt(w, kind, a, n);
      hide Next, NoDeletes;
      if Listed(a.items, kind, n) {
        StampedFind(a.items, kind, a.hash, owner, n);
      }
    case Watch(name, owning, f) =>
      WatchAt(w.objs, kind, name, owning, f, n);
      assert Next(w, kind, s).objs == Watched(w.objs, kind, name, owning, f);
      hide Next, Watched;
      if AtObj(Watched(w.objs, kind, name, owning, f), n) != AtObj(w.objs, n) {
        assert Listed(owning.store.latest, kind, n);
        StampedFind(owning.store.latest, kind, owning.store.hash, owning.store.owner, n);
      }
  }

  lemma {:induction false} RunRecognised(w: World, kind: Kind, run: seq<Step>, items: seq<Resource>,
        hash: Option<string>)
    requires AllStamped(w, kind, run) && forall s <- run :: Tells(s, items, hash, kind)
    requires Recognised(w.objs, items, kind, hash)
    ensures Recognised(Run(w, kind, run).objs, items, kind, hash)
  {
    if run != [] {
      var before, s := run[..|run| - 1], run[|run| - 1];
      assert s in run;
      RunRecognised(w, kind, before, items, hash);
      RecognisedNext(Run(w, kind, before), kind, s, items, hash, w.store.owner);
    }
  }

  /** So where equal hashes mean equal contents, at the start and in what the steps write, such a run
      ends with exactly the objects of the last version, if and only if no deletion was missed. */
  lemma RunConverges(w: World, kind: Kind, before: seq<Step>, a: Attempt)
    requires AllStamped(w, kind, before + [Reconcile(a)]) && Complete(a, kind)
    requires Recognised(w.objs, a.items, kind, a.hash)
    requires forall s <- before :: Tells(s, a.items, a.hash, kind)
    ensures Converged(w, kind, before + [Reconcile(a)]) <==>
              !exists n :: SomeMissed(w, kind, before + [Reconcile(a)], n)
  {
    assert forall s <- before :: s in before + [Reconcile(a)];
    RunRecognised(w, kind, before, a.items, a.hash);
    ContentsConverge(w, kind, before, a);
  }

  /** An object that someone has edited keeps its hash label, and with it the edit. */
  lemma DriftStays() returns (w: World, a: Attempt)
    ensures AllStamped(w, ConfigMap, [Reconcile(a)]) && Complete(a, ConfigMap) && a.faults == NO_FAULTS
    ensures Settles(w, ConfigMap, [Reconcile(a)]) && !Converged(w, ConfigMap, [Reconcile(a)])
  {
    var items := [Resource(ConfigMap, "c", Some(Spec(Some("1"), "wanted")))];
    w := World(Store([], [], None, "owner"), map["c" := Object(Spec(Some("1"), "edited"), false)]);
    a := Attempt(items, Some("1"), NO_FAULTS, 1);
    assert [] + [Reconcile(a)] == [Reconcile(a)];
    assert OfKind(items, ConfigMap) == items;
    assert Listed(items, ConfigMap, "c") && UpToDate(w.objs, "c", a.hash);
    assert Run(w, ConfigMap, []) == w;
    ContentsConverge(w, ConfigMap, [], a);
    forall n ensures !SomeMissed(w, ConfigMap, [Reconcile(a)], n) {
      assert [Reconcile(a)][..0] == [];
      assert !Misses(w, ConfigMap, Reconcile(a), n);
    }
    RunSettles(w, ConfigMap, [], a);
  }

  /** A generation whose resources are built anew, as they are while the phase is not Ready, keeps its
      hash: what has changed in an object that is there already does not arrive. */
  lemma RegeneratedStays() returns (w: World, a: Attempt, b: Attempt)
    ensures AllStamped(w, ConfigMap, [Reconcile(a), Reconcile(b)]) && a.hash == b.hash && w.objs == map[]
    ensures Complete(a, ConfigMap) && Complete(b, ConfigMap) && a.faults == NO_FAULTS == b.faults
    ensures !Converged(w, ConfigMap, [Reconcile(a), Reconcile(b)])
    ensures AtObj(Run(w, ConfigMap, [Reconcile(a), Reconcile(b)]).objs, "c") == ObjectOf(a.items, ConfigMap, "c")
  {
    var was := [Resource(ConfigMap, "c", Some(Spec(Some("1"), "before")))];
    var now := [Resource(ConfigMap, "c", Some(Spec(Some("1"), "after")))];
    w := World(Store([], [], None, "owner"), map[]);
    a, b := Attempt(was, Some("1"), NO_FAULTS, 1), Attempt(now, Some("1"), NO_FAULTS, 1);
    assert OfKind(was, ConfigMap) == was && OfKind(now, ConfigMap) == now;
    assert [Reconcile(a)] + [Reconcile(b)] == [Reconcile(a), Reconcile(b)] && [] + [Reconcile(a)] == [Reconcile(a)];
    assert Lists(Reconcile(a), ConfigMap, "c") && Lists(Reconcile(b), ConfigMap, "c");
    assert Run(w, ConfigMap, []) == w;
    EndAt(w, ConfigMap, [], a, "c");
    EndAt(w, ConfigMap, [Reconcile(a)], b, "c");
    assert ObjectOf(was, ConfigMap, "c") != ObjectOf(now, ConfigMap, "c");
  }

  // ----- Retries ---------------------------------------------------------------------------------------

  /** A generation whose first attempt an error cut short is made good by any number of further attempts,
      the last of them complete, exactly if each deletion that the first one missed has been made by an
      event: `Store` has moved on by the second attempt, so no other one makes up for it. */
  lemma RetriesSettle(w: World, kind: Kind, first: Attempt, middle: seq<Step>, last: Attempt)
    requires forall s <- middle :: s.Reconcile? ==> s.a.items == first.items && s.a.hash == first.hash
    requires last.items == first.items && last.hash == first.hash && Complete(last, kind)
    requires Stamped(first.items, kind, first.hash, w.store.owner)
    ensures var run := [Reconcile(first)] + middle + [Reconcile(last)];
            Settles(w, kind, run) <==>
            forall n :: Misses(w, kind, Reconcile(first), n) ==>
                          exists j :: 0 < j < |run| && RemovesAt(w, kind, run, j, n)
  {
    var before := [Reconcile(first)] + middle;
    var run := before + [Reconcile(last)];
    RunSettles(w, kind, before, last);
    forall n ensures SomeMissed(w, kind, run, n) <==>
                       && Misses(w, kind, Reconcile(first), n)
                       && !exists j :: 0 < j < |run| && RemovesAt(w, kind, run, j, n)
    {
      OnlyTheFirstMisses(w, kind, first.items, run, n);
    }
  }

  /** The same for contents, where equal hashes mean equal contents. */
  lemma RetriesConverge(w: World, kind: Kind, first: Attempt, middle: seq<Step>, last: Attempt)
    requires forall s <- middle :: s.Reconcile? ==> s.a.items == first.items && s.a.hash == first.hash
    requires last.items == first.items && last.hash == first.hash && Complete(last, kind)
    requires Stamped(first.items, kind, first.hash, w.store.owner)
    requires Recognised(w.objs, first.items, kind, first.hash)
    requires forall s <- middle :: Tells(s, first.items, first.hash, kind)
    ensures var run := [Reconcile(first)] + middle + [Reconcile(last)];
            Converged(w, kind, run) <==>
            forall n :: Misses(w, kind, Reconcile(first), n) ==>
                          exists j :: 0 < j < |run| && RemovesAt(w, kind, run, j, n)
  {
    var before := [Reconcile(first)] + middle;
    RunConverges(w, kind, before, last);
    RunSettles(w, kind, before, last);
    RetriesSettle(w, kind, first, middle, last);
  }

  /** A run that opens with an attempt and stores one version over and over misses what that attempt
      misses. */
  lemma OnlyTheFirstMisses(w: World, kind: Kind, items: seq<Resource>, run: seq<Step>, n: string)
    requires run != [] && run[0].Reconcile? && forall s <- run :: s.Reconcile? ==> s.a.items == items
    ensures SomeMissed(w, kind, run, n) <==>
              && Misses(w, kind, run[0], n)
              && !exists j :: 0 < j < |run| && RemovesAt(w, kind, run, j, n)
  {
    assert run[..0] == [] && run[0] in run;
    forall i | 0 < i < |run| ensures !Missed(w, kind, run, i, n) {
      StoresOneVersion(w, kind, items, run[..i]);
      assert run[i] in run;
    }
    forall j | 0 < j < |run|
      ensures Misses(w, kind, run[0], n) ==> (LeavesAt(w, kind, run, j, n) <==> !RemovesAt(w, kind, run, j, n))
    {
      assert run[j] in run;
    }
    assert Missed(w, kind, run, 0, n) <==>
             Misses(w, kind, run[0], n) && !exists j :: 0 < j < |run| && RemovesAt(w, kind, run, j, n);
  }

  lemma {:induction false} StoresOneVersion(w: World, kind: Kind, items: seq<Resource>, run: seq<Step>)
    requires run != [] && run[0].Reconcile? && forall s <- run :: s.Reconcile? ==> s.a.items == items
    ensures Run(w, kind, run).store.latest == items
  {
    assert run[|run| - 1] in run;
    if |run| > 1 {
      StoresOneVersion(w, kind, items, run[..|run| - 1]);
    }
  }

  // ----- Names that no version lists ---------------------------------------------------------------------

  /** An event about an object of the name whose owner's latest version wants it. */
  predicate Rewrites(s: Step, kind: Kind, n: string) {
    s.Watch? && s.name == n && s.owning.Owned? && Listed(s.owning.store.latest, kind, n)
  }

  /** An object under a name that no version of the run lists, be it someone else's or one whose deletion
      was missed before, is there at the end exactly if it was at the start and no event has found it
      without an owner reference; and it is unchanged unless it belongs to another Coherence resource. */
  lemma {:induction false} UnlistedStay(w: World, kind: Kind, run: seq<Step>, n: string)
    requires !Listed(w.store.latest, kind, n)
    requires forall s <- run :: !Lists(s, kind, n) && (s.Reconcile? ==> NoDeletes(s.a.items, kind))
    ensures n in Run(w, kind, run).objs <==>
              n in w.objs && !exists j :: 0 <= j < |run| && RemovesAt(w, kind, run, j, n)
    ensures (forall s <- run :: !Rewrites(s, kind, n)) && n in Run(w, kind, run).objs ==>
              AtObj(Run(w, kind, run).objs, n) == AtObj(w.objs, n)
    ensures !Listed(Run(w, kind, run).store.latest, kind, n)
  {
    if run != [] {
      var before, s := run[..|run| - 1], run[|run| - 1];
      assert run == before + [s] && s in run;
      UnlistedStay(w, kind, before, n);
      RemovedInLonger(w, kind, before, s, n);
      var w1 := Run(w, kind, before);
      UnlistedAt(w1, kind, s, n);
      match s
      case Reconcile(a) => AttemptAt(w1, kind, a, n);
      case Watch(name, owning, f) => WatchAt(w1.objs, kind, name, owning, f, n);
    }
  }

  /** So a user's own object goes that no version lists, if it has the name of a Coherence resource. */
  lemma UsersObjectGoes() returns (w: World, s: Step)
    ensures "foo" in w.objs && !Listed(w.store.latest, Service, "foo") && s.Watch?
    ensures "foo" !in Run(w, Service, [s]).objs
  {
    w := World(Store([], [], None, "foo"), map["foo" := Object(Spec(None, "a user's own"), false)]);
    s := Watch("foo", Unowned, NO_FAULTS);
    assert [s][..0] == [];
    assert RemovesAt(w, Service, [s], 0, "foo");
    UnlistedStay(w, Service, [s], "foo");
  }

  lemma RemovedInLonger(w: World, kind: Kind, before: seq<Step>, s: Step, n: string)
    ensures var run := before + [s];
            (exists j :: 0 <= j < |run| && RemovesAt(w, kind, run, j, n)) <==>
            (exists j :: 0 <= j < |before| && RemovesAt(w, kind, before, j, n)) || Removes(Run(w, kind, before), s, n)
  {
    var run := before + [s];
    forall j | 0 <= j < |before| ensures RemovesAt(w, kind, run, j, n) == RemovesAt(w, kind, before, j, n) {
      assert run[..j] == before[..j];
    }
    assert run[..|before|] == before;
    assert RemovesAt(w, kind, run, |before|, n) == Removes(Run(w, kind, before), s, n);
  }

  // ----- Jobs ------------------------------------------------------------------------------------------

  /** A reconcile of a CoherenceJob, which does nothing if the store has the generation's hash. */
  function JobNext(w: World, kind: Kind, a: Attempt): World {
    if w.store.hash == a.hash then w else Next(w, kind, Reconcile(a))
  }

  function JobRun(w: World, kind: Kind, run: seq<Attempt>): World {
    if run == [] then w else JobNext(JobRun(w, kind, run[..|run| - 1]), kind, run[|run| - 1])
  }

  /** A generation of a job gets one attempt: however often it is reconciled, the cluster stays as the
      first attempt left it, complete or not. */
  lemma {:induction false} JobsGetOneAttempt(w: World, kind: Kind, first: Attempt, retries: seq<Attempt>)
    requires w.store.hash != first.hash
    requires forall r <- retries :: r.hash == first.hash
    ensures JobRun(w, kind, [first] + retries) == Next(w, kind, Reconcile(first))
  {
    var run := [first] + retries;
    if retries == [] {
      assert run[..0] == [] && run == [first];
    } else {
      var before := retries[..|retries| - 1];
      assert run[..|run| - 1] == [first] + before;
      assert run[|run| - 1] in retries;
      JobsGetOneAttempt(w, kind, first, before);
    }
  }
}
