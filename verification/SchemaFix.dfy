/** The CRD schema fix: `fix` walks a decoded YAML tree and supplies the empty-string default that
    Kubernetes demands of every optional string key of a list-map.

    The step at a node reads and writes three levels below it (items / properties / the listed
    property), so the steps of different nodes overlap. The central result, `Compose`, says that
    what a set of steps does depends on the set alone: the visiting order is irrelevant. */
module SchemaFix {

  /** Decoded YAML. `Scalar` is a number or boolean: its Go type and the text `fmt.Sprint` prints. */
  datatype Value =
    | Null
    | Str(s: string)
    | Scalar(goType: string, text: string)
    | List(items: seq<Value>)
    | Map(entries: map<string, Value>)

  type Entries = map<string, Value>

  const KEYS := "x-kubernetes-list-map-keys"
  const ITEMS := "items"
  const PROPERTIES := "properties"
  const REQUIRED := "required"
  const DEFAULT := "default"
  const TYPE := "type"

  lemma NamesDiffer()
    ensures KEYS != DEFAULT && ITEMS != DEFAULT && PROPERTIES != DEFAULT && REQUIRED != DEFAULT && TYPE != DEFAULT
    ensures ITEMS != PROPERTIES && ITEMS != KEYS && ITEMS != REQUIRED && PROPERTIES != KEYS && PROPERTIES != REQUIRED
  {
    assert KEYS[0] == 'x' && ITEMS[0] == 'i' && PROPERTIES[0] == 'p';
    assert REQUIRED[0] == 'r' && DEFAULT[0] == 'd' && TYPE[0] == 't';
  }

  // Go type assertions: the wrong dynamic type gives a nil map or slice.
  function SubMap(m: Entries, k: string): Entries {
    if k in m && m[k].Map? then m[k].entries else map[]
  }

  function SubList(m: Entries, k: string): seq<Value> {
    if k in m && m[k].List? then m[k].items else []
  }

  predicate IsAtom(v: Value) {
    v.Null? || v.Str? || v.Scalar?
  }

  function Sprint(v: Value): string {
    match v
    case Null => "<nil>"
    case Str(s) => s
    case Scalar(_, text) => text
    case _ => ""   // not reached: keys are atoms
  }

  /** No list-map key is itself a list or a map. Go's `==` panics on two of those. */
  predicate AtomicKeys(v: Value) {
    match v
    case Map(m) =>
      && (forall key <- SubList(m, KEYS) :: IsAtom(key))
      && (forall k <- m :: AtomicKeys(m[k]))
    case List(xs) => forall i :: 0 <= i < |xs| ==> AtomicKeys(xs[i])
    case _ => true
  }

  /** What `fix` asks of a property once it knows it is listed and not required. */
  predicate NeedsDefault(m: Entries) {
    && (DEFAULT in m ==> m[DEFAULT].Null?)
    && TYPE in m && m[TYPE] == Str("string")
  }

  // ----- What a set of visits does ------------------------------------------------------------

  datatype Step = Key(k: string) | Index(i: nat)
  type Path = seq<Step>

  function Under(step: Step, p: Path): Path {
    [step] + p
  }

  ghost function Below(s: iset<Path>, step: Step): iset<Path> {
    iset p: Path | Under(step, p) in s
  }

  /** What the visited ancestors of a node ask of it: the keys it must apply as the `items` of a
      list-map, the still unmet keys it must apply as its `properties`, and whether it is itself a
      listed property that is not required. */
  datatype Role = Role(itemsOf: set<Value>, propertiesOf: set<Value>, listed: bool) {
    function Union(r: Role): Role {
      Role(itemsOf + r.itemsOf, propertiesOf + r.propertiesOf, listed || r.listed)
    }
    predicate Atomic() {
      forall key <- itemsOf + propertiesOf :: IsAtom(key)
    }
  }

  const NO_ROLE := Role({}, {}, false)

  function Elements(keys: seq<Value>): set<Value> {
    set key <- keys
  }

  function KeySet(m: Entries): set<Value> {
    Elements(SubList(m, KEYS))
  }

  function Unmet(keys: set<Value>, m: Entries): set<Value> {
    set key <- keys | key !in SubList(m, REQUIRED)
  }

  /** The role of the entry `k` of a map `m` that has role `role` itself. */
  function ChildRole(role: Role, m: Entries, k: string, visited: bool): Role {
    Role(if visited && k == ITEMS then KeySet(m) else {},
         if k == PROPERTIES then Unmet(role.itemsOf, m) else {},
         exists key <- role.propertiesOf :: Sprint(key) == k)
  }

  /** The tree after the steps at the paths of `visits`, in a place where `role` is asked of it.
      One pass from the original tree: no step sees what another one wrote. */
  ghost function Meant(v: Value, role: Role, visits: iset<Path>): Value
    decreases v
  {
    match v
    case Map(m) =>
      var m' := map k | k in m :: Meant(m[k], ChildRole(role, m, k, [] in visits), Below(visits, Key(k)));
      Map(if role.listed && NeedsDefault(m) then m'[DEFAULT := Str("")] else m')
    case List(xs) =>
      List(seq(|xs|, i requires 0 <= i < |xs| => Meant(xs[i], NO_ROLE, Below(visits, Index(i)))))
    case _ => v
  }

  ghost function After(m: Entries, role: Role, visits: iset<Path>): Entries {
    Meant(Map(m), role, visits).entries
  }

  ghost function FixAt(v: Value, visits: iset<Path>): Value {
    Meant(v, NO_ROLE, visits)
  }

  ghost function AllPaths(): iset<Path> {
    iset p: Path | 0 <= |p|
  }

  // ----- Composition ------------------------------------------------------------------------------

  lemma SameAtoms(xs: seq<Value>, role: Role, visits: iset<Path>, key: Value)
    requires IsAtom(key)
    ensures key in Meant(List(xs), role, visits).items <==> key in xs
  {
    var xs' := Meant(List(xs), role, visits).items;
    forall i | 0 <= i < |xs| ensures xs[i] == key <==> xs'[i] == key {
      assert xs'[i] == Meant(xs[i], NO_ROLE, Below(visits, Index(i)));
    }
  }

  /** Steps keep every list of keys, and membership of any atom in a list of required names. */
  lemma ListsKept(m: Entries, role: Role, visits: iset<Path>, k: string, key: Value)
    requires IsAtom(key) && k in [KEYS, REQUIRED]
    ensures var m' := After(m, role, visits);
            key in SubList(m', k) <==> key in SubList(m, k)
  {
    var xs := SubList(m, k);
    NamesDiffer();
    EntriesAfter(m, role, visits);
    if k in m && m[k].List? {
      SameAtoms(xs, ChildRole(role, m, k, [] in visits), Below(visits, Key(k)), key);
    }
  }

  lemma KeySetKept(m: Entries, role: Role, visits: iset<Path>)
    requires AtomicKeys(Map(m))
    ensures KeySet(After(m, role, visits)) == KeySet(m)
  {
    NamesDiffer();
    EntriesAfter(m, role, visits);
    if KEYS in m && m[KEYS].List? {
      var role', visits' := ChildRole(role, m, KEYS, [] in visits), Below(visits, Key(KEYS));
      var xs := m[KEYS].items;
      assert forall i :: 0 <= i < |xs| ==> xs[i] in SubList(m, KEYS) && IsAtom(xs[i]);
      assert Meant(List(xs), role', visits').items == xs;
    }
  }

  lemma ChildRoleUnion(m: Entries, r1: Role, s: iset<Path>, r2: Role, t: iset<Path>, k: string)
    requires AtomicKeys(Map(m)) && r2.Atomic()
    ensures var m1 := After(m, r1, s);
            ChildRole(r1, m, k, [] in s).Union(ChildRole(r2, m1, k, [] in t))
            == ChildRole(r1.Union(r2), m, k, [] in s + t)
  {
    var m1 := After(m, r1, s);
    KeySetKept(m, r1, s);
    NamesDiffer();
    forall key | key in r2.itemsOf ensures key in SubList(m1, REQUIRED) <==> key in SubList(m, REQUIRED) {
      assert key in r2.itemsOf + r2.propertiesOf;
      ListsKept(m, r1, s, REQUIRED, key);
    }
    assert Unmet(r2.itemsOf, m1) == Unmet(r2.itemsOf, m);
    assert Unmet(r1.itemsOf, m) + Unmet(r2.itemsOf, m) == Unmet(r1.itemsOf + r2.itemsOf, m);
  }

  lemma ChildRoleAtomic(role: Role, m: Entries, k: string, visited: bool)
    requires role.Atomic() && (forall key <- SubList(m, KEYS) :: IsAtom(key))
    ensures ChildRole(role, m, k, visited).Atomic()
  {
    forall key | key in Unmet(role.itemsOf, m) ensures IsAtom(key) {
      assert key in role.itemsOf + role.propertiesOf;
    }
  }

  lemma BelowUnion(s: iset<Path>, t: iset<Path>, step: Step)
    ensures Below(s, step) + Below(t, step) == Below(s + t, step)
  {
  }

  /** Doing the steps of `s` and then those of `t` is doing the steps of `s + t`. */
  lemma {:induction false} ComposeInRoles(v: Value, r1: Role, s: iset<Path>, r2: Role, t: iset<Path>)
    requires AtomicKeys(v) && r1.Atomic() && r2.Atomic()
    ensures Meant(Meant(v, r1, s), r2, t) == Meant(v, r1.Union(r2), s + t)
    decreases v
  {
    match v
    case Map(m) => ComposeInMap(m, r1, s, r2, t);
    case List(xs) =>
      assert NO_ROLE.Union(NO_ROLE) == NO_ROLE;
      forall i | 0 <= i < |xs|
        ensures Meant(Meant(xs[i], NO_ROLE, Below(s, Index(i))), NO_ROLE, Below(t, Index(i)))
             == Meant(xs[i], NO_ROLE, Below(s + t, Index(i)))
      {
        ComposeInRoles(xs[i], NO_ROLE, Below(s, Index(i)), NO_ROLE, Below(t, Index(i)));
        BelowUnion(s, t, Index(i));
      }
      assert Meant(Meant(v, r1, s), r2, t).items == Meant(v, r1.Union(r2), s + t).items;
    case _ =>
  }

  /** The entry `k` of a map after the steps of `visits`. */
  ghost function EntryAfter(m: Entries, role: Role, visits: iset<Path>, k: string): Value
    requires k in m || (k == DEFAULT && role.listed && NeedsDefault(m))
  {
    if k == DEFAULT && role.listed && NeedsDefault(m) then Str("")
    else Meant(m[k], ChildRole(role, m, k, [] in visits), Below(visits, Key(k)))
  }

  lemma EntriesAfter(m: Entries, role: Role, visits: iset<Path>)
    ensures var m' := After(m, role, visits);
            && (forall k :: k in m' <==> k in m || (k == DEFAULT && role.listed && NeedsDefault(m)))
            && (forall k :: k in m' ==> m'[k] == EntryAfter(m, role, visits, k))
            && Meant(Map(m), role, visits) == Map(m')
  {
  }

  lemma {:induction false} ComposeInMap(m: Entries, r1: Role, s: iset<Path>, r2: Role, t: iset<Path>)
    requires AtomicKeys(Map(m)) && r1.Atomic() && r2.Atomic()
    ensures Meant(Meant(Map(m), r1, s), r2, t) == Meant(Map(m), r1.Union(r2), s + t)
    decreases Map(m), 0
  {
    hide Meant, After;
    var m1 := After(m, r1, s);
    var m2 := After(m1, r2, t);
    var both := After(m, r1.Union(r2), s + t);
    EntriesAfter(m, r1, s);
    EntriesAfter(m1, r2, t);
    EntriesAfter(m, r1.Union(r2), s + t);
    NeedsDefaultKept(m, r1, s);
    assert m2.Keys == both.Keys;
    forall k | k in both ensures m2[k] == both[k] {
      ComposeAtEntry(m, r1, s, r2, t, k);
    }
    assert m2 == both;
  }

  lemma {:induction false} ComposeAtEntry(m: Entries, r1: Role, s: iset<Path>, r2: Role, t: iset<Path>, k: string)
    requires AtomicKeys(Map(m)) && r1.Atomic() && r2.Atomic()
    requires k in m || (k == DEFAULT && (r1.listed || r2.listed) && NeedsDefault(m))
    ensures var m1 := After(m, r1, s);
            && (k in m1 || (k == DEFAULT && r2.listed && NeedsDefault(m1)))
            && EntryAfter(m1, r2, t, k) == EntryAfter(m, r1.Union(r2), s + t, k)
    decreases Map(m), 0, 0
  {
    var m1 := After(m, r1, s);
    NeedsDefaultKept(m, r1, s);
    if k in m && !(k == DEFAULT && NeedsDefault(m) && (r1.listed || r2.listed)) {
      var c1, c2 := ChildRole(r1, m, k, [] in s), ChildRole(r2, m1, k, [] in t);
      ChildRoleUnion(m, r1, s, r2, t, k);
      BelowUnion(s, t, Key(k));
      assert m1[k] == Meant(m[k], c1, Below(s, Key(k)));
      ChildRolesAtomic(m, r1, s, r2, t, k);
      ComposeInRoles(m[k], c1, Below(s, Key(k)), c2, Below(t, Key(k)));
    }
  }

  lemma ChildRolesAtomic(m: Entries, r1: Role, s: iset<Path>, r2: Role, t: iset<Path>, k: string)
    requires AtomicKeys(Map(m)) && r1.Atomic() && r2.Atomic()
    ensures ChildRole(r1, m, k, [] in s).Atomic()
    ensures ChildRole(r2, After(m, r1, s), k, [] in t).Atomic()
  {
    var m1 := After(m, r1, s);
    ChildRoleAtomic(r1, m, k, [] in s);
    KeySetKept(m, r1, s);
    forall key | key in SubList(m1, KEYS) ensures IsAtom(key) {
      assert key in KeySet(m1);
    }
    ChildRoleAtomic(r2, m1, k, [] in t);
  }

  /** A step changes what a property needs only by giving it its default. */
  lemma NeedsDefaultKept(m: Entries, role: Role, visits: iset<Path>)
    ensures var m' := After(m, role, visits);
            NeedsDefault(m') <==> NeedsDefault(m) && !role.listed
  {
    NamesDiffer();
    EntriesAfter(m, role, visits);
  }

  /** What the steps at the paths of `s` and then of `t` do depends on the union alone. */
  lemma Compose(v: Value, s: iset<Path>, t: iset<Path>)
    requires AtomicKeys(v)
    ensures FixAt(FixAt(v, s), t) == FixAt(v, s + t)
  {
    hide Meant;
    ComposeInRoles(v, NO_ROLE, s, NO_ROLE, t);
    assert NO_ROLE.Union(NO_ROLE) == NO_ROLE;
  }

  lemma {:induction false} NoVisits(v: Value)
    ensures FixAt(v, iset{}) == v
  {
    match v
    case Map(m) =>
      EntriesAfter(m, NO_ROLE, iset{});
      forall k | k in m ensures After(m, NO_ROLE, iset{})[k] == m[k] {
        assert Below(iset{}, Key(k)) == iset{};
        assert ChildRole(NO_ROLE, m, k, false) == NO_ROLE;
        NoVisits(m[k]);
      }
      assert After(m, NO_ROLE, iset{}) == m;
    case List(xs) =>
      forall i | 0 <= i < |xs| ensures Meant(xs[i], NO_ROLE, Below(iset{}, Index(i))) == xs[i] {
        assert Below(iset{}, Index(i)) == iset{};
        NoVisits(xs[i]);
      }
      assert FixAt(v, iset{}).items == xs;
    case _ =>
  }

  lemma {:induction false} AtomicKeysKept(v: Value, role: Role, visits: iset<Path>)
    requires AtomicKeys(v)
    ensures AtomicKeys(Meant(v, role, visits))
  {
    match v
    case Map(m) =>
      var m' := After(m, role, visits);
      EntriesAfter(m, role, visits);
      KeySetKept(m, role, visits);
      forall key | key in SubList(m', KEYS) ensures IsAtom(key) { assert key in KeySet(m'); }
      forall k | k in m' ensures AtomicKeys(m'[k]) {
        if m'[k] != Str("") {
          AtomicKeysKept(m[k], ChildRole(role, m, k, [] in visits), Below(visits, Key(k)));
        }
      }
    case List(xs) =>
      forall i | 0 <= i < |xs| {
        AtomicKeysKept(xs[i], NO_ROLE, Below(visits, Index(i)));
      }
    case _ =>
  }

  // ----- The order of the visits ------------------------------------------------------------------

  ghost function PathSet(visits: seq<Path>): iset<Path> {
    iset p: Path | p in visits
  }

  /** The tree after the steps at `visits`, one after the other. */
  ghost function Run(v: Value, visits: seq<Path>): Value {
    if visits == [] then v
    else FixAt(Run(v, visits[..|visits| - 1]), iset{visits[|visits| - 1]})
  }

  lemma {:induction false} RunIsOnePass(v: Value, visits: seq<Path>)
    requires AtomicKeys(v)
    ensures Run(v, visits) == FixAt(v, PathSet(visits))
  {
    if visits == [] {
      assert PathSet(visits) == iset{};
      NoVisits(v);
    } else {
      var before, last := visits[..|visits| - 1], visits[|visits| - 1];
      RunIsOnePass(v, before);
      Compose(v, PathSet(before), iset{last});
      assert visits == before + [last];
      assert PathSet(before) + iset{last} == PathSet(visits);
    }
  }

  /** Whether `p` leads to a map in `v`: the nodes at which `fix` does something. */
  predicate Reaches(v: Value, p: Path) {
    if p == [] then v.Map?
    else match p[0]
      case Key(k) => v.Map? && k in v.entries && Reaches(v.entries[k], p[1..])
      case Index(i) => v.List? && i < |v.items| && Reaches(v.items[i], p[1..])
  }

  ghost predicate SameNodes(v: Value, s: iset<Path>, t: iset<Path>) {
    forall p: Path :: Reaches(v, p) ==> (p in s <==> p in t)
  }

  lemma SameNodesInEntry(m: Entries, s: iset<Path>, t: iset<Path>, k: string)
    requires SameNodes(Map(m), s, t) && k in m
    ensures SameNodes(m[k], Below(s, Key(k)), Below(t, Key(k)))
  {
    forall p: Path | Reaches(m[k], p) ensures p in Below(s, Key(k)) <==> p in Below(t, Key(k)) {
      assert Under(Key(k), p)[1..] == p;
      assert Reaches(Map(m), Under(Key(k), p));
    }
  }

  lemma SameNodesInItem(xs: seq<Value>, s: iset<Path>, t: iset<Path>, i: nat)
    requires SameNodes(List(xs), s, t) && i < |xs|
    ensures SameNodes(xs[i], Below(s, Index(i)), Below(t, Index(i)))
  {
    forall p: Path | Reaches(xs[i], p) ensures p in Below(s, Index(i)) <==> p in Below(t, Index(i)) {
      assert Under(Index(i), p)[1..] == p;
      assert Reaches(List(xs), Under(Index(i), p));
    }
  }

  lemma {:induction false} OnlyNodesMatter(v: Value, role: Role, s: iset<Path>, t: iset<Path>)
    requires SameNodes(v, s, t)
    ensures Meant(v, role, s) == Meant(v, role, t)
    decreases v
  {
    match v
    case Map(m) =>
      assert Reaches(v, []);
      forall k | k in m
        ensures Meant(m[k], ChildRole(role, m, k, [] in s), Below(s, Key(k)))
             == Meant(m[k], ChildRole(role, m, k, [] in t), Below(t, Key(k)))
      {
        SameNodesInEntry(m, s, t, k);
        OnlyNodesMatter(m[k], ChildRole(role, m, k, [] in s), Below(s, Key(k)), Below(t, Key(k)));
      }
      EntriesAfter(m, role, s);
      EntriesAfter(m, role, t);
      assert After(m, role, s) == After(m, role, t);
    case List(xs) =>
      forall i | 0 <= i < |xs|
        ensures Meant(xs[i], NO_ROLE, Below(s, Index(i))) == Meant(xs[i], NO_ROLE, Below(t, Index(i)))
      {
        SameNodesInItem(xs, s, t, i);
        OnlyNodesMatter(xs[i], NO_ROLE, Below(s, Index(i)), Below(t, Index(i)));
      }
      assert Meant(v, role, s).items == Meant(v, role, t).items;
    case _ =>
  }

  /** Every schedule that visits each map of the tree, in any order and however often, gives the
      tree that `fix` gives: top-down, bottom-up and every mixture of the two. */
  lemma EveryOrder(v: Value, visits: seq<Path>)
    requires AtomicKeys(v)
    requires forall p: Path :: Reaches(v, p) ==> p in visits
    ensures Run(v, visits) == FixAt(v, AllPaths())
  {
    RunIsOnePass(v, visits);
    OnlyNodesMatter(v, NO_ROLE, PathSet(visits), AllPaths());
  }

  /** A second application of `fix` changes nothing. */
  lemma Idempotent(v: Value)
    requires AtomicKeys(v)
    ensures FixAt(FixAt(v, AllPaths()), AllPaths()) == FixAt(v, AllPaths())
  {
    Compose(v, AllPaths(), AllPaths());
    assert AllPaths() + AllPaths() == AllPaths();
  }

  // ----- What the fixed tree looks like -----------------------------------------------------------

  /** Each listed string property of the list-map `m` is required or has a default. */
  predicate KeysServed(m: Entries) {
    var items := SubMap(m, "items");
    var properties := SubMap(items, "properties");
    forall key <- SubList(m, "x-kubernetes-list-map-keys") ::
      var name := Sprint(key);
      name in properties && properties[name].Map? ==>
        var property := properties[name].entries;
        || key in SubList(items, "required")
        || !("type" in property && property["type"] == Str("string"))
        || ("default" in property && property["default"] != Null)
  }

  predicate Served(v: Value) {
    match v
    case Map(m) => KeysServed(m) && (forall k <- m :: Served(m[k]))
    case List(xs) => forall i :: 0 <= i < |xs| ==> Served(xs[i])
    case _ => true
  }

  lemma {:induction false} FixedPointIsServed(v: Value, role: Role)
    requires Meant(v, role, AllPaths()) == v
    ensures Served(v)
  {
    match v
    case Map(m) =>
      EntriesAfter(m, role, AllPaths());
      forall k | k in m ensures Served(m[k]) {
        if m[k] != Str("") {
          AllBelow(Key(k));
          FixedPointIsServed(m[k], ChildRole(role, m, k, true));
        }
      }
      FixedPointServesKeys(m, role);
    case List(xs) =>
      forall i | 0 <= i < |xs| ensures Served(xs[i]) {
        AllBelow(Index(i));
        assert xs[i] == Meant(v, role, AllPaths()).items[i];
        FixedPointIsServed(xs[i], NO_ROLE);
      }
    case _ =>
  }

  lemma AllBelow(step: Step)
    ensures Below(AllPaths(), step) == AllPaths()
  {
  }

  lemma FixedPointServesKeys(m: Entries, role: Role)
    requires After(m, role, AllPaths()) == m
    ensures KeysServed(m)
  {
    var items := SubMap(m, ITEMS);
    var properties := SubMap(items, PROPERTIES);
    forall key | key in SubList(m, KEYS) && Sprint(key) in properties && properties[Sprint(key)].Map?
                 && key !in SubList(items, REQUIRED)
      ensures !NeedsDefault(properties[Sprint(key)].entries)
    {
      NamesDiffer();
      var r1 := ChildRole(role, m, ITEMS, true);
      FixedPointBelow(m, role, ITEMS);
      assert m[ITEMS] == Map(items) && items[PROPERTIES] == Map(properties);
      var r2 := ChildRole(r1, items, PROPERTIES, true);
      FixedPointBelow(items, r1, PROPERTIES);
      assert key in KeySet(m) && key in r2.propertiesOf;
      var r3 := ChildRole(r2, properties, Sprint(key), true);
      FixedPointBelow(properties, r2, Sprint(key));
      NeedsDefaultKept(properties[Sprint(key)].entries, r3, AllPaths());
    }
  }

  lemma FixedPointBelow(m: Entries, role: Role, k: string)
    requires After(m, role, AllPaths()) == m && k in m && m[k].Map?
    ensures After(m[k].entries, ChildRole(role, m, k, true), AllPaths()) == m[k].entries
  {
    EntriesAfter(m, role, AllPaths());
    AllBelow(Key(k));
  }

  /** After `fix`, every listed string property anywhere in the tree is required or has a default. */
  lemma FixServes(v: Value)
    requires AtomicKeys(v)
    ensures Served(FixAt(v, AllPaths()))
  {
    Idempotent(v);
    FixedPointIsServed(FixAt(v, AllPaths()), NO_ROLE);
  }

  /** `w` is `v` with some absent or null `default` entries of string-typed maps set to "". */
  predicate OnlyDefaults(v: Value, w: Value) {
    match v
    case Map(m) =>
      && w.Map? && m.Keys <= w.entries.Keys
      && (forall k <- w.entries ::
            || (k in m && OnlyDefaults(m[k], w.entries[k]))
            || (&& k == "default" && (k in m ==> m[k] == Null) && w.entries[k] == Str("")
                && "type" in m && m["type"] == Str("string")))
    case List(xs) =>
      w.List? && |w.items| == |xs| && forall i :: 0 <= i < |xs| ==> OnlyDefaults(xs[i], w.items[i])
    case _ => w == v
  }

  lemma {:induction false} StepsOnlyAddDefaults(v: Value, role: Role, visits: iset<Path>)
    ensures OnlyDefaults(v, Meant(v, role, visits))
  {
    match v
    case Map(m) =>
      EntriesAfter(m, role, visits);
      forall k | k in m {
        StepsOnlyAddDefaults(m[k], ChildRole(role, m, k, [] in visits), Below(visits, Key(k)));
      }
    case List(xs) =>
      forall i | 0 <= i < |xs| {
        StepsOnlyAddDefaults(xs[i], NO_ROLE, Below(visits, Index(i)));
      }
    case _ =>
  }

  // ----- The step at one node ---------------------------------------------------------------------

  /** A map after its `items` have been served by the list-map keys `keys`, and nothing else. */
  ghost function LocalFix(m: Entries, keys: set<Value>): Entries {
    if ITEMS in m then m[ITEMS := Meant(m[ITEMS], Role(keys, {}, false), iset{})] else m
  }

  lemma NothingBelow(step: Step)
    ensures Below(iset{}, step) == iset{}
  {
  }

  lemma LocalFixAgain(m: Entries, keys: set<Value>, key: Value)
    requires AtomicKeys(Map(m)) && IsAtom(key) && forall k <- keys :: IsAtom(k)
    ensures LocalFix(LocalFix(m, keys), {key}) == LocalFix(m, keys + {key})
  {
    if ITEMS in m {
      var r1, r2 := Role(keys, {}, false), Role({key}, {}, false);
      ComposeInRoles(m[ITEMS], r1, iset{}, r2, iset{});
      assert r1.Union(r2) == Role(keys + {key}, {}, false);
      var none: iset<Path> := iset{};
      assert none + none == none;
    }
  }

  lemma LocalFixNone(m: Entries)
    ensures LocalFix(m, {}) == m
  {
    if ITEMS in m { NoVisits(m[ITEMS]); }
  }

  /** The step at a node is the visit of that node alone. */
  lemma LocalFixIsVisit(m: Entries)
    ensures Map(LocalFix(m, KeySet(m))) == FixAt(Map(m), iset{[]})
  {
    EntriesAfter(m, NO_ROLE, iset{[]});
    forall k | k in m ensures LocalFix(m, KeySet(m))[k] == EntryAfter(m, NO_ROLE, iset{[]}, k) {
      assert Below(iset{[]}, Key(k)) == iset{};
      if k != ITEMS {
        assert ChildRole(NO_ROLE, m, k, true) == NO_ROLE;
        NoVisits(m[k]);
      }
    }
    assert LocalFix(m, KeySet(m)) == After(m, NO_ROLE, iset{[]});
  }

  /** The concrete effect of serving the single key `key`: the property of that name gets the empty default
      if it is not required, has no default or a null one, and is of type string. */
  lemma OneKey(value: Entries, key: Value)
    ensures var items := SubMap(value, "items");
            var properties := SubMap(items, "properties");
            var name := Sprint(key);
            LocalFix(value, {key}) ==
              if name in properties && properties[name].Map? && key !in SubList(items, "required")
                 && (var property := properties[name].entries;
                     && ("default" in property ==> property["default"] == Null)
                     && "type" in property && property["type"] == Str("string"))
              then value["items" := Map(items["properties" := Map(properties[name :=
                     Map(properties[name].entries["default" := Str("")])])])]
              else value
  {
    if ITEMS in value {
      var role := Role({key}, {}, false);
      assert value[ITEMS := value[ITEMS]] == value;
      if value[ITEMS].Map? {
        OneKeyInItems(value[ITEMS].entries, key);
      } else {
        NotAMap(value[ITEMS], role);
      }
    }
  }

  lemma OneKeyInItems(items: Entries, key: Value)
    ensures var properties := SubMap(items, PROPERTIES);
            var name := Sprint(key);
            After(items, Role({key}, {}, false), iset{}) ==
              if name in properties && properties[name].Map? && key !in SubList(items, REQUIRED)
                 && NeedsDefault(properties[name].entries)
              then items[PROPERTIES := Map(properties[name := Map(properties[name].entries[DEFAULT := Str("")])])]
              else items
  {
    hide Meant, After;
    var role := Role({key}, {}, false);
    EntriesAfter(items, role, iset{});
    var items' := After(items, role, iset{});
    var unmet := Unmet({key}, items);
    forall k | k in items && k != PROPERTIES ensures items'[k] == items[k] {
      NothingBelow(Key(k));
      assert ChildRole(role, items, k, false) == NO_ROLE;
      NoVisits(items[k]);
    }
    if PROPERTIES in items {
      NothingBelow(Key(PROPERTIES));
      assert ChildRole(role, items, PROPERTIES, false) == Role({}, unmet, false);
      if items[PROPERTIES].Map? {
        var properties := items[PROPERTIES].entries;
        OneKeyInProperties(properties, unmet, key);
        EntriesAfter(properties, Role({}, unmet, false), iset{});
      } else {
        NotAMap(items[PROPERTIES], Role({}, unmet, false));
      }
    }
    assert items'.Keys == items.Keys;
  }

  lemma NotAMap(v: Value, role: Role)
    requires !v.Map?
    ensures Meant(v, role, iset{}) == v
  {
    if v.List? {
      forall i | 0 <= i < |v.items| ensures Meant(v.items[i], NO_ROLE, Below(iset{}, Index(i))) == v.items[i] {
        NothingBelow(Index(i));
        NoVisits(v.items[i]);
      }
      assert Meant(v, role, iset{}).items == v.items;
    }
  }

  lemma OneKeyInProperties(properties: Entries, unmet: set<Value>, key: Value)
    requires unmet <= {key}
    ensures var name := Sprint(key);
            After(properties, Role({}, unmet, false), iset{}) ==
              if name in properties && properties[name].Map? && key in unmet
                 && NeedsDefault(properties[name].entries)
              then properties[name := Map(properties[name].entries[DEFAULT := Str("")])]
              else properties
  {
    hide Meant, After;
    var role := Role({}, unmet, false);
    EntriesAfter(properties, role, iset{});
    var properties' := After(properties, role, iset{});
    forall k | k in properties
      ensures properties'[k] ==
                if k == Sprint(key) && key in unmet && properties[k].Map? && NeedsDefault(properties[k].entries)
                then Map(properties[k].entries[DEFAULT := Str("")]) else properties[k]
    {
      var listed := ChildRole(role, properties, k, false).listed;
      assert ChildRole(role, properties, k, false) == Role({}, {}, listed);
      NothingBelow(Key(k));
      ListedOnly(properties[k], listed);
    }
    assert properties'.Keys == properties.Keys;
  }

  lemma ListedOnly(v: Value, listed: bool)
    ensures Meant(v, Role({}, {}, listed), iset{}) ==
              if listed && v.Map? && NeedsDefault(v.entries) then Map(v.entries[DEFAULT := Str("")]) else v
  {
    if v.Map? {
      ListedMap(v.entries, listed);
    } else {
      NotAMap(v, Role({}, {}, listed));
    }
  }

  lemma ListedMap(m: Entries, listed: bool)
    ensures Meant(Map(m), Role({}, {}, listed), iset{}) ==
              Map(if listed && NeedsDefault(m) then m[DEFAULT := Str("")] else m)
  {
    hide Meant, After;
    var role := Role({}, {}, listed);
    EntriesAfter(m, role, iset{});
    forall k | k in m ensures EntryAfter(m, role, iset{}, k) == if k == DEFAULT && listed
        && NeedsDefault(m) then Str("") else m[k] {
      assert ChildRole(role, m, k, false) == NO_ROLE;
      NothingBelow(Key(k));
      NoVisits(m[k]);
    }
    assert After(m, role, iset{}) == if listed && NeedsDefault(m) then m[DEFAULT := Str("")] else m;
  }

  // ----- Entries during the recursion --------------------------------------------------------------

  lemma SameKeys(origin: Entries, role: Role, seen: iset<Path>)
    ensures After(origin, role, seen).Keys == After(origin, role, AllPaths()).Keys
  {
    EntriesAfter(origin, role, seen);
    EntriesAfter(origin, role, AllPaths());
  }

  lemma ChildStays(origin: Entries, role: Role, seen: iset<Path>, k: string)
    requires AtomicKeys(Map(origin)) && role.Atomic()
    requires [] in seen && k in After(origin, role, seen)
    requires !IsAtom(After(origin, role, seen)[k])
    ensures var r := ChildRole(role, origin, k, true);
            && r.Atomic() && k in origin && origin[k] < Map(origin) && AtomicKeys(origin[k])
            && After(origin, role, seen)[k] == Meant(origin[k], r, Below(seen, Key(k)))
            && k in After(origin, role, AllPaths())
            && After(origin, role, AllPaths())[k] == Meant(origin[k], r, AllPaths())
  {
    EntriesAfter(origin, role, seen);
    EntriesAfter(origin, role, AllPaths());
    AllBelow(Key(k));
    ChildRoleAtomic(role, origin, k, true);
  }

  lemma AtomsStay(origin: Entries, role: Role, seen: iset<Path>, k: string)
    requires [] in seen && k in After(origin, role, seen)
    requires IsAtom(After(origin, role, seen)[k])
    ensures k in After(origin, role, AllPaths())
    ensures After(origin, role, AllPaths())[k] == After(origin, role, seen)[k]
  {
    EntriesAfter(origin, role, seen);
    EntriesAfter(origin, role, AllPaths());
  }
}
