/** The CRD schema fix as the program runs it: Go's maps are objects, and `fix` writes the defaults into
    them while it walks the tree. What it leaves is the tree that `SchemaFix` gives a meaning to. */
module SchemaTree {
  import opened SchemaFix

  /** Decoded YAML; a map is a reference. */
  datatype Node =
    | NNull
    | NStr(s: string)
    | NScalar(goType: string, text: string)
    | NList(items: seq<Node>)
    | NMap(m: MapNode)

  class MapNode {
    var entries: map<string, Node>
    ghost const place: Path

    constructor (entries: map<string, Node>, ghost place: Path)
      ensures this.entries == entries && this.place == place
    {
      this.entries, this.place := entries, place;
    }
  }

  /** The maps of a document by where they are. As each knows its place, no map is in two places: a
      decoder makes a fresh map for each. */
  type Tree = map<Path, MapNode>

  ghost predicate Proper(tree: Tree) {
    forall q <- tree :: tree[q].place == q
  }

  /** What is in the maps of a document. */
  type Contents = map<Path, map<string, Node>>

  ghost function Now(tree: Tree): Contents
    reads tree.Values
  {
    map q | q in tree :: tree[q].entries
  }

  /** With the contents `c`, the node at `p` holds the value `v`. */
  ghost predicate Holds(node: Node, v: Value, p: Path, tree: Tree, c: Contents)
    decreases v
  {
    match v
    case List(vs) =>
      && node.NList? && |node.items| == |vs|
      && forall i :: 0 <= i < |vs| ==> Holds(node.items[i], vs[i], p + [Index(i)], tree, c)
    case Map(e) =>
      && IsMapAt(node, p, tree, c) && c[p].Keys == e.Keys
      && forall k :: k in e ==> Holds(c[p][k], e[k], p + [Key(k)], tree, c)
    case _ => AtomNode(node) && AtomOf(node) == v
  }

  ghost predicate IsMapAt(node: Node, p: Path, tree: Tree, c: Contents) {
    node.NMap? && p in tree && tree[p] == node.m && p in c
  }

  predicate AtomNode(n: Node) {
    n.NNull? || n.NStr? || n.NScalar?
  }

  function AtomOf(n: Node): Value
    requires AtomNode(n)
  {
    match n
    case NNull => Null
    case NStr(s) => Str(s)
    case NScalar(g, x) => Scalar(g, x)
  }

  /** The maps at and below `p`. */
  ghost function Region(p: Path, tree: Tree): set<MapNode> {
    set q | q in tree && p <= q :: tree[q]
  }

  ghost predicate SameAt(q: Path, c: Contents, d: Contents) {
    q in c ==> q in d && d[q] == c[q]
  }

  /** Every map that is not below `p` is as it was. */
  ghost predicate OnlyBelow(p: Path, c: Contents, d: Contents) {
    forall q: Path :: !(p <= q) ==> SameAt(q, c, d)
  }

  /** Every map at and below `p` is as it was. */
  ghost predicate StillBelow(p: Path, c: Contents, d: Contents) {
    forall q: Path :: p <= q ==> SameAt(q, c, d)
  }

  // ----- Frames --------------------------------------------------------------------------------------

  lemma Deeper(p: Path, step: Step, q: Path)
    requires p + [step] <= q
    ensures p <= q && |q| > |p| && q[|p|] == step
  {
    assert q[|p|] == (p + [step])[|p|];
    assert p == (p + [step])[..|p|];
  }

  lemma StillDeeper(p: Path, step: Step, c: Contents, d: Contents)
    requires StillBelow(p, c, d)
    ensures StillBelow(p + [step], c, d)
  {
    forall q: Path | p + [step] <= q ensures SameAt(q, c, d) {
      Deeper(p, step, q);
    }
  }

  lemma StillBeside(p: Path, changed: Step, step: Step, c: Contents, d: Contents)
    requires OnlyBelow(p + [changed], c, d) && step != changed
    ensures StillBelow(p + [step], c, d)
  {
    forall q: Path | p + [step] <= q ensures SameAt(q, c, d) {
      Deeper(p, step, q);
      if p + [changed] <= q {
        Deeper(p, changed, q);
      }
    }
  }

  lemma Widened(p: Path, step: Step, c: Contents, d: Contents)
    requires OnlyBelow(p + [step], c, d)
    ensures OnlyBelow(p, c, d) && SameAt(p, c, d)
  {
    forall q: Path | !(p <= q) ensures SameAt(q, c, d) {
      if p + [step] <= q {
        Deeper(p, step, q);
      }
    }
  }

  /** What holds below `p` goes on holding if nothing there has changed. */
  lemma {:induction false} HoldsStill(node: Node, v: Value, p: Path, tree: Tree, c: Contents, d: Contents)
    requires Holds(node, v, p, tree, c) && StillBelow(p, c, d)
    ensures Holds(node, v, p, tree, d)
    decreases v
  {
    match v
    case List(vs) =>
      forall i | 0 <= i < |vs| ensures Holds(node.items[i], vs[i], p + [Index(i)], tree, d) {
        StillDeeper(p, Index(i), c, d);
        HoldsStill(node.items[i], vs[i], p + [Index(i)], tree, c, d);
      }
    case Map(e) =>
      assert SameAt(p, c, d);
      forall k | k in e ensures Holds(d[p][k], e[k], p + [Key(k)], tree, d) {
        StillDeeper(p, Key(k), c, d);
        HoldsStill(c[p][k], e[k], p + [Key(k)], tree, c, d);
      }
    case _ =>
  }

  /** A change below one step leaves what holds below another. */
  lemma HoldsBeside(node: Node, v: Value, p: Path, changed: Step, step: Step, tree: Tree, c: Contents, d: Contents)
    requires Holds(node, v, p + [step], tree, c) && OnlyBelow(p + [changed], c, d) && step != changed
    ensures Holds(node, v, p + [step], tree, d)
  {
    StillBeside(p, changed, step, c, d);
    HoldsStill(node, v, p + [step], tree, c, d);
  }

  /** The map at `p` when only what is below its entry `k` has changed. */
  lemma {:induction false} EntryChanged(node: Node, e: Entries, p: Path, tree: Tree, c: Contents, d: Contents,
        k: string, v: Value)
    requires Holds(node, Map(e), p, tree, c) && k in e
    requires OnlyBelow(p + [Key(k)], c, d)
    requires Holds(c[p][k], v, p + [Key(k)], tree, d)
    ensures Holds(node, Map(e[k := v]), p, tree, d)
    ensures OnlyBelow(p, c, d) && SameAt(p, c, d)
  {
    Widened(p, Key(k), c, d);
    forall x | x in e && x != k ensures Holds(d[p][x], e[x], p + [Key(x)], tree, d) {
      HoldsBeside(c[p][x], e[x], p, Key(k), Key(x), tree, c, d);
    }
  }

  /** The map at `p` when an atom has been put in it. */
  lemma {:induction false} AtomPut(node: Node, e: Entries, p: Path, tree: Tree, c: Contents, d: Contents,
        k: string, s: string)
    requires Holds(node, Map(e), p, tree, c)
    requires d == c[p := c[p][k := NStr(s)]]
    ensures Holds(node, Map(e[k := Str(s)]), p, tree, d)
    ensures OnlyBelow(p, c, d)
  {
    forall x | x in e && x != k ensures Holds(d[p][x], e[x], p + [Key(x)], tree, d) {
      assert StillBelow(p + [Key(x)], c, d);
      HoldsStill(c[p][x], e[x], p + [Key(x)], tree, c, d);
    }
    assert Holds(d[p][k], Str(s), p + [Key(k)], tree, d);
  }

  /** A change three levels down, seen from the top. */
  lemma ThreeUp(node: Node, e: Entries, name: string, v: Value, p: Path, tree: Tree, c: Contents, d: Contents)
    requires Holds(node, Map(e), p, tree, c)
    requires ITEMS in e && e[ITEMS] == Map(SubMap(e, ITEMS))
    requires var es := SubMap(e, ITEMS); PROPERTIES in es && es[PROPERTIES] == Map(SubMap(es, PROPERTIES))
    requires name in SubMap(SubMap(e, ITEMS), PROPERTIES)
    requires var p2 := p + [Key(ITEMS)] + [Key(PROPERTIES)];
             && OnlyBelow(p2 + [Key(name)], c, d)
             && p2 in c && name in c[p2] && Holds(c[p2][name], v, p2 + [Key(name)], tree, d)
    ensures var es, ps := SubMap(e, ITEMS), SubMap(SubMap(e, ITEMS), PROPERTIES);
            Holds(node, Map(e[ITEMS := Map(es[PROPERTIES := Map(ps[name := v])])]), p, tree, d)
    ensures OnlyBelow(p, c, d) && SameAt(p, c, d)
  {
    var es, ps := SubMap(e, ITEMS), SubMap(SubMap(e, ITEMS), PROPERTIES);
    var p1 := p + [Key(ITEMS)];
    Child(node, e, p, tree, c, ITEMS);
    Child(c[p][ITEMS], es, p1, tree, c, PROPERTIES);
    hide Holds, OnlyBelow;
    EntryChanged(c[p1][PROPERTIES], ps, p1 + [Key(PROPERTIES)], tree, c, d, name, v);
    EntryChanged(c[p][ITEMS], es, p1, tree, c, d, PROPERTIES, Map(ps[name := v]));
    EntryChanged(node, e, p, tree, c, d, ITEMS, Map(es[PROPERTIES := Map(ps[name := v])]));
  }

  lemma Child(node: Node, e: Entries, p: Path, tree: Tree, c: Contents, k: string)
    requires Holds(node, Map(e), p, tree, c) && k in e
    ensures p in c && k in c[p] && Holds(c[p][k], e[k], p + [Key(k)], tree, c)
  {
  }

  // ----- Reading -------------------------------------------------------------------------------------

  /** A failed type assertion gives a nil map. */
  function MapAt(m: MapNode?, k: string): MapNode?
    reads m
  {
    if m != null && k in m.entries && m.entries[k].NMap? then m.entries[k].m else null
  }

  function ListAt(m: MapNode?, k: string): seq<Node>
    reads m
  {
    if m != null && k in m.entries && m.entries[k].NList? then m.entries[k].items else []
  }

  /** `fmt.Sprint` of a key. */
  function SprintNode(n: Node): string {
    match n
    case NNull => "<nil>"
    case NStr(s) => s
    case NScalar(_, text) => text
    case _ => ""
  }

  lemma SameAtom(n: Node, v: Value, p: Path, tree: Tree, c: Contents, key: Node)
    requires Holds(n, v, p, tree, c) && AtomNode(key)
    ensures n == key <==> v == AtomOf(key)
  {
  }

  lemma ListHolds(m: MapNode, e: Entries, p: Path, tree: Tree, k: string)
    requires Holds(NMap(m), Map(e), p, tree, Now(tree))
    ensures |ListAt(m, k)| == |SubList(e, k)|
    ensures forall i :: 0 <= i < |SubList(e, k)| ==>
              Holds(ListAt(m, k)[i], SubList(e, k)[i], p + [Key(k)] + [Index(i)], tree, Now(tree))
  {
    if k in e {
      assert Holds(m.entries[k], e[k], p + [Key(k)], tree, Now(tree));
    }
  }

  lemma MapHolds(m: MapNode?, e: Entries, p: Path, tree: Tree, k: string)
    requires if m == null then e == map[] else Holds(NMap(m), Map(e), p, tree, Now(tree))
    ensures var child := MapAt(m, k);
            if child == null then !(k in e && e[k].Map?) && SubMap(e, k) == map[]
            else k in e && e[k] == Map(SubMap(e, k)) && m != null
                 && p in tree && k in Now(tree)[p] && Now(tree)[p][k] == NMap(child)
                 && Holds(NMap(child), Map(SubMap(e, k)), p + [Key(k)], tree, Now(tree))
  {
    if k in e {
      assert Holds(m.entries[k], e[k], p + [Key(k)], tree, Now(tree));
    }
  }

  // ----- The source's recursion ----------------------------------------------------------------------

  lemma PropertyNeeds(m: MapNode, e: Entries, p: Path, tree: Tree)
    requires Holds(NMap(m), Map(e), p, tree, Now(tree))
    ensures NeedsDefault(e) <==>
              && (DEFAULT in m.entries ==> m.entries[DEFAULT] == NNull)
              && TYPE in m.entries && m.entries[TYPE] == NStr("string")
  {
    if DEFAULT in e {
      Child(NMap(m), e, p, tree, Now(tree), DEFAULT);
    }
    if TYPE in e {
      Child(NMap(m), e, p, tree, Now(tree), TYPE);
    }
  }

  lemma SprintSame(key: Node)
    requires AtomNode(key)
    ensures SprintNode(key) == Sprint(AtomOf(key))
  {
  }

  lemma IsAt(m: MapNode, e: Entries, p: Path, tree: Tree)
    requires Holds(NMap(m), Map(e), p, tree, Now(tree))
    ensures p in tree && tree[p] == m
  {
  }

  lemma InRegion(p: Path, q: Path, tree: Tree)
    requires p <= q && q in tree
    ensures tree[q] in Region(p, tree)
  {
  }

  /** The loop over the required names. */
  method IsRequired(items: MapNode?, key: Node, ghost e: Entries, ghost p: Path, ghost tree: Tree) returns (r: bool)
    requires AtomNode(key)
    requires if items == null then e == map[] else Holds(NMap(items), Map(e), p, tree, Now(tree))
    ensures r <==> AtomOf(key) in SubList(e, REQUIRED)
  {
    var required := ListAt(items, REQUIRED);
    if items != null {
      ListHolds(items, e, p, tree, REQUIRED);
    }
    ghost var names := SubList(e, REQUIRED);
    r := false;
    for i := 0 to |required|
      invariant r <==> AtomOf(key) in names[..i]
    {
      SameAtom(required[i], names[i], p + [Key(REQUIRED)] + [Index(i)], tree, Now(tree), key);
      assert names[..i + 1] == names[..i] + [names[i]];
      if required[i] == key {
        r := true;
      }
    }
    assert names[..|names|] == names;
  }

  /** The one write that `fix` makes. */
  method SetDefault(property: MapNode, ghost e: Entries, ghost p: Path, ghost tree: Tree)
    requires Proper(tree) && Holds(NMap(property), Map(e), p, tree, Now(tree))
    modifies property
    ensures Holds(NMap(property), Map(e[DEFAULT := Str("")]), p, tree, Now(tree))
    ensures OnlyBelow(p, old(Now(tree)), Now(tree))
  {
    ghost var c := Now(tree);
    property.entries := property.entries[DEFAULT := NStr("")];
    assert forall q :: q in tree && q != p ==> tree[q] != property;
    assert Now(tree) == c[p := c[p][DEFAULT := NStr("")]];
    AtomPut(NMap(property), e, p, tree, c, Now(tree), DEFAULT, "");
  }

  /** The body of the loop over the keys: at most one write, three levels down. */
  method FixKey(value: MapNode, key: Node, ghost e: Entries, ghost p: Path, ghost tree: Tree)
    requires Proper(tree) && AtomNode(key)
    requires Holds(NMap(value), Map(e), p, tree, Now(tree))
    modifies Region(p, tree)
    ensures Holds(NMap(value), Map(LocalFix(e, {AtomOf(key)})), p, tree, Now(tree))
    ensures OnlyBelow(p, old(Now(tree)), Now(tree)) && SameAt(p, old(Now(tree)), Now(tree))
  {
    hide Holds, LocalFix;
    var name := SprintNode(key);
    var items := MapAt(value, ITEMS);
    var properties := MapAt(items, PROPERTIES);
    var property := MapAt(properties, name);
    ghost var p1, es := p + [Key(ITEMS)], SubMap(e, ITEMS);
    ghost var p2, ps := p1 + [Key(PROPERTIES)], SubMap(es, PROPERTIES);
    ghost var p3, qs := p2 + [Key(name)], SubMap(ps, name);
    MapHolds(value, e, p, tree, ITEMS);
    MapHolds(items, es, p1, tree, PROPERTIES);
    MapHolds(properties, ps, p2, tree, name);
    var isRequired := IsRequired(items, key, es, p1, tree);
    SprintSame(key);
    OneKey(e, AtomOf(key));
    if property != null && !isRequired {
      PropertyNeeds(property, qs, p3, tree);
      if (DEFAULT in property.entries ==> property.entries[DEFAULT] == NNull)
         && TYPE in property.entries && property.entries[TYPE] == NStr("string") {
        IsAt(property, qs, p3, tree);
        assert p <= p1 <= p2 <= p3;
        InRegion(p, p3, tree);
        ghost var c := Now(tree);
        SetDefault(property, qs, p3, tree);
        hide OnlyBelow;
        ThreeUp(NMap(value), e, name, Map(qs[DEFAULT := Str("")]), p, tree, c, Now(tree));
      }
    }
  }

  lemma KeysAreAtoms(m: MapNode, e: Entries, p: Path, tree: Tree)
    requires Holds(NMap(m), Map(e), p, tree, Now(tree)) && AtomicKeys(Map(e))
    ensures |ListAt(m, KEYS)| == |SubList(e, KEYS)|
    ensures forall i :: 0 <= i < |SubList(e, KEYS)| ==>
              AtomNode(ListAt(m, KEYS)[i]) && AtomOf(ListAt(m, KEYS)[i]) == SubList(e, KEYS)[i]
                  && IsAtom(SubList(e, KEYS)[i])
  {
    ListHolds(m, e, p, tree, KEYS);
    forall i | 0 <= i < |SubList(e, KEYS)|
      ensures AtomNode(ListAt(m, KEYS)[i]) && AtomOf(ListAt(m, KEYS)[i]) == SubList(e, KEYS)[i]
          && IsAtom(SubList(e, KEYS)[i])
    {
      assert SubList(e, KEYS)[i] in SubList(e, KEYS);
    }
  }

  lemma Nothing(p: Path, c: Contents)
    ensures OnlyBelow(p, c, c) && SameAt(p, c, c)
  {
  }

  lemma OneAfterAnother(p: Path, c: Contents, d: Contents, f: Contents)
    requires OnlyBelow(p, c, d) && OnlyBelow(p, d, f)
    ensures OnlyBelow(p, c, f)
    ensures SameAt(p, c, d) && SameAt(p, d, f) ==> SameAt(p, c, f)
  {
    forall q: Path | !(p <= q) ensures SameAt(q, c, f) {
      assert SameAt(q, c, d) && SameAt(q, d, f);
    }
  }

  /** The loop over the keys of one node. */
  method FixKeys(value: MapNode, ghost e: Entries, ghost p: Path, ghost tree: Tree)
    requires Proper(tree) && AtomicKeys(Map(e))
    requires Holds(NMap(value), Map(e), p, tree, Now(tree))
    modifies Region(p, tree)
    ensures Holds(NMap(value), FixAt(Map(e), iset{[]}), p, tree, Now(tree))
    ensures OnlyBelow(p, old(Now(tree)), Now(tree)) && SameAt(p, old(Now(tree)), Now(tree))
  {
    hide Holds, LocalFix, OnlyBelow, SameAt, Meant;
    var keys := ListAt(value, KEYS);
    ghost var values := SubList(e, KEYS);
    KeysAreAtoms(value, e, p, tree);
    LocalFixNone(e);
    Nothing(p, Now(tree));
    assert Elements([]) == {};
    for i := 0 to |keys|
      invariant Holds(NMap(value), Map(LocalFix(e, Elements(values[..i]))), p, tree, Now(tree))
      invariant OnlyBelow(p, old(Now(tree)), Now(tree)) && SameAt(p, old(Now(tree)), Now(tree))
    {
      ghost var c, served := Now(tree), Elements(values[..i]);
      forall v | v in served ensures IsAtom(v) {
        assert v in values;
      }
      LocalFixAgain(e, served, values[i]);
      assert Elements(values[..i + 1]) == served + {values[i]};
      FixKey(value, keys[i], LocalFix(e, served), p, tree);
      OneAfterAnother(p, old(Now(tree)), c, Now(tree));
    }
    assert values[..|values|] == values;
    LocalFixIsVisit(e);
  }

  /** `fix` on a node that started as `origin` and has had the steps at `seen` applied to it. The
      entries of a map are visited in no particular order, as Go's `range` does. */
  method Fix(node: Node, ghost origin: Value, ghost role: Role, ghost seen: iset<Path>, ghost p: Path, ghost tree: Tree)
    requires Proper(tree) && AtomicKeys(origin) && role.Atomic()
    requires Holds(node, Meant(origin, role, seen), p, tree, Now(tree))
    modifies Region(p, tree)
    ensures Holds(node, Meant(origin, role, AllPaths()), p, tree, Now(tree))
    ensures OnlyBelow(p, old(Now(tree)), Now(tree))
    decreases origin, 1
  {
    match node
    case NMap(m) =>
      AtomicKeysKept(origin, role, seen);
      FixKeys(m, After(origin.entries, role, seen), p, tree);
      ghost var c := Now(tree);
      ComposeInRoles(origin, role, seen, NO_ROLE, iset{[]});
      assert role.Union(NO_ROLE) == role;
      FixEntries(m, origin.entries, role, seen + iset{[]}, p, tree);
      OneAfterAnother(p, old(Now(tree)), c, Now(tree));
    case NList(xs) =>
      FixItems(xs, origin.items, role, seen, p, tree);
    case _ =>
  }

  lemma RegionDeeper(p: Path, step: Step, tree: Tree)
    ensures Region(p + [step], tree) <= Region(p, tree)
  {
    forall q | q in tree && p + [step] <= q ensures p <= q {
      Deeper(p, step, q);
    }
  }

  /** Between two children: what is still to be visited is as before, the rest is as it will be. */
  ghost predicate Halfway(nodes: map<string, Node>, before: Entries, final: Entries, todo: set<string>,
                          p: Path, tree: Tree, c: Contents) {
    && nodes.Keys == before.Keys == final.Keys
    && forall k :: k in nodes ==> Holds(nodes[k], if k in todo then before[k] else final[k], p + [Key(k)], tree, c)
  }

  lemma HalfwayStep(nodes: map<string, Node>, before: Entries, final: Entries, todo: set<string>, k: string,
                    p: Path, tree: Tree, c: Contents, d: Contents)
    requires Halfway(nodes, before, final, todo, p, tree, c)
    requires k in nodes && OnlyBelow(p + [Key(k)], c, d) && Holds(nodes[k], final[k], p + [Key(k)], tree, d)
    ensures Halfway(nodes, before, final, todo - {k}, p, tree, d)
  {
    hide Holds;
    forall x | x in nodes
      ensures Holds(nodes[x], if x in todo - {k} then before[x] else final[x], p + [Key(x)], tree, d)
    {
      if x != k {
        HoldsBeside(nodes[x], if x in todo then before[x] else final[x], p, Key(k), Key(x), tree, c, d);
      }
    }
  }

  lemma HalfwayEnds(m: MapNode, before: Entries, final: Entries, p: Path, tree: Tree, c: Contents, d: Contents)
    requires before.Keys == final.Keys
    requires Holds(NMap(m), Map(before), p, tree, c) && SameAt(p, c, d)
    ensures Halfway(c[p], before, final, before.Keys, p, tree, c)
    ensures Halfway(c[p], before, final, {}, p, tree, d) ==> Holds(NMap(m), Map(final), p, tree, d)
  {
  }

  method FixEntries(m: MapNode, ghost origin: Entries, ghost role: Role, ghost seen: iset<Path>, ghost p: Path,
        ghost tree: Tree)
    requires Proper(tree) && AtomicKeys(Map(origin)) && role.Atomic() && [] in seen
    requires Holds(NMap(m), Map(After(origin, role, seen)), p, tree, Now(tree))
    modifies Region(p, tree)
    ensures Holds(NMap(m), Map(After(origin, role, AllPaths())), p, tree, Now(tree))
    ensures OnlyBelow(p, old(Now(tree)), Now(tree))
    decreases Map(origin), 0
  {
    ghost var before, final, c := After(origin, role, seen), After(origin, role, AllPaths()), Now(tree);
    SameKeys(origin, role, seen);
    IsAt(m, before, p, tree);
    Nothing(p, c);
    HalfwayEnds(m, before, final, p, tree, c, c);
    hide Holds, OnlyBelow, Halfway, Meant, After;
    var nodes := m.entries;
    var todo := nodes.Keys;
    assert nodes == c[p];
    assert todo == before.Keys by {
      KeysOf(m, before, p, tree, c);
    }
    while todo != {}
      invariant todo <= nodes.Keys
      invariant OnlyBelow(p, c, Now(tree)) && SameAt(p, c, Now(tree))
      invariant Halfway(nodes, before, final, todo, p, tree, Now(tree))
      decreases |todo|
    {
      var k :| k in todo;
      ghost var d := Now(tree);
      FixEntry(nodes, k, origin, role, seen, todo, p, tree);
      HalfwayStep(nodes, before, final, todo, k, p, tree, d, Now(tree));
      Widened(p, Key(k), d, Now(tree));
      OneAfterAnother(p, c, d, Now(tree));
      todo := todo - {k};
    }
    HalfwayEnds(m, before, final, p, tree, c, Now(tree));
  }

  lemma KeysOf(m: MapNode, e: Entries, p: Path, tree: Tree, c: Contents)
    requires Holds(NMap(m), Map(e), p, tree, c)
    ensures c[p].Keys == e.Keys
  {
  }

  /** The call of `fix` on one child; on an atom it does nothing. */
  method FixEntry(nodes: map<string, Node>, k: string, ghost origin: Entries, ghost role: Role, ghost seen: iset<Path>,
                  ghost todo: set<string>, ghost p: Path, ghost tree: Tree)
    requires Proper(tree) && AtomicKeys(Map(origin)) && role.Atomic() && [] in seen && k in todo && k in nodes
    requires Halfway(nodes, After(origin, role, seen), After(origin, role, AllPaths()), todo, p, tree, Now(tree))
    modifies Region(p + [Key(k)], tree)
    ensures Holds(nodes[k], After(origin, role, AllPaths())[k], p + [Key(k)], tree, Now(tree))
    ensures OnlyBelow(p + [Key(k)], old(Now(tree)), Now(tree))
    decreases Map(origin), 0, 0
  {
    var child := nodes[k];
    assert Holds(child, After(origin, role, seen)[k], p + [Key(k)], tree, Now(tree));
    if child.NMap? || child.NList? {
      ChildStays(origin, role, seen, k);
      Fix(child, origin[k], ChildRole(role, origin, k, true), Below(seen, Key(k)), p + [Key(k)], tree);
    } else {
      AtomsStay(origin, role, seen, k);
    }
  }

  /** Between two items: those before `i` are as they will be, the rest as before. */
  ghost predicate Reached(xs: seq<Node>, before: seq<Value>, final: seq<Value>, i: nat,
                          p: Path, tree: Tree, c: Contents) {
    && |xs| == |before| == |final|
    && forall j :: 0 <= j < |xs| ==> Holds(xs[j], if j < i then final[j] else before[j], p + [Index(j)], tree, c)
  }

  lemma ReachedStep(xs: seq<Node>, before: seq<Value>, final: seq<Value>, i: nat, p: Path, tree: Tree,
        c: Contents, d: Contents)
    requires Reached(xs, before, final, i, p, tree, c) && i < |xs|
    requires OnlyBelow(p + [Index(i)], c, d) && Holds(xs[i], final[i], p + [Index(i)], tree, d)
    ensures Reached(xs, before, final, i + 1, p, tree, d)
  {
    hide Holds;
    forall j | 0 <= j < |xs| ensures Holds(xs[j], if j < i + 1 then final[j] else before[j], p + [Index(j)], tree, d) {
      if j != i {
        HoldsBeside(xs[j], if j < i then final[j] else before[j], p, Index(i), Index(j), tree, c, d);
      }
    }
  }

  method FixItems(xs: seq<Node>, ghost origin: seq<Value>, ghost role: Role, ghost seen: iset<Path>,
        ghost p: Path, ghost tree: Tree)
    requires Proper(tree) && AtomicKeys(List(origin))
    requires Holds(NList(xs), Meant(List(origin), role, seen), p, tree, Now(tree))
    modifies Region(p, tree)
    ensures Holds(NList(xs), Meant(List(origin), role, AllPaths()), p, tree, Now(tree))
    ensures OnlyBelow(p, old(Now(tree)), Now(tree))
    decreases List(origin), 0
  {
    ghost var c := Now(tree);
    ghost var before, final := Meant(List(origin), role, seen).items, Meant(List(origin), role, AllPaths()).items;
    Nothing(p, c);
    for i := 0 to |xs|
      invariant OnlyBelow(p, c, Now(tree)) && Reached(xs, before, final, i, p, tree, Now(tree))
    {
      ghost var d := Now(tree);
      AllBelow(Index(i));
      RegionDeeper(p, Index(i), tree);
      assert Holds(xs[i], before[i], p + [Index(i)], tree, d);
      Fix(xs[i], origin[i], NO_ROLE, Below(seen, Index(i)), p + [Index(i)], tree);
      hide Holds, OnlyBelow;
      ReachedStep(xs, before, final, i, p, tree, d, Now(tree));
      Widened(p, Index(i), d, Now(tree));
      OneAfterAnother(p, c, d, Now(tree));
    }
  }

  /** The walk of a whole schema, in place. */
  method FixSchema(schema: MapNode, ghost v: Entries, ghost tree: Tree)
    requires Proper(tree) && AtomicKeys(Map(v))
    requires Holds(NMap(schema), Map(v), [], tree, Now(tree))
    modifies tree.Values
    ensures Holds(NMap(schema), FixAt(Map(v), AllPaths()), [], tree, Now(tree))
    ensures Served(FixAt(Map(v), AllPaths())) && OnlyDefaults(Map(v), FixAt(Map(v), AllPaths()))
  {
    NoVisits(Map(v));
    Fix(NMap(schema), Map(v), NO_ROLE, iset{}, [], tree);
    FixServes(Map(v));
    StepsOnlyAddDefaults(Map(v), NO_ROLE, AllPaths());
  }

  // ----- Whole files ---------------------------------------------------------------------------------

  /** More maps elsewhere make no difference. */
  lemma {:induction false} HoldsInMore(node: Node, v: Value, p: Path, tree: Tree, c: Contents, more: Tree, d: Contents)
    requires Holds(node, v, p, tree, c)
    requires forall q :: q in tree ==> q in more && more[q] == tree[q]
    requires forall q :: q in c ==> q in d && d[q] == c[q]
    ensures Holds(node, v, p, more, d)
    decreases v
  {
    match v
    case List(vs) =>
      forall i | 0 <= i < |vs| ensures Holds(node.items[i], vs[i], p + [Index(i)], more, d) {
        HoldsInMore(node.items[i], vs[i], p + [Index(i)], tree, c, more, d);
      }
    case Map(e) =>
      forall k | k in e ensures Holds(d[p][k], e[k], p + [Key(k)], more, d) {
        HoldsInMore(c[p][k], e[k], p + [Key(k)], tree, c, more, d);
      }
    case _ =>
  }

  /** The maps of a further subtree join those there are. */
  lemma Joined(a: Tree, b: Tree, p: Path, step: Step)
    requires Proper(a) && Proper(b)
    requires forall q <- b :: p + [step] <= q
    requires forall q <- a :: p <= q && |q| > |p| && q[|p|] != step
    ensures Proper(a + b) && (a + b).Values <= a.Values + b.Values
    ensures forall q :: q in a ==> (a + b)[q] == a[q]
    ensures forall q :: q in b ==> (a + b)[q] == b[q] && p <= q && |q| > |p| && q[|p|] == step
  {
    forall q | q in b ensures p <= q && |q| > |p| && q[|p|] == step {
      Deeper(p, step, q);
    }
  }

  ghost predicate Within(a: Tree, b: Tree) {
    forall q :: q in a ==> q in b && b[q] == a[q]
  }

  lemma HoldsJoined(node: Node, v: Value, p: Path, a: Tree, b: Tree)
    requires Holds(node, v, p, a, Now(a)) && Within(a, b)
    ensures Holds(node, v, p, b, Now(b))
  {
    HoldsInMore(node, v, p, a, Now(a), b, Now(b));
  }

  /** The entries decoded so far. */
  ghost predicate Gathered(nodes: map<string, Node>, e: Entries, p: Path, tree: Tree)
    reads tree.Values
  {
    nodes.Keys <= e.Keys && forall k :: k in nodes ==> Holds(nodes[k], e[k], p + [Key(k)], tree, Now(tree))
  }

  lemma GatheredMore(nodes: map<string, Node>, e: Entries, p: Path, a: Tree, k: string, x: Node, b: Tree, all: Tree)
    requires Gathered(nodes, e, p, a) && k in e && Holds(x, e[k], p + [Key(k)], b, Now(b))
    requires Within(a, all) && Within(b, all)
    ensures Gathered(nodes[k := x], e, p, all)
  {
    hide Within, Holds;
    HoldsJoined(x, e[k], p + [Key(k)], b, all);
    forall j | j in nodes ensures Holds(nodes[j], e[j], p + [Key(j)], all, Now(all)) {
      HoldsJoined(nodes[j], e[j], p + [Key(j)], a, all);
    }
  }

  lemma GatheredMap(m: MapNode, e: Entries, p: Path, below: Tree, tree: Tree)
    requires Gathered(m.entries, e, p, below) && m.entries.Keys == e.Keys
    requires Within(below, tree) && p in tree && tree[p] == m
    ensures Holds(NMap(m), Map(e), p, tree, Now(tree))
  {
    hide Within;
    forall k | k in e ensures Holds(m.entries[k], e[k], p + [Key(k)], tree, Now(tree)) {
      HoldsJoined(m.entries[k], e[k], p + [Key(k)], below, tree);
    }
  }

  /** The items decoded so far. */
  ghost predicate Listed(xs: seq<Node>, vs: seq<Value>, p: Path, tree: Tree)
    reads tree.Values
  {
    |xs| <= |vs| && forall i :: 0 <= i < |xs| ==> Holds(xs[i], vs[i], p + [Index(i)], tree, Now(tree))
  }

  lemma ListedMore(xs: seq<Node>, vs: seq<Value>, p: Path, a: Tree, x: Node, b: Tree, all: Tree)
    requires Listed(xs, vs, p, a) && |xs| < |vs| && Holds(x, vs[|xs|], p + [Index(|xs|)], b, Now(b))
    requires Within(a, all) && Within(b, all)
    ensures Listed(xs + [x], vs, p, all)
  {
    hide Within, Holds;
    HoldsJoined(x, vs[|xs|], p + [Index(|xs|)], b, all);
    forall j | 0 <= j < |xs| ensures Holds(xs[j], vs[j], p + [Index(j)], all, Now(all)) {
      HoldsJoined(xs[j], vs[j], p + [Index(j)], a, all);
    }
  }

  /** Decoding makes a fresh map for each map of the file. */
  method Unmarshal(v: Value, ghost p: Path) returns (node: Node, ghost tree: Tree)
    ensures Proper(tree) && fresh(tree.Values) && forall q <- tree :: p <= q
    ensures Holds(node, v, p, tree, Now(tree))
    decreases v, 1
  {
    match v
    case Null => node, tree := NNull, map[];
    case Str(s) => node, tree := NStr(s), map[];
    case Scalar(g, x) => node, tree := NScalar(g, x), map[];
    case List(vs) =>
      var xs;
      xs, tree := UnmarshalItems(vs, p);
      node := NList(xs);
    case Map(e) =>
      var nodes, below := UnmarshalEntries(e, p);
      var m := new MapNode(nodes, p);
      node, tree := NMap(m), below[p := m];
      hide Holds;
      assert tree.Values <= below.Values + {m};
      GatheredMap(m, e, p, below, tree);
  }

  method UnmarshalItems(vs: seq<Value>, ghost p: Path) returns (xs: seq<Node>, ghost tree: Tree)
    ensures Proper(tree) && fresh(tree.Values) && forall q <- tree :: p <= q && p != q
    ensures Listed(xs, vs, p, tree) && |xs| == |vs|
    decreases List(vs), 0
  {
    hide Holds, Listed;
    xs, tree := [], map[];
    assert Listed([], vs, p, tree) by {
      NothingListed(vs, p, tree);
    }
    for i := 0 to |vs|
      invariant Proper(tree) && fresh(tree.Values) && |xs| == i && Listed(xs, vs, p, tree)
      invariant forall q: Path <- tree :: |q| > |p| && p <= q && q[|p|].Index? && q[|p|].i < i
    {
      ghost var before := tree;
      var x, below := Unmarshal(vs[i], p + [Index(i)]);
      Joined(before, below, p, Index(i));
      tree := before + below;
      ListedMore(xs, vs, p, before, x, below, tree);
      xs := xs + [x];
    }
  }

  lemma NothingListed(vs: seq<Value>, p: Path, tree: Tree)
    ensures Listed([], vs, p, tree)
  {
  }

  method UnmarshalEntries(e: Entries, ghost p: Path) returns (nodes: map<string, Node>, ghost tree: Tree)
    ensures Proper(tree) && fresh(tree.Values) && forall q <- tree :: p <= q && p != q
    ensures Gathered(nodes, e, p, tree) && nodes.Keys == e.Keys
    decreases Map(e), 0
  {
    hide Holds, Gathered;
    nodes, tree := map[], map[];
    var todo := e.Keys;
    assert Gathered(nodes, e, p, tree) by {
      NothingGathered(e, p, tree);
    }
    while todo != {}
      invariant todo <= e.Keys && nodes.Keys == e.Keys - todo
      invariant Proper(tree) && fresh(tree.Values) && Gathered(nodes, e, p, tree)
      invariant forall q: Path <- tree :: |q| > |p| && p <= q && q[|p|].Key? && q[|p|].k !in todo
      decreases |todo|
    {
      var k :| k in todo;
      ghost var before := tree;
      var x, below := Unmarshal(e[k], p + [Key(k)]);
      Joined(before, below, p, Key(k));
      tree := before + below;
      GatheredMore(nodes, e, p, before, k, x, below, tree);
      nodes, todo := nodes[k := x], todo - {k};
    }
  }

  lemma NothingGathered(e: Entries, p: Path, tree: Tree)
    ensures Gathered(map[], e, p, tree)
  {
  }

  /** Encoding reads the value back. */
  method Marshal(node: Node, ghost v: Value, ghost p: Path, ghost tree: Tree) returns (r: Value)
    requires Holds(node, v, p, tree, Now(tree))
    ensures r == v
    decreases v
  {
    match node
    case NList(xs) =>
      var done: seq<Value> := [];
      for i := 0 to |xs|
        invariant done == v.items[..i]
      {
        var x := Marshal(xs[i], v.items[i], p + [Index(i)], tree);
        done := done + [x];
      }
      r := List(done);
    case NMap(m) =>
      var done: Entries, todo := map[], m.entries.Keys;
      while todo != {}
        invariant todo <= v.entries.Keys && done.Keys == v.entries.Keys - todo
        invariant forall k :: k in done ==> done[k] == v.entries[k]
        decreases |todo|
      {
        var k :| k in todo;
        var x := Marshal(m.entries[k], v.entries[k], p + [Key(k)], tree);
        done, todo := done[k := x], todo - {k};
      }
      assert done == v.entries;
      r := Map(done);
    case _ => r := AtomOf(node);
  }

  /** What the program does to a file: decode it, fix it in place, encode it. */
  method FixFile(file: Value) returns (r: Value)
    requires file.Map? && AtomicKeys(file)
    ensures r == FixAt(file, AllPaths())
    ensures Served(r) && OnlyDefaults(file, r)
  {
    var node, tree := Unmarshal(file, []);
    FixSchema(node.m, file.entries, tree);
    r := Marshal(node, FixAt(file, AllPaths()), [], tree);
  }
}
