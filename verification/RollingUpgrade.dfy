/** The operator-managed rolling upgrade: Pods are grouped by the identifier of the node they run on,
    and one pass replaces the out-of-date Pods of one identifier. */
module RollingUpgrade {
  import opened Wrappers
  import Probe

  /** A Pod with what the upgrade looks at. */
  datatype Member = Member(pod: Probe.Pod, node: string, revision: string)

  // ----- Strategies --------------------------------------------------------------------------------

  datatype StrategyName = UpgradeByPod | UpgradeByNode | UpgradeByNodeLabel | UpgradeManual

  datatype UpgradeStrategy = ByPod | Manual | ByNode | ByNodeLabel(key: string)

  /** `GetUpgradeStrategy`; a node-label strategy without a label falls back to the node name. */
  function GetUpgradeStrategy(name: Option<StrategyName>, key: Option<string>): (s: UpgradeStrategy)
    ensures s.ByNode? || s.ByNodeLabel? <==> name in {Some(UpgradeByNode), Some(UpgradeByNodeLabel)}
    ensures s.ByNodeLabel? <==> name == Some(UpgradeByNodeLabel) && key.Some?
    ensures s.ByNodeLabel? ==> key == Some(s.key)
    ensures s.Manual? <==> name == Some(UpgradeManual)
  {
    match name
    case Some(UpgradeManual) => Manual
    case Some(UpgradeByNode) => ByNode
    case Some(UpgradeByNodeLabel) => if key.None? then ByNode else ByNodeLabel(key.value)
    case _ => ByPod
  }

  predicate IsOperatorManaged(s: UpgradeStrategy) {
    s.ByNode? || s.ByNodeLabel?
  }

  // ----- Node identifiers --------------------------------------------------------------------------

  /** What identifies a node: its name, or a label, whose values are fixed during a pass. */
  datatype Ids = NodeName | NodeLabel(labels: map<string, string>)

  function Label(labels: map<string, string>, node: string): string {
    if node in labels then labels[node] else ""
  }

  function IdOf(ids: Ids, m: Member): string {
    match ids
    case NodeName => m.node
    case NodeLabel(labels) => Label(labels, m.node)
  }

  /** `PodNodeName` and `PodNodeLabel`. The lookup of a node in `down` fails; any other gives the label
      of the node, or the empty string if it has none. A pass ends at its first failed lookup. */
  class PodNodeIdSupplier {
    const ids: Ids
    const down: set<string>
    var cache: Option<map<string, string>>
    var lookups: seq<string>   // the nodes whose lookup has succeeded, in order

    ghost predicate Valid()
      reads this
    {
      var known := cache.GetOr(map[]);
      && (forall n <- known :: known[n] == Label(Labels(), n) && n !in down)
      && (forall n :: n in known <==> n in lookups)
      && (forall i, j :: 0 <= i < j < |lookups| ==> lookups[i] != lookups[j])
    }

    ghost function Labels(): map<string, string> {
      if ids.NodeLabel? then ids.labels else map[]
    }

    predicate Fails(m: Member) {
      ids.NodeLabel? && m.node in down
    }

    constructor (ids: Ids, down: set<string>)
      ensures Valid() && this.ids == ids && this.down == down && lookups == []
    {
      this.ids, this.down := ids, down;
      cache, lookups := None, [];
    }

    method LookUp(node: string) returns (r: Result<string>)
      requires ids.NodeLabel?
      modifies this`lookups
      ensures node in down ==> r == Err && lookups == old(lookups)
      ensures node !in down ==> r == Ok(Label(ids.labels, node)) && lookups == old(lookups) + [node]
    {
      if node in down {
        return Err;
      }
      lookups := lookups + [node];
      return Ok(Label(ids.labels, node));
    }

    /** The cache makes no difference to the answer, and no node is looked up again once known. */
    method GetNodeId(m: Member) returns (r: Result<string>)
      requires Valid()
      modifies this
      ensures Valid()
      ensures r == if Fails(m) then Err else Ok(IdOf(ids, m))
      ensures r.Err? <==> ids.NodeLabel? && m.node in down
      ensures r.Ok? ==> r.value == if ids.NodeName? then m.node
                                   else if m.node in ids.labels then ids.labels[m.node] else ""
      ensures old(cache).GetOr(map[]).Keys <= cache.GetOr(map[]).Keys
      ensures lookups == old(lookups) +
                if ids.NodeName? || Fails(m) || m.node in old(cache).GetOr(map[]) then [] else [m.node]
    {
      if ids.NodeName? {
        return Ok(m.node);
      }
      if cache.None? {
        cache := Some(map[]);
      } else if m.node in cache.value {
        return Ok(cache.value[m.node]);
      }
      assert m.node !in lookups;
      r := LookUp(m.node);
      if r.Err? {
        return;
      }
      assert forall n :: n in lookups <==> n in old(lookups) || n == m.node;
      cache := Some(cache.value[m.node := r.value]);
    }
  }

  /** The label values of the nodes that a strategy goes by. */
  function IdsFor(s: UpgradeStrategy, nodes: map<string, map<string, string>>): (ids: Ids)
    ensures ids.NodeLabel? <==> s.ByNodeLabel?
    ensures s.ByNodeLabel? ==>
              forall n :: n in ids.labels <==> n in nodes && s.key in nodes[n]
    ensures s.ByNodeLabel? ==> forall n <- ids.labels :: ids.labels[n] == nodes[n][s.key]
  {
    if s.ByNodeLabel? then NodeLabel(map n | n in nodes && s.key in nodes[n] :: nodes[n][s.key]) else NodeName
  }

  // ----- Groups ------------------------------------------------------------------------------------

  /** The Pods with identifier `id`, in order. */
  function InGroup(pods: seq<Member>, ids: Ids, id: string): (r: seq<Member>)
    ensures forall m :: m in r <==> m in pods && IdOf(ids, m) == id
  {
    if pods == [] then []
    else
      var rest := InGroup(pods[..|pods| - 1], ids, id);
      var m := pods[|pods| - 1];
      assert pods == pods[..|pods| - 1] + [m];
      if IdOf(ids, m) == id then rest + [m] else rest
  }

  /** The Pods that are not at `revision`, in order. */
  function OutOfDate(pods: seq<Member>, revision: string): (r: seq<Member>)
    ensures forall m :: m in r <==> m in pods && m.revision != revision
  {
    if pods == [] then []
    else
      var rest := OutOfDate(pods[..|pods| - 1], revision);
      var m := pods[|pods| - 1];
      assert pods == pods[..|pods| - 1] + [m];
      if m.revision != revision then rest + [m] else rest
  }

  ghost function IdSet(pods: seq<Member>, ids: Ids): set<string> {
    set m | m in pods :: IdOf(ids, m)
  }

  /** `groups` is the partition of `pods` by identifier: no empty group, each in list order. */
  ghost predicate IsGrouping(groups: map<string, seq<Member>>, pods: seq<Member>, ids: Ids) {
    && groups.Keys == IdSet(pods, ids)
    && (forall id <- groups :: groups[id] == InGroup(pods, ids, id))
  }

  lemma HeadIsIn(ms: seq<Member>)
    ensures ms == [] || ms[0] in ms
  {
  }

  lemma InGroupOfAppend(pods: seq<Member>, m: Member, ids: Ids, id: string)
    ensures InGroup(pods + [m], ids, id) ==
              if IdOf(ids, m) == id then InGroup(pods, ids, id) + [m] else InGroup(pods, ids, id)
  {
    assert (pods + [m])[..|pods|] == pods;
  }

  lemma IdSetOfAppend(pods: seq<Member>, m: Member, ids: Ids)
    ensures IdSet(pods + [m], ids) == IdSet(pods, ids) + {IdOf(ids, m)}
  {
    assert m in pods + [m];
    assert forall x <- pods :: x in pods + [m];
  }

  lemma NoGroup(pods: seq<Member>, ids: Ids, id: string)
    requires id !in IdSet(pods, ids)
    ensures InGroup(pods, ids, id) == []
  {
    var group := InGroup(pods, ids, id);
    HeadIsIn(group);
    assert forall x <- group :: IdOf(ids, x) in IdSet(pods, ids);
  }

  /** Adding a Pod to the group of its identifier, as `groupPods` does for both maps. */
  method AddTo(groups: map<string, seq<Member>>, id: string, m: Member, ghost pods: seq<Member>, ids: Ids)
    returns (more: map<string, seq<Member>>)
    requires IsGrouping(groups, pods, ids) && id == IdOf(ids, m)
    ensures IsGrouping(more, pods + [m], ids)
  {
    hide InGroup;
    var group := if id in groups then groups[id] else [];
    more := groups[id := group + [m]];
    IdSetOfAppend(pods, m, ids);
    if id !in groups {
      NoGroup(pods, ids, id);
    }
    forall k | k in more ensures more[k] == InGroup(pods + [m], ids, k) {
      InGroupOfAppend(pods, m, ids, k);
    }
  }

  /** `groupPods`: the out-of-date Pods by identifier and all Pods by identifier, or an error. */
  method GroupPods(pods: seq<Member>, revision: string, fn: PodNodeIdSupplier)
    returns (ok: bool, podsById: map<string, seq<Member>>, allPodsById: map<string, seq<Member>>)
    requires fn.Valid()
    modifies fn
    ensures fn.Valid()
    ensures ok <==> forall m <- pods :: !fn.Fails(m)
    ensures ok ==> IsGrouping(allPodsById, pods, fn.ids) && IsGrouping(podsById, OutOfDate(pods, revision), fn.ids)
  {
    podsById, allPodsById := map[], map[];
    for i := 0 to |pods|
      invariant fn.Valid() && forall m <- pods[..i] :: !fn.Fails(m)
      invariant IsGrouping(allPodsById, pods[..i], fn.ids)
      invariant IsGrouping(podsById, OutOfDate(pods[..i], revision), fn.ids)
    {
      var pod := pods[i];
      assert pod in pods;
      var found := fn.GetNodeId(pod);
      if found.Err? {
        return false, map[], map[];
      }
      var id := found.value;
      assert pods[..i + 1] == pods[..i] + [pod] && pods[..i + 1][..i] == pods[..i];
      allPodsById := AddTo(allPodsById, id, pod, pods[..i], fn.ids);
      if pod.revision != revision {
        podsById := AddTo(podsById, id, pod, OutOfDate(pods[..i], revision), fn.ids);
      }
    }
    assert pods[..|pods|] == pods;
    ok := true;
  }

  /** Each out-of-date group is the in-order filter of the full group of its identifier. */
  lemma {:induction false} OutOfDateGroupIsFilter(pods: seq<Member>, revision: string, ids: Ids, id: string)
    ensures InGroup(OutOfDate(pods, revision), ids, id) == OutOfDate(InGroup(pods, ids, id), revision)
  {
    if pods != [] {
      var before, m := pods[..|pods| - 1], pods[|pods| - 1];
      OutOfDateGroupIsFilter(before, revision, ids, id);
      var late, group := OutOfDate(before, revision), InGroup(before, ids, id);
      assert (late + [m])[..|late|] == late;
      assert (group + [m])[..|group|] == group;
    }
  }

  /** The groups together are a permutation of the Pods: each Pod occurs in the group of its own
      identifier as often as in the list, and in no other. */
  lemma {:induction false} GroupsPartition(pods: seq<Member>, ids: Ids, m: Member, id: string)
    ensures multiset(InGroup(pods, ids, id))[m] == if IdOf(ids, m) == id then multiset(pods)[m] else 0
  {
    if pods != [] {
      GroupsPartition(pods[..|pods| - 1], ids, m, id);
      assert pods == pods[..|pods| - 1] + [pods[|pods| - 1]];
    }
  }

  /** Groups keep the order of the list: what comes earlier in it comes earlier in them. */
  lemma {:induction false} GroupsKeepOrder(a: seq<Member>, b: seq<Member>, ids: Ids, id: string)
    ensures InGroup(a + b, ids, id) == InGroup(a, ids, id) + InGroup(b, ids, id)
  {
    hide InGroup, IdOf;
    if b == [] {
      NoGroup(b, ids, id);
      assert a + b == a;
    } else {
      var front, m := b[..|b| - 1], b[|b| - 1];
      GroupsKeepOrder(a, front, ids, id);
      assert b == front + [m] && a + b == (a + front) + [m];
      InGroupOfAppend(a + front, m, ids, id);
      InGroupOfAppend(front, m, ids, id);
    }
  }

  // ----- One pass ----------------------------------------------------------------------------------

  /** The StatefulSet's spec and status, as far as the pass reads them. */
  datatype Target = Target(replicas: Option<int>, ready: int, current: int, updated: int,
                           currentRevision: string, updateRevision: string)

  /** The StatusHA probe the pass uses. */
  datatype Gate = Gate(w: Probe.World, h: Probe.Handler, generated: bool)

  function PodsOf(ms: seq<Member>): seq<Probe.Pod> {
    seq(|ms|, i requires 0 <= i < |ms| => ms[i].pod)
  }

  ghost predicate Safe(g: Gate, t: Target, all: seq<Member>, victims: seq<Member>) {
    Probe.Passes(g.w, t.replicas, g.h, PodsOf(all), PodsOf(victims), Probe.Options(false, g.generated))
  }

  datatype PassResult = Done | Requeue | Failed

  /** The conditions a pass checks before it asks for the list of Pods. */
  predicate Asked(t: Target, lookupEnabled: bool) {
    && (if t.replicas.None? then t.ready != 0 else t.ready == t.replicas.value)
    && t.currentRevision != t.updateRevision
    && lookupEnabled
  }

  /** The conditions a pass checks before it looks for Pods to replace. */
  predicate Due(t: Target, lookupEnabled: bool, listed: Option<seq<Member>>) {
    && Asked(t, lookupEnabled)
    && listed.Some? && listed.value != [] && |listed.value| == t.replicas.GetOr(1)
  }

  /** What one pass may choose to replace: all out-of-date Pods of one identifier when the Pods have
      at least two identifiers between them, or the single Pod there is. */
  ghost predicate Choice(pods: seq<Member>, ids: Ids, revision: string, victims: seq<Member>) {
    && victims != []
    && if |pods| == 1 then victims == OutOfDate(pods, revision)
       else
         && (exists a, b :: a in pods && b in pods && IdOf(ids, a) != IdOf(ids, b))
         && exists id :: victims == InGroup(OutOfDate(pods, revision), ids, id)
  }

  ghost function Elements(ms: seq<Member>): set<Member> {
    set m | m in ms
  }

  /** The node-id lookups that the pass makes all succeed; a single Pod needs none. */
  predicate Resolved(pods: seq<Member>, ids: Ids, down: set<string>) {
    |pods| == 1 || ids.NodeName? || forall m <- pods :: m.node !in down
  }

  /** How far a series of deletions gets: to the first that fails, if any. */
  ghost predicate StopsAt(pods: seq<Member>, stuck: set<Member>, deleted: nat) {
    && deleted <= |pods|
    && (forall i :: 0 <= i < deleted ==> pods[i] !in stuck)
    && (deleted < |pods| ==> pods[deleted] in stuck)
  }

  /** What one pass observes: the StatefulSet, the flag, the Pods if they can be listed, the probe, the
      identifiers, the nodes that cannot be looked up and the Pods that cannot be deleted. */
  datatype View = View(t: Target, lookupEnabled: bool, listed: Option<seq<Member>>, g: Gate,
                       ids: Ids, down: set<string>, stuck: set<Member>)

  /** What a pass does in each case, up to the choice of the identifier. */
  ghost predicate Outcome(v: View, r: PassResult, victims: seq<Member>, deleted: nat) {
    if !Asked(v.t, v.lookupEnabled) then r == Done && victims == []
    else if v.listed.None? then r == Failed && victims == []
    else if !Due(v.t, v.lookupEnabled, v.listed) then r == Done && victims == []
    else if !Resolved(v.listed.value, v.ids, v.down) then r == Failed && victims == []
    else if victims == [] then r == Done && !exists some :: Choice(v.listed.value, v.ids, v.t.updateRevision, some)
    else
      && Choice(v.listed.value, v.ids, v.t.updateRevision, victims)
      && (if Safe(v.g, v.t, v.listed.value, victims)
          then StopsAt(victims, v.stuck, deleted) && r == (if deleted == |victims| then Done else Failed)
          else r == Requeue && deleted == 0)
  }

  /** The Pods that exist, and those that the API will not delete. */
  class PodApi {
    var live: set<Member>
    const stuck: set<Member>

    constructor (pods: set<Member>, stuck: set<Member>)
      ensures live == pods && this.stuck == stuck
    {
      live, this.stuck := pods, stuck;
    }

    method Delete(m: Member) returns (ok: bool)
      modifies this
      ensures ok <==> m !in stuck
      ensures live == if ok then old(live) - {m} else old(live)
    {
      if m in stuck {
        return false;
      }
      live := live - {m};
      return true;
    }

    /** `deletePods` stops at the first deletion that fails. */
    method DeletePods(pods: seq<Member>) returns (ok: bool, ghost deleted: nat)
      modifies this
      ensures StopsAt(pods, stuck, deleted) && (ok <==> deleted == |pods|)
      ensures live == old(live) - Elements(pods[..deleted])
    {
      for i := 0 to |pods|
        invariant forall j :: 0 <= j < i ==> pods[j] !in stuck
        invariant live == old(live) - Elements(pods[..i])
      {
        var one := Delete(pods[i]);
        if !one {
          return false, i;
        }
        assert pods[..i + 1] == pods[..i] + [pods[i]];
      }
      return true, |pods|;
    }

    /** `rollingUpgrade`. `victims` is the list of Pods to be updated, `deleted` how many of them it
        got rid of. Go's map iteration makes the choice of the identifier arbitrary. */
    method Upgrade(t: Target, lookupEnabled: bool, listed: Option<seq<Member>>, g: Gate, fn: PodNodeIdSupplier)
      returns (r: PassResult, ghost victims: seq<Member>, ghost deleted: nat)
      requires fn.Valid()
      modifies this, fn
      ensures fn.Valid()
      ensures deleted <= |victims| && live == old(live) - Elements(victims[..deleted])
      ensures Outcome(View(t, lookupEnabled, listed, g, fn.ids, fn.down, stuck), r, victims, deleted)
      ensures victims != [] ==>
                && lookupEnabled && t.currentRevision != t.updateRevision
                && (t.replicas.None? ==> t.ready != 0) && (t.replicas.Some? ==> t.ready == t.replicas.value)
                && listed.Some? && |listed.value| == t.replicas.GetOr(1)
    {
      hide Choice, Probe.Passes, Resolved, StopsAt;
      r, victims, deleted := Done, [], 0;
      if t.replicas.None? {
        if t.ready == 0 { return; }
      } else if t.ready != t.replicas.value {
        return;
      }
      if t.currentRevision == t.updateRevision || !lookupEnabled {
        return;
      }
      if listed.None? {
        return Failed, [], 0;
      }
      var pods := listed.value;
      if |pods| == 0 || |pods| != t.replicas.GetOr(1) {
        return;
      }
      var failed, podsToUpdate := ChoosePods(pods, t.updateRevision, fn);
      if failed {
        return Failed, [], 0;
      }
      if |podsToUpdate| > 0 {
        victims := podsToUpdate;
        var nodeId := fn.GetNodeId(pods[0]);   // for the log alone
        var probed := Probe.ExecuteProbeForPods(
          g.w, t.replicas, g.h, PodsOf(pods), PodsOf(podsToUpdate), Probe.Options(false, g.generated));
        if probed == Probe.Answer(true) {
          var ok;
          ok, deleted := DeletePods(podsToUpdate);
          if !ok {
            r := Failed;
          }
        } else {
          r := Requeue;
        }
      }
    }
  }

  /** When a pass picks Pods to replace: the StatefulSet has two revisions, the lookup of nodes is
      enabled, as many Pods are listed as there are replicas, the status counts them all ready, and some
      Pod is out of date; several Pods must have two identifiers between them, and none of their nodes
      may fail to be looked up. Nothing else is asked for. */
  lemma PicksWhen(v: View, r: PassResult, victims: seq<Member>, deleted: nat)
    requires Outcome(v, r, victims, deleted)
    ensures victims != [] <==>
              && v.lookupEnabled && v.t.currentRevision != v.t.updateRevision
              && (if v.t.replicas.Some? then v.t.ready == v.t.replicas.value else v.t.ready != 0)
              && v.listed.Some? && |v.listed.value| == (if v.t.replicas.Some? then v.t.replicas.value else 1)
              && (exists m :: m in v.listed.value && m.revision != v.t.updateRevision)
              && (|v.listed.value| == 1 ||
                  (&& (exists a, b :: a in v.listed.value && b in v.listed.value && IdOf(v.ids, a) != IdOf(v.ids, b))
                   && (v.ids.NodeLabel? ==> forall m <- v.listed.value :: m.node !in v.down)))
  {
    if v.listed.Some? && v.listed.value != [] {
      WhenAPassCanAct(v.listed.value, v.ids, v.t.updateRevision);
    }
    hide Choice, Safe, StopsAt;
  }

  /** Which Pods a pass picks: the out-of-date ones of one identifier, all of them and no others, and
      of several Pods some are on another identifier. */
  lemma Picked(v: View, r: PassResult, victims: seq<Member>, deleted: nat)
    requires Outcome(v, r, victims, deleted) && victims != []
    ensures v.listed.Some?
    ensures forall m :: m in victims <==>
              && m in v.listed.value && m.revision != v.t.updateRevision
              && IdOf(v.ids, m) == IdOf(v.ids, victims[0])
    ensures |v.listed.value| > 1 ==> exists m :: m in v.listed.value && IdOf(v.ids, m) != IdOf(v.ids, victims[0])
  {
    hide Safe, StopsAt;
    ChosenIsAll(v.listed.value, v.ids, v.t.updateRevision, victims);
    hide Choice;
    var chosen := VictimsOf(Elements(v.listed.value), v.ids, v.t.updateRevision, IdOf(v.ids, victims[0]));
    assert forall m :: m in victims <==> m in Elements(victims);
    assert forall m :: m in chosen <==>
        && m in v.listed.value && m.revision != v.t.updateRevision
        && IdOf(v.ids, m) == IdOf(v.ids, victims[0]);
  }

  /** How a pass ends. It is deferred exactly if it picked Pods and their probe did not pass; otherwise it
      deletes them in order up to the first that cannot be deleted, and is done if there is none. One
      that picked none fails exactly if the Pods cannot be listed or a node cannot be looked up. */
  lemma PassEnds(v: View, r: PassResult, victims: seq<Member>, deleted: nat)
    requires Outcome(v, r, victims, deleted) && deleted <= |victims|
    ensures r == Requeue ==> deleted == 0
    ensures r == Requeue <==>
              && victims != []
              && !(&& v.listed.Some?
                   && Probe.Passes(v.g.w, v.t.replicas, v.g.h, PodsOf(v.listed.value), PodsOf(victims),
                                   Probe.Options(false, v.g.generated)))
    ensures victims != [] && r != Requeue ==>
              && (forall i :: 0 <= i < deleted ==> victims[i] !in v.stuck)
              && (deleted < |victims| ==> victims[deleted] in v.stuck)
              && (r == Done <==> deleted == |victims|)
    ensures victims == [] ==>
              (r == Failed <==>
                && v.lookupEnabled && v.t.currentRevision != v.t.updateRevision
                && (if v.t.replicas.Some? then v.t.ready == v.t.replicas.value else v.t.ready != 0)
                && (v.listed.None? ||
                    (&& |v.listed.value| == v.t.replicas.GetOr(1) && |v.listed.value| > 1
                     && v.ids.NodeLabel? && exists m :: m in v.listed.value && m.node in v.down)))
  {
    hide Choice, Probe.Passes;
  }

  /** A pass of `maybePatchStatefulSet` that finds the hashes equal. It picks Pods only under a
      strategy that the operator manages, and if the status accounts for every replica: all are ready, and
      all are at one of the two revisions. */
  method MaybeUpgrade(api: PodApi, s: UpgradeStrategy, nodes: map<string, map<string, string>>, down: set<string>,
                      t: Target, lookupEnabled: bool, listed: Option<seq<Member>>, g: Gate)
    returns (r: PassResult, ghost victims: seq<Member>, ghost deleted: nat)
    modifies api
    ensures deleted <= |victims| && api.live == old(api.live) - Elements(victims[..deleted])
    ensures if && (s.ByNode? || s.ByNodeLabel?)
               && t.currentRevision != t.updateRevision
               && (t.replicas.None? ==> t.ready == 1 && t.current == 1)
               && (t.replicas.Some? ==> t.ready == t.replicas.value && t.current + t.updated == t.replicas.value)
            then Outcome(View(t, lookupEnabled, listed, g, IdsFor(s, nodes), down, api.stuck), r, victims, deleted)
            else r == Done && victims == []
  {
    r, victims, deleted := Done, [], 0;
    if !IsOperatorManaged(s) {
      return;
    }
    if t.replicas.None? {
      if t.ready != 1 || t.current != 1 {
        return;
      }
    } else if t.current + t.updated != t.replicas.value || t.ready != t.replicas.value {
      return;
    }
    if t.currentRevision == t.updateRevision {
      return;
    }
    var fn := new PodNodeIdSupplier(IdsFor(s, nodes), down);
    r, victims, deleted := api.Upgrade(t, lookupEnabled, listed, g, fn);
  }

  /** No Pod is deleted unless the whole StatefulSet is up: as many Pods as replicas, every one of them
      up and ready, and one of the Pods about to go has answered the request it got with yes, if there
      was one to send. */
  lemma DeletionNeedsGate(v: View, r: PassResult, victims: seq<Member>, deleted: nat)
    requires Outcome(v, r, victims, deleted) && 0 < deleted <= |victims|
    ensures v.listed.Some? && |v.listed.value| == if v.t.replicas.Some? then v.t.replicas.value else 1
    ensures forall m <- v.listed.value ::
              && !m.pod.terminating && m.pod.phase == "Running"
              && Probe.PodCondition("Ready", "True") in m.pod.conditions
    ensures var h, o := v.g.h, Probe.Options(false, v.g.generated);
            exists m :: m in victims
              && Probe.Refusal(h, m.pod, o).None?
              && (h.http.Some? || h.exec || h.httpGet.Some? || h.tcp ==>
                    v.g.w.send(m.pod, Probe.ActiveHandler(h, m.pod, o)) == Ok(true))
  {
    PicksWhen(v, r, victims, deleted);
    PassEnds(v, r, victims, deleted);
    hide Outcome;
    var h, o := v.g.h, Probe.Options(false, v.g.generated);
    var pods := v.listed.value;
    assert PodsOf(pods) != [];
    Probe.PassesMeans(v.g.w, v.t.replicas, h, PodsOf(pods), PodsOf(victims), o);
    var k :| 0 <= k < |victims| && Probe.SaysYes(v.g.w, h, PodsOf(victims)[k], o);
    assert victims[k] in victims && PodsOf(victims)[k] == victims[k].pod;
    hide Probe.Passes, Probe.Refusal, Probe.ActiveHandler;
    forall m | m in pods
      ensures !m.pod.terminating && m.pod.phase == "Running"
      ensures Probe.PodCondition("Ready", "True") in m.pod.conditions
    {
      var i :| 0 <= i < |pods| && pods[i] == m;
      assert PodsOf(pods)[i] == m.pod && m.pod in PodsOf(pods);
    }
  }

  /** The middle of `rollingUpgrade`: which Pods to replace in this pass. */
  method ChoosePods(pods: seq<Member>, revision: string, fn: PodNodeIdSupplier)
    returns (failed: bool, podsToUpdate: seq<Member>)
    requires fn.Valid() && pods != []
    modifies fn
    ensures fn.Valid()
    ensures failed <==> !Resolved(pods, fn.ids, fn.down)
    ensures !failed && podsToUpdate != [] ==> Choice(pods, fn.ids, revision, podsToUpdate)
    ensures !failed && podsToUpdate == [] ==> !exists some :: Choice(pods, fn.ids, revision, some)
  {
    failed, podsToUpdate := false, [];
    if |pods| > 1 {
      var ok, podsById, allPodsById := GroupPods(pods, revision, fn);
      if !ok {
        return true, [];
      }
      if |podsById| == 0 {
        NothingOutOfDate(pods, revision, fn.ids, podsById);
        return;
      }
      if |allPodsById| == 1 {
        OneIdentifier(pods, fn.ids, allPodsById);
        var found := fn.GetNodeId(pods[0]);
        failed := found.Err?;
        return;
      }
      var node :| node in podsById.Keys;
      podsToUpdate := podsById[node];
      SeveralIdentifiers(pods, fn.ids, allPodsById);
      var m :| m in OutOfDate(pods, revision) && IdOf(fn.ids, m) == node;
      assert m in podsToUpdate;
    } else {
      assert pods[..0] == [];
      if pods[0].revision != revision {
        podsToUpdate := [pods[0]];
      }
    }
  }

  lemma NothingOutOfDate(pods: seq<Member>, revision: string, ids: Ids, podsById: map<string, seq<Member>>)
    requires IsGrouping(podsById, OutOfDate(pods, revision), ids) && |podsById| == 0
    ensures !exists some :: Choice(pods, ids, revision, some)
  {
    var late := OutOfDate(pods, revision);
    HeadIsIn(late);
    assert forall m <- late :: IdOf(ids, m) in podsById.Keys;
    assert late == [];
    assert forall id :: InGroup(late, ids, id) == [];
  }

  lemma OneIdentifier(pods: seq<Member>, ids: Ids, all: map<string, seq<Member>>)
    requires IsGrouping(all, pods, ids) && |all| == 1
    ensures forall a, b | a in pods && b in pods :: IdOf(ids, a) == IdOf(ids, b)
  {
    var id :| id in all;
    assert all.Keys == {id} by {
      assert |all.Keys - {id}| == 0;
    }
    forall m | m in pods ensures IdOf(ids, m) == id {
      assert IdOf(ids, m) in all.Keys;
    }
  }

  lemma SeveralIdentifiers(pods: seq<Member>, ids: Ids, all: map<string, seq<Member>>)
    requires IsGrouping(all, pods, ids) && |all| != 1 && pods != []
    ensures exists a, b :: a in pods && b in pods && IdOf(ids, a) != IdOf(ids, b)
  {
    var a := pods[0];
    var id := IdOf(ids, a);
    assert id in all.Keys;
    assert |all.Keys - {id}| > 0;
    var other :| other in all.Keys - {id};
    var b :| b in pods && IdOf(ids, b) == other;
  }

  predicate Elsewhere(m: Member, gone: seq<Member>, ids: Ids) {
    forall v <- gone :: IdOf(ids, v) != IdOf(ids, m)
  }

  /** Whatever a pass deletes, and wherever it stops, is out of date and on one identifier; with
      several Pods, those of some other identifier are all still there. */
  lemma ChoiceIsConfined(pods: seq<Member>, ids: Ids, revision: string, victims: seq<Member>, deleted: nat)
    requires Choice(pods, ids, revision, victims) && deleted <= |victims|
    ensures forall m <- victims[..deleted] :: m in pods && m.revision != revision
    ensures forall a, b :: a in victims[..deleted] && b in victims[..deleted] ==> IdOf(ids, a) == IdOf(ids, b)
    ensures |pods| > 1 ==> exists m :: m in pods && Elsewhere(m, victims[..deleted], ids)
  {
    assert forall m <- victims[..deleted] :: m in victims;
    if |pods| == 1 {
      assert forall m <- victims :: m == pods[0];
    } else {
      var a, b :| a in pods && b in pods && IdOf(ids, a) != IdOf(ids, b);
      var id :| victims == InGroup(OutOfDate(pods, revision), ids, id);
      var witness' := if IdOf(ids, a) != id then a else b;
      assert Elsewhere(witness', victims[..deleted], ids);
    }
  }

  // ----- Repeated passes ---------------------------------------------------------------------------

  /** The identifiers that still hold out-of-date Pods. */
  ghost function OutdatedIds(pods: set<Member>, ids: Ids, revision: string): set<string> {
    set m | m in pods && m.revision != revision :: IdOf(ids, m)
  }

  ghost function Outdated(pods: set<Member>, revision: string): set<Member> {
    set m | m in pods && m.revision != revision
  }

  ghost function VictimsOf(pods: set<Member>, ids: Ids, revision: string, id: string): set<Member> {
    set m | m in pods && m.revision != revision && IdOf(ids, m) == id
  }

  ghost predicate AllAt(pods: set<Member>, revision: string) {
    forall m <- pods :: m.revision == revision
  }

  /** A pass that picked `id` deleted `gone`, and the StatefulSet controller has recreated as many
      Pods at the update revision, on whatever nodes the scheduler liked. */
  ghost predicate Replaced(before: set<Member>, after: set<Member>, ids: Ids, revision: string, id: string,
        gone: set<Member>) {
    && id in OutdatedIds(before, ids, revision)
    && gone != {} && gone <= VictimsOf(before, ids, revision, id)
    && Recreated(before, gone, after, revision)
  }

  /** The StatefulSet controller's answer to a pass: as many Pods as are gone come back, at `revision`. */
  ghost predicate Recreated(before: set<Member>, gone: set<Member>, after: set<Member>, revision: string) {
    exists recreated: set<Member> ::
      after == (before - gone) + recreated && |recreated| == |gone| && AllAt(recreated, revision)
  }

  /** Every pass that deletes something, wherever it stops, is such a step on one identifier; it takes
      all of that identifier's out-of-date Pods unless it reports an error. */
  lemma DeletingPassReplaces(v: View, r: PassResult, victims: seq<Member>, deleted: nat, after: set<Member>)
    requires Outcome(v, r, victims, deleted) && 0 < deleted <= |victims|
    requires Recreated(Elements(v.listed.value), Elements(victims[..deleted]), after, v.t.updateRevision)
    ensures var before, revision := Elements(v.listed.value), v.t.updateRevision;
            var id := IdOf(v.ids, victims[0]);
            && Replaced(before, after, v.ids, revision, id, Elements(victims[..deleted]))
            && PartialPass(before, after, v.ids, revision)
            && (r == Done ==> Replaced(before, after, v.ids, revision, id, VictimsOf(before, v.ids, revision, id)))
  {
    OutcomeIsChoice(v, r, victims, deleted);
    hide Outcome;
    var pods, revision := v.listed.value, v.t.updateRevision;
    var id := IdOf(v.ids, victims[0]);
    ChosenIsAll(pods, v.ids, revision, victims);
    hide Choice, Recreated;
    assert victims[0] in victims[..deleted] && victims[0] in victims;
    assert victims[0] in VictimsOf(Elements(pods), v.ids, revision, id);
    assert Replaced(Elements(pods), after, v.ids, revision, id, Elements(victims[..deleted]));
    assert victims[..|victims|] == victims;
  }

  lemma OutcomeIsChoice(v: View, r: PassResult, victims: seq<Member>, deleted: nat)
    requires Outcome(v, r, victims, deleted) && 0 < deleted <= |victims|
    ensures v.listed.Some? && Choice(v.listed.value, v.ids, v.t.updateRevision, victims)
    ensures r == Done ==> deleted == |victims|
  {
    hide Choice, Safe, StopsAt;
  }

  lemma ChosenIsAll(pods: seq<Member>, ids: Ids, revision: string, victims: seq<Member>)
    requires Choice(pods, ids, revision, victims)
    ensures Elements(victims) == VictimsOf(Elements(pods), ids, revision, IdOf(ids, victims[0]))
  {
    var first := victims[0];
    var chosen := VictimsOf(Elements(pods), ids, revision, IdOf(ids, first));
    var late := OutOfDate(pods, revision);
    assert first in victims;
    forall m ensures m in victims <==> m in late && IdOf(ids, m) == IdOf(ids, first) {
      if |pods| == 1 {
        assert forall x <- pods :: x == pods[0];
      }
    }
    assert forall m :: m in late <==> m in Elements(pods) && m.revision != revision;
    assert forall m :: m in Elements(victims) <==> m in chosen;
  }

  /** A complete pass takes exactly the chosen identifier off the list. */
  lemma CompletePass(before: set<Member>, after: set<Member>, ids: Ids, revision: string, id: string)
    requires Replaced(before, after, ids, revision, id, VictimsOf(before, ids, revision, id))
    ensures OutdatedIds(after, ids, revision) == OutdatedIds(before, ids, revision) - {id}
  {
    var gone := VictimsOf(before, ids, revision, id);
    var recreated: set<Member> :| after == (before - gone) + recreated && |recreated| == |gone|
        && AllAt(recreated, revision);
    forall k ensures k in OutdatedIds(after, ids, revision) <==> k in OutdatedIds(before, ids, revision) - {id} {
      if k in OutdatedIds(after, ids, revision) {
        var m :| m in after && m.revision != revision && IdOf(ids, m) == k;
        assert m in before - gone;
      }
      if k in OutdatedIds(before, ids, revision) - {id} {
        var m :| m in before && m.revision != revision && IdOf(ids, m) == k;
        assert m in after;
      }
    }
  }

  /** A history of passes: `states[i + 1]` is what pass `i`, which picked `chosen[i]`, left. */
  ghost predicate CompleteRun(states: seq<set<Member>>, chosen: seq<string>, ids: Ids, revision: string) {
    && |states| == |chosen| + 1
    && forall i :: 0 <= i < |chosen| ==>
         Replaced(states[i], states[i + 1], ids, revision, chosen[i], VictimsOf(states[i], ids, revision, chosen[i]))
  }

  ghost predicate PartialPass(before: set<Member>, after: set<Member>, ids: Ids, revision: string) {
    exists id, gone :: Replaced(before, after, ids, revision, id, gone)
  }

  ghost predicate PartialRun(states: seq<set<Member>>, ids: Ids, revision: string) {
    forall i :: 0 <= i < |states| - 1 ==> PartialPass(states[i], states[i + 1], ids, revision)
  }

  /** Even when deletions stop partway, no run has more deleting passes than out-of-date Pods. */
  lemma {:induction false} PartialRunsEnd(states: seq<set<Member>>, ids: Ids, revision: string)
    requires PartialRun(states, ids, revision) && |states| > 0
    ensures |states| - 1 + |Outdated(states[|states| - 1], revision)| <= |Outdated(states[0], revision)|
    decreases |states|
  {
    if |states| > 1 {
      var n := |states| - 2;
      assert PartialRun(states[..|states| - 1], ids, revision);
      PartialRunsEnd(states[..|states| - 1], ids, revision);
      var id, gone :| Replaced(states[n], states[n + 1], ids, revision, id, gone);
      var recreated: set<Member> :| states[n + 1] == (states[n] - gone) + recreated && |recreated| == |gone|
          && AllAt(recreated, revision);
      assert Outdated(states[n + 1], revision) == Outdated(states[n], revision) - gone;
      assert gone <= Outdated(states[n], revision);
    }
  }

  /** There is something to replace exactly when some Pod is out of date and it is the only one, or the
      Pods have two identifiers between them. */
  lemma WhenAPassCanAct(pods: seq<Member>, ids: Ids, revision: string)
    requires pods != []
    ensures (exists victims :: Choice(pods, ids, revision, victims)) <==>
              && (exists m :: m in pods && m.revision != revision)
              && (|pods| == 1 || exists a, b :: a in pods && b in pods && IdOf(ids, a) != IdOf(ids, b))
  {
    if m :| m in pods && m.revision != revision {
      var late := OutOfDate(pods, revision);
      assert m in late && m in InGroup(late, ids, IdOf(ids, m));
      if |pods| == 1 {
        assert Choice(pods, ids, revision, late);
      } else if a, b :| a in pods && b in pods && IdOf(ids, a) != IdOf(ids, b) {
        assert Choice(pods, ids, revision, InGroup(late, ids, IdOf(ids, m)));
      }
    } else {
      HeadIsIn(OutOfDate(pods, revision));
    }
  }

  // ----- From passes to the finished upgrade ---------------------------------------------------------

  datatype Pass = Pass(v: View, r: PassResult, victims: seq<Member>, deleted: nat)

  /** The pass took `before` to what it deleted and the StatefulSet controller brought back. */
  ghost predicate Step(before: set<Member>, p: Pass, after: set<Member>, ids: Ids, revision: string) {
    && p.v.ids == ids && p.v.t.updateRevision == revision
    && p.v.listed.Some? && Elements(p.v.listed.value) == before
    && p.deleted <= |p.victims| && Outcome(p.v, p.r, p.victims, p.deleted)
    && Recreated(before, Elements(p.victims[..p.deleted]), after, revision)
  }

  ghost predicate IsHistory(states: seq<set<Member>>, passes: seq<Pass>, ids: Ids, revision: string) {
    && |states| == |passes| + 1
    && forall i :: 0 <= i < |passes| ==> StepAt(states, passes, i, ids, revision)
  }

  ghost predicate StepAt(states: seq<set<Member>>, passes: seq<Pass>, i: nat, ids: Ids, revision: string)
    requires i < |passes| && |states| == |passes| + 1
  {
    Step(states[i], passes[i], states[i + 1], ids, revision)
  }

  ghost predicate TwoIdentifiers(pods: seq<Member>, ids: Ids) {
    exists a, b :: a in pods && b in pods && IdOf(ids, a) != IdOf(ids, b)
  }

  /** The pass finds the lookup enabled, two revisions, as many Pods as replicas, all of them ready by the
      status, and something to choose from; and it meets no error and no deferral. */
  ghost predicate Effective(p: Pass) {
    && p.v.lookupEnabled && p.v.t.currentRevision != p.v.t.updateRevision
    && (if p.v.t.replicas.Some? then p.v.t.ready == p.v.t.replicas.value else p.v.t.ready != 0)
    && p.v.listed.Some? && p.v.listed.value != [] && |p.v.listed.value| == p.v.t.replicas.GetOr(1)
    && (|p.v.listed.value| == 1 || TwoIdentifiers(p.v.listed.value, p.v.ids))
    && p.r == Done
  }

  lemma NoneOutdated(pods: set<Member>, ids: Ids, revision: string)
    ensures AllAt(pods, revision) <==> OutdatedIds(pods, ids, revision) == {}
    ensures AllAt(pods, revision) <==> |OutdatedIds(pods, ids, revision)| == 0
  {
    if !AllAt(pods, revision) {
      var m :| m in pods && m.revision != revision;
      assert IdOf(ids, m) in OutdatedIds(pods, ids, revision);
    }
  }

  /** When every Pod is at the revision a pass leaves them all alone. */
  lemma FinishedStep(before: set<Member>, p: Pass, after: set<Member>, ids: Ids, revision: string)
    requires Step(before, p, after, ids, revision) && AllAt(before, revision)
    ensures after == before
  {
    NoChoice(p.v.listed.value, ids, revision, p.victims);
    hide Choice, Safe;
    assert Elements(p.victims[..p.deleted]) == {};
  }

  lemma NoChoice(pods: seq<Member>, ids: Ids, revision: string, victims: seq<Member>)
    requires AllAt(Elements(pods), revision)
    ensures !Choice(pods, ids, revision, victims)
  {
    assert forall m <- pods :: m in Elements(pods);
    HeadIsIn(victims);
  }

  /** Any other effective pass settles one identifier. */
  lemma EffectiveStep(before: set<Member>, p: Pass, after: set<Member>, ids: Ids, revision: string)
    requires Step(before, p, after, ids, revision) && !AllAt(before, revision) && Effective(p)
    ensures |OutdatedIds(after, ids, revision)| == |OutdatedIds(before, ids, revision)| - 1
  {
    EffectivePassActs(p, before);
    hide Outcome, Effective, Replaced;
    DeletingPassReplaces(p.v, p.r, p.victims, p.deleted, after);
    ReplacedCompletely(before, after, ids, revision, IdOf(ids, p.victims[0]));
  }

  lemma EffectivePassActs(p: Pass, before: set<Member>)
    requires p.v.listed.Some? && Elements(p.v.listed.value) == before && !AllAt(before, p.v.t.updateRevision)
    requires p.deleted <= |p.victims| && Outcome(p.v, p.r, p.victims, p.deleted) && Effective(p)
    ensures p.r == Done && 0 < p.deleted == |p.victims|
  {
    var m :| m in before && m.revision != p.v.t.updateRevision;
    WhenAPassCanAct(p.v.listed.value, p.v.ids, p.v.t.updateRevision);
    hide Choice, Safe;
  }

  lemma ReplacedCompletely(before: set<Member>, after: set<Member>, ids: Ids, revision: string, id: string)
    requires Replaced(before, after, ids, revision, id, VictimsOf(before, ids, revision, id))
    ensures |OutdatedIds(after, ids, revision)| == |OutdatedIds(before, ids, revision)| - 1
  {
    CompletePass(before, after, ids, revision, id);
  }

  /** The upgrade as a whole: whatever identifiers the passes pick, as long as each is effective while
      something is out of date, every Pod is at the revision after exactly as many passes as identifiers
      held out-of-date Pods at the start, not before, and ever after. */
  lemma UpgradeFinishes(states: seq<set<Member>>, passes: seq<Pass>, ids: Ids, revision: string)
    requires IsHistory(states, passes, ids, revision)
    requires forall i :: 0 <= i < |passes| && !AllAt(states[i], revision) ==> Effective(passes[i])
    ensures forall n :: 0 <= n <= |passes| ==>
              (AllAt(states[n], revision) <==> n >= |OutdatedIds(states[0], ids, revision)|)
  {
    forall i | 0 <= i < |passes| ensures Counts(states, i, ids, revision) {
      assert StepAt(states, passes, i, ids, revision);
      OneStep(states[i], passes[i], states[i + 1], ids, revision);
    }
    forall n | 0 <= n <= |passes|
      ensures AllAt(states[n], revision) <==> n >= |OutdatedIds(states[0], ids, revision)|
    {
      CountedDown(states, ids, revision, n);
      NoneOutdated(states[n], ids, revision);
    }
  }

  ghost function Left(states: seq<set<Member>>, i: nat, ids: Ids, revision: string): nat
    requires i < |states|
  {
    |OutdatedIds(states[i], ids, revision)|
  }

  /** The step at `i` settles one identifier if one is left. */
  ghost predicate Counts(states: seq<set<Member>>, i: nat, ids: Ids, revision: string)
    requires i + 1 < |states|
  {
    var k := Left(states, i, ids, revision);
    Left(states, i + 1, ids, revision) == if k > 0 then k - 1 else 0
  }

  lemma {:induction false} CountedDown(states: seq<set<Member>>, ids: Ids, revision: string, n: nat)
    requires n < |states| && forall i :: 0 <= i < n ==> Counts(states, i, ids, revision)
    ensures var k := Left(states, 0, ids, revision); Left(states, n, ids, revision) == if n < k then k - n else 0
  {
    hide Left;
    if n > 0 {
      CountedDown(states, ids, revision, n - 1);
      assert Counts(states, n - 1, ids, revision);
    }
  }

  lemma OneStep(before: set<Member>, p: Pass, after: set<Member>, ids: Ids, revision: string)
    requires Step(before, p, after, ids, revision) && (AllAt(before, revision) || Effective(p))
    ensures var k := |OutdatedIds(before, ids, revision)|;
            |OutdatedIds(after, ids, revision)| == if k > 0 then k - 1 else 0
  {
    hide Step, Effective, AllAt, OutdatedIds;
    NoneOutdated(before, ids, revision);
    if AllAt(before, revision) {
      FinishedStep(before, p, after, ids, revision);
    } else {
      EffectiveStep(before, p, after, ids, revision);
    }
  }

  /** Whatever identifiers are picked, each complete pass settles exactly one of those that held
      out-of-date Pods at the start: the upgrade is finished after precisely that many passes. */
  lemma PassCount(states: seq<set<Member>>, chosen: seq<string>, ids: Ids, revision: string)
    requires CompleteRun(states, chosen, ids, revision)
    ensures |OutdatedIds(states[|chosen|], ids, revision)| == |OutdatedIds(states[0], ids, revision)| - |chosen|
    ensures |chosen| == |OutdatedIds(states[0], ids, revision)| <==> AllAt(states[|chosen|], revision)
  {
    forall i | 0 <= i < |chosen| ensures Left(states, i, ids, revision) > 0 && Counts(states, i, ids, revision) {
      ReplacedCompletely(states[i], states[i + 1], ids, revision, chosen[i]);
      assert chosen[i] in OutdatedIds(states[i], ids, revision);
    }
    CountedDown(states, ids, revision, |chosen|);
    if chosen != [] {
      CountedDown(states, ids, revision, |chosen| - 1);
    }
    NoneOutdated(states[|chosen|], ids, revision);
  }
}
