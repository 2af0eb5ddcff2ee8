/** Scaling a StatefulSet: one reconcile pass of `updateStatefulSet` and the three policies under it.
    The Pods, the probe answers, the outcome of each API call and whether a three-way patch has
    content are what a pass observes. */
module Scaling {
  import opened Wrappers
  import Probe

  datatype Policy = Safe | Parallel | ParallelUpSafeDown | Unrecognised

  /** What the resource's spec says about scaling. */
  datatype ScalingSpec = ScalingSpec(policy: Option<Policy>, storageEnabled: Option<bool>)

  /** `GetEffectiveScalingPolicy`: an explicit policy, else by whether storage is enabled; without a
      spec it is the safe one. */
  function EffectivePolicy(spec: Option<ScalingSpec>): (p: Policy)
    ensures spec.Some? && spec.value.policy.Some? ==> p == spec.value.policy.value
    ensures p == Safe ==> spec.None? || spec.value.policy == Some(Safe)
    ensures spec.Some? && spec.value.policy.None? ==>
              p in {Parallel, ParallelUpSafeDown} && (p == Parallel <==> spec.value.storageEnabled == Some(false))
  {
    match spec
    case None => Safe
    case Some(s) =>
      match s.policy
      case Some(p) => p
      case None => if s.storageEnabled.GetOr(true) then ParallelUpSafeDown else Parallel
  }

  /** The update strategy of the StatefulSet: whether its type is RollingUpdate, and the partition if
      one is set. */
  datatype Strategy = Strategy(rolling: bool, partition: Option<int>)

  /** `legacy`: the version annotation is missing or at most 3.4.3. */
  datatype StatefulSet = StatefulSet(
    replicas: Option<int>, strategy: Strategy, template: string, hash: string, legacy: bool)

  function GetReplicas(s: StatefulSet): (n: int)
    ensures s.replicas in {None, Some(n)}
    ensures s.replicas.None? ==> n == 1
  {
    s.replicas.GetOr(1)
  }

  /** Everything one pass learns from outside. `hash` is the hash label of the store. */
  datatype Env = Env(
    obs: Probe.Observation,
    ready: int,              // ready replicas in the StatefulSet's status
    hash: string,
    valid: bool,             // the update passes validation and a patch can be computed
    hasPatch: bool,          // the three-way patch is not empty
    haBeforeUpdate: bool,
    patchOk: bool,           // the API accepts the update patch
    scaleOk: bool,           // the API accepts the scaling patch
    surfaces: bool)          // the common error handler hands an error back instead of absorbing it

  datatype PassResult = Done | Requeue | Failed

  function Min(a: int, b: int): (m: int)
    ensures m <= a && m <= b && m in {a, b}
  {
    if a < b then a else b
  }

  /** The StatefulSet scaled to `n`: a rolling update may only reach Pods that this step creates or
      that it removes. */
  function ScaledTo(s: StatefulSet, n: int): StatefulSet {
    s.(replicas := Some(n),
       strategy := if s.strategy.rolling then Strategy(true, Some(Min(GetReplicas(s), n))) else s.strategy)
  }

  ghost predicate GateOpen(s: StatefulSet, env: Env) {
    GetReplicas(s) == 1 || Probe.StatusHA(env.obs, s.replicas)
  }

  /** The replica count a scaling pass aims for, if it does anything. */
  ghost function Goal(s: StatefulSet, policy: Policy, desired: int, env: Env): Option<int> {
    var current := GetReplicas(s);
    if policy == Parallel || (policy == ParallelUpSafeDown && desired > current) then Some(desired)
    else if !GateOpen(s, env) then None
    else if desired > current then Some(current + 1)
    else Some(current - 1)
  }

  ghost function AfterScale(s: StatefulSet, policy: Policy, desired: int, env: Env): StatefulSet {
    match Goal(s, policy, desired, env)
    case Some(n) => if env.scaleOk then ScaledTo(s, n) else s
    case None => s
  }

  /** Whether the cluster is in a state that a patch may be sent in. */
  ghost predicate HaEnough(s: StatefulSet, env: Env) {
    env.haBeforeUpdate ==> env.ready == GetReplicas(s) && Probe.StatusHA(env.obs, s.replicas)
  }

  /** Whether `maybePatchStatefulSet` gets as far as sending its patch. */
  ghost predicate PatchGate(s: StatefulSet, env: Env) {
    s.hash != env.hash && env.valid && env.hasPatch && HaEnough(s, env)
  }

  /** A patch replaces the StatefulSet by the desired one, except for the replica count, which only
      `allowScale` lets through. */
  ghost function AfterPatch(s: StatefulSet, desired: StatefulSet, allowScale: bool, env: Env): StatefulSet {
    if PatchGate(s, env) && env.patchOk
    then desired.(replicas := if allowScale then desired.replicas else s.replicas)
    else s
  }

  /** Whether the patch ends in an error that the caller gets to see: an API error goes to the common
      error handler, which absorbs it unless its own bookkeeping fails. */
  ghost predicate PatchFails(s: StatefulSet, env: Env) {
    s.hash != env.hash && (!env.valid || (PatchGate(s, env) && !env.patchOk && env.surfaces))
  }

  /** What the pre-3.4.3 branch asks the patch to do: hold the partition at the current count. */
  function Guarded(s: StatefulSet, desired: StatefulSet): StatefulSet {
    desired.(strategy := Strategy(desired.strategy.rolling, Some(GetReplicas(s))), legacy := false)
  }

  /** One pass of `updateStatefulSet` when the store holds `desired`. */
  ghost function Pass(s: StatefulSet, desired: StatefulSet, policy: Policy, env: Env): StatefulSet {
    var goal := GetReplicas(desired);
    if GetReplicas(s) == goal then AfterPatch(s, desired, false, env)
    else if !s.legacy then AfterScale(s, policy, goal, env)
    else if GetReplicas(s) < goal then AfterPatch(s, Guarded(s, desired), true, env)
    else if PatchFails(s, env) then s
    else AfterScale(AfterPatch(s, Guarded(s, desired), false, env), policy, goal, env)
  }

  // ----- The source's methods ----------------------------------------------------------------------

  /** The API server's copy of the StatefulSet. */
  class Cluster {
    var sts: StatefulSet

    constructor (s: StatefulSet)
      ensures sts == s
    {
      sts := s;
    }

    /** A successful patch makes the object take the desired value. */
    method Patch(desired: StatefulSet, accepted: bool) returns (ok: bool)
      modifies this
      ensures ok == accepted
      ensures sts == if accepted then desired else old(sts)
    {
      ok := accepted;
      if accepted { sts := desired; }
    }
  }

  class ReconcileStatefulSet {
    const cluster: Cluster

    constructor (c: Cluster)
      ensures cluster == c
    {
      cluster := c;
    }

    method ParallelScale(sts: StatefulSet, replicas: int, env: Env) returns (r: PassResult)
      requires sts == cluster.sts
      modifies cluster
      ensures cluster.sts == if env.scaleOk then ScaledTo(sts, replicas) else sts
      ensures r == if !env.scaleOk then Failed else if GetReplicas(sts) > replicas then Requeue else Done
    {
      var desired := sts;
      var current := if desired.replicas.Some? then desired.replicas.value else 1;
      var scaleDown := current > replicas;
      if desired.strategy.rolling {
        if scaleDown {
          desired := desired.(strategy := Strategy(true, Some(replicas)));
        } else {
          desired := desired.(strategy := Strategy(true, Some(current)));
        }
      }
      desired := desired.(replicas := Some(replicas));
      var ok := cluster.Patch(desired, env.scaleOk);
      if !ok {
        return Failed;
      }
      return if scaleDown then Requeue else Done;
    }

    method SafeScale(sts: StatefulSet, desired: int, current: int, env: Env) returns (r: PassResult)
      requires sts == cluster.sts && current == GetReplicas(sts)
      modifies cluster
      ensures cluster.sts == AfterScale(sts, Safe, desired, env)
      ensures r == if GateOpen(sts, env) && !env.scaleOk && env.surfaces then Failed
                   else if GateOpen(sts, env) && env.scaleOk && GetReplicas(cluster.sts) == desired then Done
                   else Requeue
    {
      var ha := current == 1;
      if !ha {
        ha := Probe.IsStatusHA(true, env.obs, sts.replicas);
      }
      if ha {
        var replicas := if desired > current then current + 1 else current - 1;
        var scaled := ParallelScale(sts, replicas, env);
        if scaled != Failed {
          return if replicas == desired then Done else Requeue;
        }
        return if env.surfaces then Failed else Requeue;
      }
      return Requeue;
    }

    method Scale(sts: StatefulSet, current: int, desired: int, spec: Option<ScalingSpec>, env: Env)
      returns (r: PassResult)
      requires sts == cluster.sts && current == GetReplicas(sts)
      modifies cluster
      ensures cluster.sts == AfterScale(sts, EffectivePolicy(spec), desired, env)
      ensures r == Failed ==> cluster.sts == sts && Goal(sts, EffectivePolicy(spec), desired, env).Some?
    {
      match EffectivePolicy(spec)
      case Safe => r := SafeScale(sts, desired, current, env);
      case Parallel => r := ParallelScale(sts, desired, env);
      case ParallelUpSafeDown =>
        if desired > current {
          r := ParallelScale(sts, desired, env);
        } else {
          r := SafeScale(sts, desired, current, env);
        }
      case Unrecognised => r := SafeScale(sts, desired, current, env);
    }

    /** `maybePatchStatefulSet`. When the hashes match the operator may replace Pods, but it does not
        touch the StatefulSet. */
    method MaybePatch(current: StatefulSet, desired: StatefulSet, allowScale: bool, env: Env) returns (r: PassResult)
      requires current == cluster.sts
      modifies cluster
      ensures cluster.sts == AfterPatch(current, desired, allowScale, env)
      ensures r == Failed <==>
                && current.hash != env.hash
                && (!env.valid || (env.hasPatch && HaEnough(current, env) && !env.patchOk && env.surfaces))
      ensures r == Requeue <==>
                && current.hash != env.hash && env.valid && env.hasPatch
                && (!HaEnough(current, env) || (!env.patchOk && !env.surfaces))
      ensures r != Done ==> cluster.sts == current
    {
      if current.hash == env.hash {
        return Done;
      }
      var currentReplicas := GetReplicas(current);
      if !env.valid {
        return Failed;
      }
      var target := desired;
      if !allowScale {
        target := target.(replicas := current.replicas);
      }
      if !env.hasPatch {
        return Done;
      }
      if env.haBeforeUpdate {
        if env.ready != currentReplicas {
          return Requeue;
        }
        var ha := Probe.IsStatusHA(true, env.obs, current.replicas);
        if !ha {
          return Requeue;
        }
      }
      var patched := cluster.Patch(target, env.patchOk);
      if !patched {
        return if env.surfaces then Failed else Requeue;
      }
      return Done;
    }

    /** `updateStatefulSet`; nothing is stored if the entry is missing or asks for a deletion. A pass
        that finds a different replica count is followed by another one, unless it is the pre-3.4.3
        scale-up. */
    method UpdateStatefulSet(stored: Option<StatefulSet>, spec: Option<ScalingSpec>, env: Env) returns (r: PassResult)
      modifies cluster
      ensures cluster.sts == match stored
                             case Some(desired) => Pass(old(cluster.sts), desired, EffectivePolicy(spec), env)
                             case None => old(cluster.sts)
      ensures stored.None? ==> r == Requeue
      ensures stored.Some? && GetReplicas(old(cluster.sts)) != GetReplicas(stored.value) && r == Done ==>
                old(cluster.sts).legacy && GetReplicas(old(cluster.sts)) < GetReplicas(stored.value)
    {
      if stored.None? {
        return Requeue;
      }
      var desired := stored.value;
      var current := cluster.sts;
      var desiredReplicas := GetReplicas(desired);
      var currentReplicas := GetReplicas(current);
      if currentReplicas != desiredReplicas {
        if current.legacy {
          var strategy := desired.strategy.(partition := Some(currentReplicas));
          var guarded := desired.(strategy := strategy, legacy := false);
          if currentReplicas < desiredReplicas {
            r := MaybePatch(current, guarded, true, env);
            return;
          }
          r := MaybePatch(current, guarded, false, env);
          if r == Failed {
            return;
          }
          // the client refreshes the object it patched
          current := cluster.sts;
        }
        r := Scale(current, currentReplicas, desiredReplicas, spec, env);
        if r != Failed {
          r := Requeue;
        }
      } else {
        r := MaybePatch(current, desired, false, env);
      }
    }
  }

  // ----- One pass ----------------------------------------------------------------------------------

  /** The passes that go through `safeScale`: everything but a parallel policy, or going down under
      the mixed one; and not the pre-3.4.3 scale-up, which ignores the policy. */
  predicate SafelyScaled(s: StatefulSet, desired: StatefulSet, policy: Policy) {
    var current, goal := GetReplicas(s), GetReplicas(desired);
    && policy != Parallel
    && (policy == ParallelUpSafeDown ==> goal <= current)
    && (s.legacy ==> goal <= current)
  }

  function Distance(a: int, b: int): nat {
    if a < b then b - a else a - b
  }

  function Toward(current: int, goal: int): int {
    if current < goal then current + 1 else if current > goal then current - 1 else current
  }

  /** Whether a pass that has somewhere to go may go there. */
  ghost predicate Moves(s: StatefulSet, desired: StatefulSet, env: Env) {
    && GateOpen(s, env) && env.scaleOk
    && (s.legacy ==> !PatchFails(s, env))
  }

  /** A safe pass leaves the count where it is, or takes it exactly one step toward the goal. It takes the
      step if and only if there is one to take, the count is one or the cluster is StatusHA, the API
      accepts the scaling, and the patch that the pre-3.4.3 branch sends first does not end in an error. */
  lemma SafePass(s: StatefulSet, desired: StatefulSet, policy: Policy, env: Env)
    requires SafelyScaled(s, desired, policy)
    ensures var t := Pass(s, desired, policy, env);
            var count, goal := GetReplicas(s), GetReplicas(desired);
            && SafelyScaled(t, desired, policy)
            && (GetReplicas(t) == count || (goal > count && GetReplicas(t) == count + 1)
                                        || (goal < count && GetReplicas(t) == count - 1))
            && (GetReplicas(t) != count <==>
                && goal != count && env.scaleOk
                && (count == 1 || Probe.StatusHA(env.obs, s.replicas))
                && (s.legacy && s.hash != env.hash ==>
                      && env.valid
                      && (env.patchOk || !env.hasPatch || !env.surfaces
                          || (env.haBeforeUpdate && !(env.ready == count && Probe.StatusHA(env.obs, s.replicas))))))
  {
  }

  /** The same in the terms of whole runs. */
  lemma SafePassMoves(s: StatefulSet, desired: StatefulSet, policy: Policy, env: Env)
    requires SafelyScaled(s, desired, policy)
    ensures var t := Pass(s, desired, policy, env);
            && SafelyScaled(t, desired, policy)
            && GetReplicas(t) == (if Moves(s, desired, env) then Toward(GetReplicas(s), GetReplicas(desired))
                                  else GetReplicas(s))
  {
  }

  /** A parallel pass, under the parallel policy or going up under the mixed one, asks for no gate: it goes
      the whole way in one step, or nowhere at all if the API refuses. */
  lemma ParallelPass(s: StatefulSet, desired: StatefulSet, policy: Policy, env: Env)
    requires GetReplicas(s) != GetReplicas(desired) && !s.legacy
    requires policy == Parallel || (policy == ParallelUpSafeDown && GetReplicas(desired) > GetReplicas(s))
    ensures env.scaleOk ==> GetReplicas(Pass(s, desired, policy, env)) == GetReplicas(desired)
    ensures !env.scaleOk ==> Pass(s, desired, policy, env) == s
  {
  }

  /** The Pod template changes only by a patch: in a pass that does not scale, or in the pre-3.4.3 branch.
      It takes an outdated hash, a valid and non-empty patch that the API accepts and, unless the user
      gave it up, every replica ready and a cluster that is StatusHA. Nothing else is asked, and what
      arrives is the stored template with its hash. */
  lemma TemplateChange(s: StatefulSet, desired: StatefulSet, policy: Policy, env: Env)
    ensures var t := Pass(s, desired, policy, env);
            if && (s.legacy || GetReplicas(s) == GetReplicas(desired))
               && s.hash != env.hash && env.valid && env.hasPatch && env.patchOk
               && (env.haBeforeUpdate ==> env.ready == GetReplicas(s) && Probe.StatusHA(env.obs, s.replicas))
            then t.template == desired.template && t.hash == desired.hash
            else t.template == s.template && t.hash == s.hash
    ensures GetReplicas(s) == GetReplicas(desired) ==> Pass(s, desired, policy, env).replicas == s.replicas
  {
  }

  /** A safe move away from more than one replica needs the gate: no Pods, or exactly as many as
      there are replicas, all of them up and ready, one of which answered the request it got with yes,
      if there was one to send. */
  lemma MoveNeedsGate(s: StatefulSet, desired: StatefulSet, policy: Policy, env: Env)
    requires SafelyScaled(s, desired, policy)
    requires GetReplicas(s) != 1 && GetReplicas(Pass(s, desired, policy, env)) != GetReplicas(s)
    ensures env.obs.pods.Some?
    ensures var pods, o, h := env.obs.pods.value, Probe.Options(false, env.obs.generated), env.obs.h;
            pods == [] ||
            (&& |pods| == GetReplicas(s)
             && (forall p <- pods ::
                   && !p.terminating && p.phase == "Running"
                   && Probe.PodCondition("Ready", "True") in p.conditions)
             && exists k :: 0 <= k < |pods|
                  && Probe.Refusal(h, pods[k], o).None?
                  && (h.http.Some? || h.exec || h.httpGet.Some? || h.tcp ==>
                        env.obs.w.send(pods[k], Probe.ActiveHandler(h, pods[k], o)) == Ok(true)))
  {
    SafePass(s, desired, policy, env);
    hide Pass;
    assert s.replicas == Some(GetReplicas(s));
    Probe.OpenGate(env.obs, GetReplicas(s));
    hide Probe.StatusHA, Probe.ActiveHandler, Probe.Refusal;
  }

  // ----- Whole runs --------------------------------------------------------------------------------

  /** Consecutive passes over the same stored resource; only the operator writes the spec. */
  ghost function Run(s: StatefulSet, desired: StatefulSet, policy: Policy, envs: seq<Env>): StatefulSet
    decreases |envs|
  {
    if envs == [] then s else Run(Pass(s, desired, policy, envs[0]), desired, policy, envs[1..])
  }

  /** How many passes of the run got through the gate. */
  ghost function Opened(s: StatefulSet, desired: StatefulSet, policy: Policy, envs: seq<Env>): nat
    decreases |envs|
  {
    if envs == [] then 0
    else (if Moves(s, desired, envs[0]) then 1 else 0)
         + Opened(Pass(s, desired, policy, envs[0]), desired, policy, envs[1..])
  }

  /** A safe run never overshoots: every pass through the gate brings the count one closer, every
      other leaves it, so the goal is reached after exactly as many open passes as it is away, and
      never left again. */
  lemma {:induction false} SafeRun(s: StatefulSet, desired: StatefulSet, policy: Policy, envs: seq<Env>)
    requires SafelyScaled(s, desired, policy)
    ensures var start, goal := GetReplicas(s), GetReplicas(desired);
            var end := GetReplicas(Run(s, desired, policy, envs));
            var passed := Opened(s, desired, policy, envs);
            && Distance(end, goal) == (if passed < Distance(start, goal) then Distance(start, goal) - passed else 0)
            && (start <= goal ==> start <= end <= goal)
            && (start >= goal ==> goal <= end <= start)
    decreases |envs|
  {
    if envs != [] {
      SafePassMoves(s, desired, policy, envs[0]);
      SafeRun(Pass(s, desired, policy, envs[0]), desired, policy, envs[1..]);
    }
  }

  /** The pre-3.4.3 branch is the one way a safe policy can jump: exactly when a scale-up by more
      than one finds a patch to send, its gate lets it and the API takes it. */
  lemma LegacyJump(s: StatefulSet, desired: StatefulSet, env: Env)
    ensures Distance(GetReplicas(s), GetReplicas(Pass(s, desired, Safe, env))) > 1 <==>
            && s.legacy && GetReplicas(desired) > GetReplicas(s) + 1
            && s.hash != env.hash && env.valid && env.hasPatch && env.patchOk
            && (env.haBeforeUpdate ==> env.ready == GetReplicas(s) && Probe.StatusHA(env.obs, s.replicas))
  {
  }

  /** The scale-up of that branch, under every policy, arrives with the patch or not at all; the patch
      holds the partition at the count it found, so that no Pod it found is replaced. */
  lemma LegacyScaleUp(s: StatefulSet, desired: StatefulSet, policy: Policy, env: Env)
    requires s.legacy && GetReplicas(desired) > GetReplicas(s)
    ensures var t := Pass(s, desired, policy, env);
            if && s.hash != env.hash && env.valid && env.hasPatch && env.patchOk
               && (env.haBeforeUpdate ==> env.ready == GetReplicas(s) && Probe.StatusHA(env.obs, s.replicas))
            then GetReplicas(t) == GetReplicas(desired) && t.strategy.partition == Some(GetReplicas(s)) && !t.legacy
            else t == s
  {
  }

  /** The scale-down of that branch patches and scales in one pass. It scales whether the patch was
      sent, deferred or refused by the API, as long as no error surfaces. */
  lemma LegacyScaleDown(s: StatefulSet, desired: StatefulSet, policy: Policy, env: Env)
    requires s.legacy && GetReplicas(desired) < GetReplicas(s)
    ensures var t := Pass(s, desired, policy, env);
            var count := GetReplicas(s);
            && (GetReplicas(t) != count <==>
                && env.scaleOk
                && (policy == Parallel || count == 1 || Probe.StatusHA(env.obs, s.replicas))
                && (s.hash == env.hash ||
                    (&& env.valid
                     && (env.patchOk || !env.hasPatch || !env.surfaces
                         || (env.haBeforeUpdate && !(env.ready == count && Probe.StatusHA(env.obs, s.replicas)))))))
            && (GetReplicas(t) != count ==>
                  GetReplicas(t) == if policy == Parallel then GetReplicas(desired) else count - 1)
            && (GetReplicas(t) == count && t != s ==> t.strategy.partition == Some(count) && !t.legacy)
  {
  }

  // ----- The partition -----------------------------------------------------------------------------

  /** Whatever the policy, a pass that changes the count of a rolling-update StatefulSet puts the
      partition at the smaller count. Outside the pre-3.4.3 branch it changes nothing else. */
  lemma ScalingHoldsPartition(s: StatefulSet, desired: StatefulSet, policy: Policy, env: Env)
    requires GetReplicas(Pass(s, desired, policy, env)) != GetReplicas(s)
    ensures var t := Pass(s, desired, policy, env);
            && (t.strategy.rolling ==> t.strategy.partition == Some(Min(GetReplicas(s), GetReplicas(t))))
            && (!s.legacy ==> t == s.(replicas := t.replicas, strategy := t.strategy))
            && (!s.legacy ==> t.strategy.rolling == s.strategy.rolling)
            && (!s.legacy && !s.strategy.rolling ==> t.strategy == s.strategy)
  {
  }

  /** A Pod of the StatefulSet, told from its successors at the same ordinal by `uid`. */
  datatype Pod = Pod(uid: nat, revision: string)

  datatype World = World(sts: StatefulSet, pods: map<nat, Pod>)

  /** A scaling step of the operator, or a step of the Kubernetes StatefulSet controller: it creates
      missing ordinals, removes excess ones, and in a rolling update replaces Pods from the
      partition upwards only. */
  datatype Event =
    | Scale(n: nat)
    | Create(ordinal: nat, pod: Pod)
    | Remove(ordinal: nat)
    | Replace(ordinal: nat, pod: Pod)

  predicate Enabled(w: World, e: Event) {
    match e
    case Scale(n) => true
    case Create(i, _) => i < GetReplicas(w.sts) && i !in w.pods
    case Remove(i) => i >= GetReplicas(w.sts) && i in w.pods
    case Replace(i, _) =>
      && i in w.pods && w.sts.strategy.rolling
      && i >= w.sts.strategy.partition.GetOr(0)
  }

  function Apply(w: World, e: Event): World
    requires Enabled(w, e)
  {
    match e
    case Scale(n) => w.(sts := ScaledTo(w.sts, n))
    case Create(i, p) => w.(pods := w.pods[i := p])
    case Remove(i) => w.(pods := w.pods - {i})
    case Replace(i, p) => w.(pods := w.pods[i := p])
  }

  predicate IsRun(w: World, events: seq<Event>)
    decreases |events|
  {
    events == [] || (Enabled(w, events[0]) && IsRun(Apply(w, events[0]), events[1..]))
  }

  function After(w: World, events: seq<Event>): World
    requires IsRun(w, events)
    decreases |events|
  {
    if events == [] then w else After(Apply(w, events[0]), events[1..])
  }

  /** The smallest replica count the run has, starting from `least`. */
  function Floor(least: int, events: seq<Event>): int {
    if events == [] then least
    else Floor(if events[0].Scale? then Min(least, events[0].n) else least, events[1..])
  }

  lemma {:induction false} FloorIsLower(least: int, events: seq<Event>)
    ensures Floor(least, events) <= least
  {
    if events != [] {
      FloorIsLower(if events[0].Scale? then Min(least, events[0].n) else least, events[1..]);
    }
  }

  /** The partition protects every ordinal below `least`. */
  predicate Protects(s: StatefulSet, least: int) {
    && least <= GetReplicas(s)
    && (s.strategy.rolling ==> s.strategy.partition.GetOr(0) >= least)
  }

  lemma {:induction false} ProtectedRun(w: World, events: seq<Event>, least: int)
    requires IsRun(w, events) && Protects(w.sts, least)
    ensures forall i: nat | i < Floor(least, events) && i in w.pods ::
              i in After(w, events).pods && After(w, events).pods[i] == w.pods[i]
    decreases |events|
  {
    if events != [] {
      var least' := if events[0].Scale? then Min(least, events[0].n) else least;
      FloorIsLower(least', events[1..]);
      ProtectedRun(Apply(w, events[0]), events[1..], least');
    }
  }

  /** Scaling never upgrades a survivor. Take any run that opens with a scaling step, under any
      policy and any interleaving with the StatefulSet controller: a Pod whose ordinal stays below
      every replica count of the run is still the very same Pod at the end. */
  lemma ScalingKeepsSurvivors(w: World, first: nat, events: seq<Event>)
    requires IsRun(w, [Scale(first)] + events) && GetReplicas(w.sts) >= 0
    ensures forall i: nat | i < Floor(GetReplicas(w.sts), [Scale(first)] + events) && i in w.pods ::
              var end := After(w, [Scale(first)] + events);
              i in end.pods && end.pods[i] == w.pods[i]
  {
    var run := [Scale(first)] + events;
    assert run[1..] == events;
    ProtectedRun(Apply(w, Scale(first)), events, Min(GetReplicas(w.sts), first));
  }
}
