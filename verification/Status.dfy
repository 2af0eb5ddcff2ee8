/** The status of a Coherence resource: its phase, its conditions, and the flag by which each update
    tells the caller whether there is anything to persist.

    The several clock readings inside one call are one reading, `now`. */
module Status {
  import opened Wrappers
  import C = Conditions

  type Kind = C.Kind

  /** The phases whose condition is switched off when the phase is left. */
  const TRACKED: set<Kind> := {C.Ready, C.Scaling, C.RollingUpgrade, C.Waiting, C.Stopped}

  datatype JobProbe = JobProbe(
    pod: string, lastReady: Option<int>, lastProbe: Option<int>, success: Option<bool>, error: Option<string>)

  datatype Status = Status(
    phase: Kind, cluster: string, kind: string,
    replicas: int, current: int, ready: int, active: int, succeeded: int, failed: int,
    role: string, selector: string, conditions: seq<C.Condition>, hash: string, jobProbes: seq<JobProbe>)

  const EMPTY := Status(C.NoPhase, "", "", 0, 0, 0, 0, 0, 0, "", "", [], "", [])

  /** What an update reads of the deployment and of the operator. `hash` is the one in the persisted
      status, `specReplicas` the count in the spec alone, `selector` the rendered template. */
  datatype Owner = Owner(
    hash: string, replicas: int, specReplicas: int, cluster: string, selector: string,
    role: string, kind: string, version: string)

  datatype Workload = Workload(current: int, ready: int, currentRevision: string, updateRevision: string)

  datatype Job = Job(active: int, succeeded: int, failed: int, ready: Option<int>, completed: bool)

  // ----- The state functions -----------------------------------------------------------------------

  function Now(k: Kind, on: bool): C.Condition {
    C.Condition(k, if on then C.True else C.False, "", "", 0)
  }

  function VersionCondition(v: string): C.Condition {
    C.Condition(C.Versioned, C.True, "", v, 0)
  }

  function Left(s: Status, now: int): seq<C.Condition> {
    if s.phase in TRACKED then C.Set(s.conditions, Now(s.phase, false), now) else s.conditions
  }

  /** Enter a phase: the tracked phase that is left is switched off, the entered one on. A completed
      status records the condition but stays completed. */
  function Entered(s: Status, phase: Kind, now: int): Status {
    if s.phase == phase then s
    else
      s.(phase := if s.phase == C.Completed then C.Completed else phase,
         conditions := C.Set(Left(s, now), Now(phase, true), now))
  }

  /** Enter a phase under a condition, as all but two callers do. */
  function EnteredIf(s: Status, b: bool, phase: Kind, now: int): Status {
    if b then Entered(s, phase, now) else s
  }

  function Mirrored(s: Status, o: Owner): Status {
    s.(hash := o.hash, replicas := o.replicas, cluster := o.cluster)
  }

  function Labelled(s: Status, o: Owner, now: int): Status {
    s.(selector := if s.selector == "" then o.selector else s.selector,
       role := o.role, kind := o.kind,
       conditions := C.Set(s.conditions, VersionCondition(o.version), now))
  }

  function Initialised(s: Status, o: Owner, now: int): Status {
    Labelled(EnteredIf(Mirrored(s, o), !C.Has(s.conditions, C.Initialized), C.Initialized, now), o, now)
  }

  /** The flag of `ensureInitialized`: entering the Initialized phase overwrites what came before. */
  predicate InitialisedFlag(s: Status, o: Owner, now: int) {
    var entered := EnteredIf(Mirrored(s, o), !C.Has(s.conditions, C.Initialized), C.Initialized, now);
    || (if C.Has(s.conditions, C.Initialized) then Mirrored(s, o) != s else s.phase != C.Initialized)
    || LabelFlag(entered, o)
  }

  predicate LabelFlag(s: Status, o: Owner) {
    || s.selector == "" || s.role != o.role || s.kind != o.kind
    || C.Changes(s.conditions, VersionCondition(o.version))
  }

  predicate Settled(s: Status) {
    s.replicas == s.ready && s.replicas == s.current
  }

  /** The phase a StatefulSet puts a status in, once its counts are in; `None` leaves it alone. */
  function PhaseFor(s: Status, w: Workload): Option<Kind> {
    if w.currentRevision != w.updateRevision then Some(C.RollingUpgrade)
    else if Settled(s) then Some(C.Ready)
    else None
  }

  function Observed(s: Status, w: Option<Workload>, now: int): Status {
    match w
    case None => s.(current := 0, ready := 0)
    case Some(x) =>
      var counted := s.(current := x.current, ready := x.ready);
      match PhaseFor(counted, x)
      case Some(k) => Entered(counted, k, now)
      case None => counted
  }

  /** Later phase changes only ever raise the flag. */
  predicate ObservedFlag(s: Status, w: Option<Workload>) {
    match w
    case None => s.current != 0 || s.ready != 0
    case Some(x) =>
      var counted := s.(current := x.current, ready := x.ready);
      || counted != s
      || (PhaseFor(counted, x).Some? && PhaseFor(counted, x).value != s.phase)
  }

  function Stopped(s: Status, specReplicas: int, now: int): Status {
    EnteredIf(s, specReplicas == 0, C.Stopped, now)
  }

  predicate StoppedFlag(s: Status, specReplicas: int) {
    specReplicas == 0 && s.phase != C.Stopped
  }

  /** `Update`: the new status. */
  function Updated(s: Status, o: Owner, w: Option<Workload>, now: int): Status {
    Stopped(Observed(Initialised(s, o, now), w, now), o.specReplicas, now)
  }

  /** `Update`: the answer. */
  predicate UpdatedFlag(s: Status, o: Owner, w: Option<Workload>, now: int) {
    var s1 := Initialised(s, o, now);
    InitialisedFlag(s, o, now) || ObservedFlag(s1, w) || StoppedFlag(Observed(s1, w, now), o.specReplicas)
  }

  /** `SetCondition`, which starts from the persisted status. */
  function SetTo(persisted: Status, o: Owner, k: Kind, now: int): Status {
    var s := Initialised(persisted, o, now);
    if s.phase != C.NoPhase && s.phase == k then s else Entered(s, k, now)
  }

  predicate SetToFlag(persisted: Status, o: Owner, k: Kind, now: int) {
    InitialisedFlag(persisted, o, now) || Initialised(persisted, o, now).phase != k
  }

  // ----- Job statuses --------------------------------------------------------------------------------

  /** `metav1.Time.Before` on pointers: false when either is nil. */
  predicate Before(a: Option<int>, b: Option<int>) {
    a.Some? && b.Some? && a.value < b.value
  }

  function FindProbe(es: seq<JobProbe>, pod: string): (r: Option<JobProbe>)
    ensures r.Some? ==> r.value in es && r.value.pod == pod
    ensures r.None? ==> forall e <- es :: e.pod != pod
  {
    if es == [] then None else if es[0].pod == pod then Some(es[0]) else FindProbe(es[1..], pod)
  }

  /** Merge one probe result: append a new Pod's, replace an older one. */
  function MergedOne(es: seq<JobProbe>, p: JobProbe): seq<JobProbe> {
    if es == [] then [p]
    else if es[0].pod == p.pod then [if Before(es[0].lastProbe, p.lastProbe) then p else es[0]] + es[1..]
    else [es[0]] + MergedOne(es[1..], p)
  }

  function MergedAll(es: seq<JobProbe>, ps: seq<JobProbe>): seq<JobProbe> {
    if ps == [] then es else MergedOne(MergedAll(es, ps[..|ps| - 1]), ps[|ps| - 1])
  }

  /** The first results are taken over as they are. */
  function Merged(es: seq<JobProbe>, ps: seq<JobProbe>): seq<JobProbe> {
    if es == [] then ps else MergedAll(es, ps)
  }

  function JobCounts(s: Status, j: Job): Status {
    s.(current := j.active + j.succeeded, ready := j.ready.GetOr(s.ready))
  }

  function JobReady(s: Status, j: Job, now: int): Status {
    EnteredIf(JobCounts(s, j), Settled(JobCounts(s, j)), C.Ready, now)
  }

  function JobPhase(s: Status, j: Job, now: int): Status {
    EnteredIf(JobReady(s, j, now), j.completed, C.Completed, now)
  }

  /** The completion of the job overwrites whatever was reported before it. */
  predicate JobPhaseFlag(f: bool, s: Status, j: Job, now: int) {
    if j.completed then JobReady(s, j, now).phase != C.Completed
    else f || JobCounts(s, j) != s || (Settled(JobCounts(s, j)) && s.phase != C.Ready)
  }

  function Cleared(s: Status): Status {
    s.(current := 0, ready := 0, active := 0, succeeded := 0, failed := 0)
  }

  function JobObserved(s: Status, job: Option<Job>, now: int): Status {
    match job
    case None => Cleared(s)
    case Some(j) => JobPhase(s, j, now).(active := j.active, succeeded := j.succeeded, failed := j.failed)
  }

  predicate JobFlag(f: bool, s: Status, job: Option<Job>, now: int) {
    match job
    case None => f || Cleared(s) != s
    case Some(j) =>
      JobPhaseFlag(f, s, j, now) || s.active != j.active || s.succeeded != j.succeeded || s.failed != j.failed
  }

  /** `UpdateFromJob`: the new status. */
  function JobUpdated(s: Status, o: Owner, job: Option<Job>, ps: seq<JobProbe>, now: int): Status {
    var s1 := Stopped(JobObserved(Initialised(s, o, now), job, now), o.specReplicas, now);
    s1.(jobProbes := Merged(s1.jobProbes, ps))
  }

  /** `UpdateFromJob`: the answer. */
  predicate JobUpdatedFlag(s: Status, o: Owner, job: Option<Job>, ps: seq<JobProbe>, now: int) {
    var s1 := Initialised(s, o, now);
    || JobFlag(InitialisedFlag(s, o, now), s1, job, now)
    || StoppedFlag(JobObserved(s1, job, now), o.specReplicas)
    || MergeFlag(s.jobProbes, ps)
  }

  /** Whether some step of the merge changed something. */
  predicate MergeFlag(es: seq<JobProbe>, ps: seq<JobProbe>) {
    if es == [] then ps != [] else AnyMerge(es, ps)
  }

  predicate AnyMerge(es: seq<JobProbe>, ps: seq<JobProbe>) {
    if ps == [] then false
    else
      var before := MergedAll(es, ps[..|ps| - 1]);
      AnyMerge(es, ps[..|ps| - 1]) || MergedOne(before, ps[|ps| - 1]) != before
  }

  // ----- The source's methods ------------------------------------------------------------------------

  /** The status of one resource; `s` is the Go struct its methods update in place. */
  class CoherenceResourceStatus {
    var s: Status

    constructor ()
      ensures s == EMPTY
    {
      s := EMPTY;
    }

    method SetPhase(k: Kind, now: int) returns (updated: bool)
      modifies this
      ensures s == Entered(old(s), k, now)
      ensures updated <==> old(s).phase != k
    {
      if s.phase == k {
        return false;
      }
      var conditions := LeavePhase(now);
      if s.phase != C.Completed {
        s := s.(phase := k);
      }
      var changed;
      conditions, changed := C.SetCondition(conditions, Now(k, true), now);
      s := s.(conditions := conditions);
      return true;
    }

    /** The switch in `setPhase`: the conditions once the current phase has been switched off. */
    method LeavePhase(now: int) returns (conditions: seq<C.Condition>)
      ensures conditions == Left(s, now)
    {
      var changed;
      match s.phase
      case Ready => conditions, changed := C.SetCondition(s.conditions, Now(C.Ready, false), now);
      case Scaling => conditions, changed := C.SetCondition(s.conditions, Now(C.Scaling, false), now);
      case RollingUpgrade => conditions, changed := C.SetCondition(s.conditions, Now(C.RollingUpgrade, false), now);
      case Waiting => conditions, changed := C.SetCondition(s.conditions, Now(C.Waiting, false), now);
      case Stopped => conditions, changed := C.SetCondition(s.conditions, Now(C.Stopped, false), now);
      case _ => conditions := s.conditions;
    }

    method EnsureInitialized(o: Owner, now: int) returns (updated: bool)
      modifies this
      ensures s == Initialised(old(s), o, now)
      ensures updated == InitialisedFlag(old(s), o, now)
    {
      updated := Mirror(o);
      if C.Find(s.conditions, C.Initialized).None? {
        updated := SetPhase(C.Initialized, now);
      }
      var labelled := AddLabels(o, now);
      updated := updated || labelled;
    }

    /** The part of `ensureInitialized` before the Initialized condition. */
    method Mirror(o: Owner) returns (updated: bool)
      modifies this
      ensures s == Mirrored(old(s), o)
      ensures updated <==> s != old(s)
    {
      updated := false;
      if s.hash != o.hash {
        s, updated := s.(hash := o.hash), true;
      }
      if s.replicas != o.replicas {
        s, updated := s.(replicas := o.replicas), true;
      }
      if s.cluster != o.cluster {
        s, updated := s.(cluster := o.cluster), true;
      }
    }

    /** The part of `ensureInitialized` after the Initialized condition. */
    method AddLabels(o: Owner, now: int) returns (updated: bool)
      modifies this
      ensures s == Labelled(old(s), o, now)
      ensures updated == LabelFlag(old(s), o)
    {
      updated := false;
      if s.selector == "" {
        s, updated := s.(selector := o.selector), true;
      }
      if s.role != o.role {
        s, updated := s.(role := o.role), true;
      }
      if s.kind != o.kind {
        s, updated := s.(kind := o.kind), true;
      }
      var conditions, versioned := C.SetCondition(s.conditions, VersionCondition(o.version), now);
      s := s.(conditions := conditions);
      if versioned {
        updated := true;
      }
    }

    /** `SetCondition`: the receiver is overwritten by the persisted status first. */
    method SetCondition(persisted: Status, o: Owner, k: Kind, now: int) returns (updated: bool)
      modifies this
      ensures s == SetTo(persisted, o, k, now)
      ensures updated == SetToFlag(persisted, o, k, now)
    {
      s := persisted;
      updated := EnsureInitialized(o, now);
      if s.phase != C.NoPhase && s.phase == k {
        return;
      }
      var entered := SetPhase(k, now);
      updated := entered || updated;
    }

    method Update(o: Owner, w: Option<Workload>, now: int) returns (updated: bool)
      modifies this
      ensures s == Updated(old(s), o, w, now)
      ensures updated == UpdatedFlag(old(s), o, w, now)
    {
      updated := EnsureInitialized(o, now);
      updated := Follow(updated, w, now);
      if o.specReplicas == 0 {
        if s.phase != C.Stopped {
          updated := SetPhase(C.Stopped, now);
        }
      }
    }

    /** The middle of `Update`: what the StatefulSet's status says. */
    method Follow(before: bool, w: Option<Workload>, now: int) returns (updated: bool)
      modifies this
      ensures s == Observed(old(s), w, now)
      ensures updated == (before || ObservedFlag(old(s), w))
    {
      updated := before;
      if w.Some? {
        var x := w.value;
        if s.current != x.current {
          s, updated := s.(current := x.current), true;
        }
        if s.ready != x.ready {
          s, updated := s.(ready := x.ready), true;
        }
        if x.currentRevision == x.updateRevision {
          if s.phase != C.Ready && s.replicas == s.ready && s.replicas == s.current {
            updated := SetPhase(C.Ready, now);
          }
        } else {
          if s.phase != C.RollingUpgrade {
            updated := SetPhase(C.RollingUpgrade, now);
          }
        }
      } else {
        if s.current != 0 {
          s, updated := s.(current := 0), true;
        }
        if s.ready != 0 {
          s, updated := s.(ready := 0), true;
        }
      }
    }

    method UpdateFromJob(o: Owner, job: Option<Job>, ps: seq<JobProbe>, now: int) returns (updated: bool)
      modifies this
      ensures s == JobUpdated(old(s), o, job, ps, now)
      ensures updated == JobUpdatedFlag(old(s), o, job, ps, now)
    {
      updated := EnsureInitialized(o, now);
      match job {
        case Some(j) => updated := FollowJob(updated, j, now);
        case None =>
          updated := Clear(updated);
      }
      if o.specReplicas == 0 {
        if s.phase != C.Stopped {
          updated := SetPhase(C.Stopped, now);
        }
      }
      var merged := MergeProbes(ps);
      updated := updated || merged;
    }

    /** `UpdateFromJob` without a Job. */
    method Clear(before: bool) returns (updated: bool)
      modifies this
      ensures s == Cleared(old(s))
      ensures updated == (before || s != old(s))
    {
      updated := before;
      if s.current != 0 { s, updated := s.(current := 0), true; }
      if s.ready != 0 { s, updated := s.(ready := 0), true; }
      if s.active != 0 { s, updated := s.(active := 0), true; }
      if s.succeeded != 0 { s, updated := s.(succeeded := 0), true; }
      if s.failed != 0 { s, updated := s.(failed := 0), true; }
    }

    /** The middle of `UpdateFromJob`: what the Job's status says. */
    method FollowJob(before: bool, j: Job, now: int) returns (updated: bool)
      modifies this
      ensures s == JobObserved(old(s), Some(j), now)
      ensures updated == JobFlag(before, old(s), Some(j), now)
    {
      updated := FollowPhase(before, j, now);
      if s.active != j.active {
        s, updated := s.(active := j.active), true;
      }
      if s.succeeded != j.succeeded {
        s, updated := s.(succeeded := j.succeeded), true;
      }
      if s.failed != j.failed {
        s, updated := s.(failed := j.failed), true;
      }
    }

    method FollowPhase(before: bool, j: Job, now: int) returns (updated: bool)
      modifies this
      ensures s == JobPhase(old(s), j, now)
      ensures updated == JobPhaseFlag(before, old(s), j, now)
    {
      updated := before;
      var count := j.active + j.succeeded;
      if s.current != count {
        s, updated := s.(current := count), true;
      }
      if j.ready.Some? && s.ready != j.ready.value {
        s, updated := s.(ready := j.ready.value), true;
      }
      if s.phase != C.Ready && s.replicas == s.ready && s.replicas == s.current {
        updated := SetPhase(C.Ready, now);
      }
      if j.completed {
        updated := SetPhase(C.Completed, now);
      }
    }

    /** The merge of the probe results at the end of `UpdateFromJob`. */
    method MergeProbes(ps: seq<JobProbe>) returns (updated: bool)
      modifies this
      ensures s == old(s).(jobProbes := Merged(old(s).jobProbes, ps))
      ensures updated == MergeFlag(old(s).jobProbes, ps)
    {
      updated := false;
      var es := s.jobProbes;
      if |ps| == 0 {
        return;
      }
      if |es| == 0 {
        s := s.(jobProbes := ps);
        return true;
      }
      for n := 0 to |ps|
        invariant s == old(s)
        invariant es == MergedAll(s.jobProbes, ps[..n])
        invariant updated == AnyMerge(s.jobProbes, ps[..n])
      {
        assert ps[..n + 1][..n] == ps[..n];
        var one;
        es, one := MergeProbe(es, ps[n]);
        updated := updated || one;
      }
      assert ps[..|ps|] == ps;
      s := s.(jobProbes := es);
    }
  }

  method MergeProbe(es: seq<JobProbe>, p: JobProbe) returns (r: seq<JobProbe>, updated: bool)
    ensures r == MergedOne(es, p)
    ensures updated <==> r != es
    ensures (forall e <- es :: e.pod != p.pod) ==> r == es + [p]
    ensures forall i | 0 <= i < |es| && es[i].pod == p.pod && (forall j :: 0 <= j < i ==> es[j].pod != p.pod) ::
              r == if && es[i].lastProbe.Some? && p.lastProbe.Some?
                      && es[i].lastProbe.value < p.lastProbe.value then es[i := p] else es
  {
    for i := 0 to |es|
      invariant forall j :: 0 <= j < i ==> es[j].pod != p.pod
    {
      var e := es[i];
      if e.pod == p.pod {
        MergedAt(es, p, i);
        if !Before(e.lastProbe, p.lastProbe) {
          return es, false;
        }
        var merged := e.(lastProbe := p.lastProbe, lastReady := p.lastReady, success := p.success, error := p.error);
        return es[i := merged], true;
      }
    }
    MergedAt(es, p, |es|);
    return es + [p], true;
  }

  lemma {:induction false} MergedAt(es: seq<JobProbe>, p: JobProbe, i: nat)
    requires i <= |es| && forall j :: 0 <= j < i ==> es[j].pod != p.pod
    requires i < |es| ==> es[i].pod == p.pod
    ensures MergedOne(es, p) ==
              if i == |es| then es + [p]
              else if Before(es[i].lastProbe, p.lastProbe) then es[i := p] else es
  {
    if i > 0 {
      MergedAt(es[1..], p, i - 1);
    } else if es != [] {
      assert es == [es[0]] + es[1..];
    }
  }

  /** What merging does to the entries: they stay in place, and one that changes gets a later probe
      time. */
  ghost predicate Advanced(a: seq<JobProbe>, b: seq<JobProbe>) {
    && |a| <= |b|
    && forall i :: 0 <= i < |a| ==> b[i].pod == a[i].pod && (b[i] == a[i] || Before(a[i].lastProbe, b[i].lastProbe))
  }

  lemma {:induction false} MergedOneAdvances(es: seq<JobProbe>, p: JobProbe)
    ensures Advanced(es, MergedOne(es, p))
  {
    if es != [] && es[0].pod != p.pod {
      MergedOneAdvances(es[1..], p);
      var rest := MergedOne(es[1..], p);
      forall i | 0 < i < |es| ensures ([es[0]] + rest)[i] == rest[i - 1] && es[i] == es[1..][i - 1] {
      }
    }
  }
}
