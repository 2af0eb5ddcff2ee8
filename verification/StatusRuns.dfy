/** What the status keeps over whole runs of updates, and when its change flag can be trusted. */
module StatusRuns {
  import opened Wrappers
  import C = Conditions
  import opened Status

  // ----- The phase and its conditions --------------------------------------------------------------

  /** One condition a type, and for each tracked phase: its condition is True exactly while it is
      the current phase. A completed status no longer promises anything about tracked phases. */
  ghost predicate Consistent(phase: Kind, cs: seq<C.Condition>) {
    && C.UniqueKinds(cs)
    && (phase == C.Completed || forall k <- TRACKED :: C.IsTrue(cs, k) <==> phase == k)
  }

  /** The run invariant: consistent, and initialised unless nothing has happened yet. */
  ghost predicate Inv(s: Status) {
    && Consistent(s.phase, s.conditions)
    && (C.Has(s.conditions, C.Initialized) || (s.phase == C.NoPhase && s.conditions == []))
  }

  /** What no update takes away. */
  predicate Carries(s: Status, t: Status) {
    && (s.phase == C.Completed ==> t.phase == C.Completed)
    && (C.Has(s.conditions, C.Initialized) ==> C.Has(t.conditions, C.Initialized))
  }

  lemma EnterKeeps(s: Status, k: Kind, now: int)
    requires Consistent(s.phase, s.conditions)
    ensures var t := Entered(s, k, now);
            Consistent(t.phase, t.conditions) && Carries(s, t) && (s.phase != k ==> C.Has(t.conditions, k))
  {
    if s.phase != k {
      C.SetKeepsUnique(s.conditions, Now(s.phase, false), now);
      C.SetKeepsUnique(Left(s, now), Now(k, true), now);
      forall x ensures C.Find(Entered(s, k, now).conditions, x) == FindEntered(s, k, now, x) {
        EnterFinds(s, k, now, x);
      }
    }
  }

  /** The condition of type `x` after entering the phase `k` from another one. */
  function FindEntered(s: Status, k: Kind, now: int, x: Kind): Option<C.Condition> {
    if x == k then Some(C.Stamped(Now(k, true), C.Find(Left(s, now), k), now))
    else if x == s.phase && s.phase in TRACKED
    then Some(C.Stamped(Now(x, false), C.Find(s.conditions, x), now))
    else C.Find(s.conditions, x)
  }

  lemma EnterFinds(s: Status, k: Kind, now: int, x: Kind)
    requires s.phase != k
    ensures C.Find(Entered(s, k, now).conditions, x) == FindEntered(s, k, now, x)
  {
    C.FindAfterSet(s.conditions, Now(s.phase, false), now, x);
    C.FindAfterSet(Left(s, now), Now(k, true), now, x);
  }

  /** A change of phase: the condition of the new phase is there and True, that of the old one is False if
      the old one is Ready, Scaling, RollingUpgrade, Waiting or Stopped, and every other one is as it
      was. Only a completed status does not take the new phase. */
  lemma PhaseChange(s: Status, k: Kind, now: int, x: Kind)
    requires s.phase != k
    ensures var t := Entered(s, k, now);
            && t == s.(phase := t.phase, conditions := t.conditions)
            && t.phase == (if s.phase == C.Completed then C.Completed else k)
            && C.Find(t.conditions, k).Some? && C.Find(t.conditions, k).value.status == C.True
            && (s.phase in {C.Ready, C.Scaling, C.RollingUpgrade, C.Waiting, C.Stopped} ==>
                  && C.Find(t.conditions, s.phase).Some?
                  && C.Find(t.conditions, s.phase).value.status == C.False)
            && (x != k && (x != s.phase || x !in {C.Ready, C.Scaling, C.RollingUpgrade, C.Waiting, C.Stopped}) ==>
                  C.Find(t.conditions, x) == C.Find(s.conditions, x))
  {
    hide C.Set, C.Find;
    EnterFinds(s, k, now, k);
    EnterFinds(s, k, now, s.phase);
    EnterFinds(s, k, now, x);
  }

  lemma LabelKeeps(s: Status, o: Owner, now: int)
    requires Consistent(s.phase, s.conditions)
    ensures var t := Labelled(s, o, now);
            Consistent(t.phase, t.conditions) && Carries(s, t)
  {
    C.SetKeepsUnique(s.conditions, VersionCondition(o.version), now);
    forall x | x != C.Versioned
      ensures C.Find(Labelled(s, o, now).conditions, x) == C.Find(s.conditions, x)
    {
      C.FindAfterSet(s.conditions, VersionCondition(o.version), now, x);
    }
  }

  lemma InitialiseKeeps(s: Status, o: Owner, now: int)
    requires Inv(s)
    ensures Inv(Initialised(s, o, now)) && Carries(s, Initialised(s, o, now))
    ensures C.Has(Initialised(s, o, now).conditions, C.Initialized)
  {
    hide Consistent, Entered, Labelled;
    EnterKeeps(Mirrored(s, o), C.Initialized, now);
    LabelKeeps(EnteredIf(Mirrored(s, o), !C.Has(s.conditions, C.Initialized), C.Initialized, now), o, now);
  }

  /** The updates a status goes through. `SetCondition` and the others start from what is persisted. */
  datatype Op =
    | DoSet(o: Owner, k: Kind, now: int)
    | DoUpdate(o: Owner, w: Option<Workload>, now: int)
    | DoJob(o: Owner, job: Option<Job>, ps: seq<JobProbe>, now: int)

  function Apply(s: Status, op: Op): Status {
    match op
    case DoSet(o, k, now) => SetTo(s, o, k, now)
    case DoUpdate(o, w, now) => Updated(s, o, w, now)
    case DoJob(o, job, ps, now) => JobUpdated(s, o, job, ps, now)
  }

  lemma OpKeepsInv(s: Status, op: Op)
    requires Inv(s)
    ensures Inv(Apply(s, op)) && Carries(s, Apply(s, op))
  {
    hide Consistent, Entered, Initialised, Observed, JobObserved;
    InitialiseKeeps(s, op.o, op.now);
    var s1 := Initialised(s, op.o, op.now);
    match op
    case DoSet(o, k, now) => EnterKeeps(s1, k, now);
    case DoUpdate(o, w, now) =>
      ObserveKeeps(s1, w, now);
      EnterKeeps(Observed(s1, w, now), C.Stopped, now);
    case DoJob(o, job, ps, now) =>
      JobKeeps(s1, job, now);
      EnterKeeps(JobObserved(s1, job, now), C.Stopped, now);
  }

  lemma ObserveKeeps(s: Status, w: Option<Workload>, now: int)
    requires Consistent(s.phase, s.conditions)
    ensures var t := Observed(s, w, now);
            Consistent(t.phase, t.conditions) && Carries(s, t)
  {
    hide Consistent, Entered;
    if w.Some? {
      var counted := s.(current := w.value.current, ready := w.value.ready);
      EnterKeeps(counted, C.Ready, now);
      EnterKeeps(counted, C.RollingUpgrade, now);
    }
  }

  lemma JobKeeps(s: Status, job: Option<Job>, now: int)
    requires Consistent(s.phase, s.conditions)
    ensures var t := JobObserved(s, job, now);
            Consistent(t.phase, t.conditions) && Carries(s, t)
  {
    hide Consistent, Entered;
    if job.Some? {
      EnterKeeps(JobCounts(s, job.value), C.Ready, now);
      EnterKeeps(JobReady(s, job.value, now), C.Completed, now);
    }
  }

  lemma TrueMeans(cs: seq<C.Condition>, k: Kind)
    ensures C.UniqueKinds(cs) ==>
              (C.IsTrue(cs, k) <==> exists c :: c in cs && c.kind == k && c.status == C.True)
  {
  }

  function Run(s: Status, ops: seq<Op>): Status {
    if ops == [] then s else Apply(Run(s, ops[..|ops| - 1]), ops[|ops| - 1])
  }

  /** Every status reachable from the empty one satisfies the invariant. In particular it has one
      condition a type, and until it is completed those of Ready, Scaling, RollingUpgrade, Waiting and
      Stopped are True exactly while they are the phase. */
  lemma {:induction false} ReachableInv(ops: seq<Op>)
    ensures Inv(Run(EMPTY, ops))
    ensures var cs := Run(EMPTY, ops).conditions;
            forall i, j :: 0 <= i < j < |cs| ==> cs[i].kind != cs[j].kind
    ensures var t := Run(EMPTY, ops);
            var tracked := {C.Ready, C.Scaling, C.RollingUpgrade, C.Waiting, C.Stopped};
            t.phase != C.Completed ==>
              && (forall c <- t.conditions :: c.kind in tracked && c.status == C.True ==> c.kind == t.phase)
              && (t.phase in tracked ==> exists c :: c in t.conditions && c.kind == t.phase && c.status == C.True)
  {
    forall k ensures C.UniqueKinds(Run(EMPTY, ops).conditions) ==>
                       (C.IsTrue(Run(EMPTY, ops).conditions, k) <==>
                        exists c :: c in Run(EMPTY, ops).conditions && c.kind == k && c.status == C.True)
    {
      TrueMeans(Run(EMPTY, ops).conditions, k);
    }
    if ops != [] {
      ReachableInv(ops[..|ops| - 1]);
      OpKeepsInv(Run(EMPTY, ops[..|ops| - 1]), ops[|ops| - 1]);
    } else {
      assert forall k :: !C.IsTrue(EMPTY.conditions, k);
    }
  }

  /** Once completed, always completed, whatever else has been written to the status. */
  lemma {:induction false} CompletedForEver(s: Status, ops: seq<Op>)
    requires s.phase == C.Completed
    ensures Run(s, ops).phase == C.Completed
    ensures Inv(s) ==> Inv(Run(s, ops))
  {
    if ops != [] {
      var before, op := ops[..|ops| - 1], ops[|ops| - 1];
      CompletedForEver(s, before);
      CompletedStays(Run(s, before), op);
      if Inv(s) {
        OpKeepsInv(Run(s, before), op);
      }
    }
  }

  lemma CompletedStays(s: Status, op: Op)
    requires s.phase == C.Completed
    ensures Apply(s, op).phase == C.Completed
  {
    hide Initialised, Left, C.Set, C.Find, Now, Settled;
    assert Initialised(s, op.o, op.now).phase == C.Completed by {
      InitialisedPhase(s, op.o, op.now);
    }
  }

  /** Setting a condition puts a status that is not completed in the phase of its type. The condition is
      True afterwards, except that a status already in that phase keeps the condition it has. */
  lemma SetToPhase(persisted: Status, o: Owner, k: Kind, now: int)
    requires persisted.phase != C.Completed && k != C.Initialized
    ensures SetTo(persisted, o, k, now).phase == k
    ensures persisted.phase != k || !C.Has(persisted.conditions, C.Initialized) ==>
              C.IsTrue(SetTo(persisted, o, k, now).conditions, k)
  {
    var s := Initialised(persisted, o, now);
    InitialisedPhase(persisted, o, now);
    hide C.Set, C.Find;
    if s.phase != k {
      EnterFinds(s, k, now, k);
    }
  }

  // ----- The change flag ---------------------------------------------------------------------------

  /** The states in which `ensureInitialized` forgets a change it has already seen: the phase was
      written directly, without its condition, and nothing later in the method raises the flag. */
  ghost predicate Forgets(s: Status) {
    && !C.Has(s.conditions, C.Initialized) && s.phase == C.Initialized
    && s.selector != ""
    && exists v :: !C.Changes(s.conditions, VersionCondition(v))
  }

  /** What a false flag of `ensureInitialized` leaves: nothing changed, unless the state forgets. */
  lemma InitialisedUnflagged(s: Status, o: Owner, now: int)
    requires !Forgets(s) && !InitialisedFlag(s, o, now)
    ensures Initialised(s, o, now) == s && C.Has(s.conditions, C.Initialized)
  {
    var s1 := EnteredIf(Mirrored(s, o), !C.Has(s.conditions, C.Initialized), C.Initialized, now);
    C.ReportedChange(s1.conditions, VersionCondition(o.version), now);
    assert !C.Changes(s1.conditions, VersionCondition(o.version));
  }

  lemma UpdateReportsChanges(s: Status, o: Owner, w: Option<Workload>, now: int)
    requires !Forgets(s) && !UpdatedFlag(s, o, w, now)
    ensures Updated(s, o, w, now) == s
  {
    InitialisedUnflagged(s, o, now);
  }

  lemma ForgottenChange(s: Status) returns (o: Owner, w: Option<Workload>)
    requires Forgets(s)
    ensures !UpdatedFlag(s, o, w, 0) && Updated(s, o, w, 0) != s
  {
    var v :| !C.Changes(s.conditions, VersionCondition(v));
    o := Owner(s.hash + "!", s.ready + 1, 1, s.cluster, s.selector, s.role, s.kind, v);
    w := Some(Workload(s.current, s.ready, "", ""));
    assert Updated(s, o, w, 0).hash == s.hash + "!";
    assert |s.hash + "!"| != |s.hash|;
  }

  /** `Update` reports every change it makes, for every input, exactly in the states that do not
      forget. All states with the Initialized condition are among them. */
  lemma UpdateFlagIsComplete(s: Status)
    ensures (forall o, w, now :: !UpdatedFlag(s, o, w, now) ==> Updated(s, o, w, now) == s) <==> !Forgets(s)
  {
    if Forgets(s) {
      var o, w := ForgottenChange(s);
    } else {
      forall o, w, now | !UpdatedFlag(s, o, w, now) ensures Updated(s, o, w, now) == s {
        UpdateReportsChanges(s, o, w, now);
      }
    }
  }

  /** A reported change is real: with replicas wanted and the resource not completed, `Update` answers
      true only if the status is different. (The rendered selector is never empty.) */
  lemma UpdateFlagIsSound(s: Status, o: Owner, w: Option<Workload>, now: int)
    requires s.phase != C.Completed && o.specReplicas != 0 && o.selector != ""
    requires UpdatedFlag(s, o, w, now)
    ensures Updated(s, o, w, now) != s
  {
    var s1 := Initialised(s, o, now);
    var t := Updated(s, o, w, now);
    if !C.Has(s.conditions, C.Initialized) {
      if s.phase != C.Initialized {
        FirstUpdateInitialises(s, o, w, now);
      } else {
        assert s1.phase == s.phase;
        C.ReportedChange(s.conditions, VersionCondition(o.version), now);
      }
    } else {
      C.ReportedChange(s.conditions, VersionCondition(o.version), now);
      assert s1.phase == s.phase;
    }
  }

  /** After any update that does not start with a bare Initialized phase, the Initialized condition
      is there and the version condition is up to date. */
  lemma FirstUpdateInitialises(s: Status, o: Owner, w: Option<Workload>, now: int)
    requires C.Has(s.conditions, C.Initialized) || s.phase != C.Initialized
    ensures var t := Updated(s, o, w, now);
            C.Has(t.conditions, C.Initialized) && !C.Changes(t.conditions, VersionCondition(o.version))
  {
    hide Entered, Initialised, Observed;
    InitialiseHas(s, o, now);
    var s2 := Initialised(s, o, now);
    ObserveHas(s2, w, now);
    EnterHas(Observed(s2, w, now), C.Stopped, now);
  }

  lemma InitialiseHas(s: Status, o: Owner, now: int)
    requires C.Has(s.conditions, C.Initialized) || s.phase != C.Initialized
    ensures var t := Initialised(s, o, now);
            C.Has(t.conditions, C.Initialized) && !C.Changes(t.conditions, VersionCondition(o.version))
  {
    hide Entered;
    var s1 := EnteredIf(Mirrored(s, o), !C.Has(s.conditions, C.Initialized), C.Initialized, now);
    EnterHas(Mirrored(s, o), C.Initialized, now);
    C.FindAfterSet(s1.conditions, VersionCondition(o.version), now, C.Initialized);
    C.FindAfterSet(s1.conditions, VersionCondition(o.version), now, C.Versioned);
  }

  /** `SetCondition` reports every change it makes, for every input, exactly in the same states. */
  lemma SetToFlagIsComplete(s: Status)
    ensures (forall o, k, now :: !SetToFlag(s, o, k, now) ==> SetTo(s, o, k, now) == s) <==> !Forgets(s)
  {
    if Forgets(s) {
      var v :| !C.Changes(s.conditions, VersionCondition(v));
      var o := Owner(s.hash + "!", s.replicas, 1, s.cluster, s.selector, s.role, s.kind, v);
      assert !SetToFlag(s, o, C.Initialized, 0);
      assert SetTo(s, o, C.Initialized, 0).hash == s.hash + "!" && |s.hash + "!"| != |s.hash|;
    } else {
      forall o, k, now | !SetToFlag(s, o, k, now) ensures SetTo(s, o, k, now) == s {
        InitialisedUnflagged(s, o, now);
      }
    }
  }

  /** And where it answers true about a status that is not completed, the status is different. */
  lemma SetToFlagIsSound(s: Status, o: Owner, k: Kind, now: int)
    requires s.phase != C.Completed && o.selector != ""
    requires SetToFlag(s, o, k, now)
    ensures SetTo(s, o, k, now) != s
  {
    var s1 := Initialised(s, o, now);
    InitialisedPhase(s, o, now);
    if !C.Has(s.conditions, C.Initialized) && s.phase != C.Initialized {
      InitialiseHas(s, o, now);
      hide Initialised, C.Find, C.Set;
      if s1.phase != k {
        EntersBut(s1, k, now, C.Initialized);
      }
    } else {
      C.ReportedChange(s.conditions, VersionCondition(o.version), now);
      hide C.Find, C.Set;
    }
  }

  lemma InitialisedVersion(s: Status, o: Owner, now: int)
    ensures var found := C.Find(Initialised(s, o, now).conditions, C.Versioned);
            found.Some? && found.value.status == C.True && found.value.message == o.version && found.value.reason == ""
  {
    hide Entered;
    var s1 := EnteredIf(Mirrored(s, o), !C.Has(s.conditions, C.Initialized), C.Initialized, now);
    C.FindAfterSet(s1.conditions, VersionCondition(o.version), now, C.Versioned);
  }

  /** After any update the Versioned condition is True and carries the version of the operator. */
  lemma VersionRecorded(s: Status, o: Owner, w: Option<Workload>, now: int)
    ensures var found := C.Find(Updated(s, o, w, now).conditions, C.Versioned);
            found.Some? && found.value.status == C.True && found.value.message == o.version
  {
    hide Entered, Observed, Initialised;
    var s1 := Initialised(s, o, now);
    InitialisedVersion(s, o, now);
    ObserveHas(s1, w, now);
    EnterHas(Observed(s1, w, now), C.Stopped, now);
  }

  /** The Versioned condition stays as it is, the Initialized one stays present. */
  predicate KeepsBoth(s: Status, t: Status) {
    && C.Find(t.conditions, C.Versioned) == C.Find(s.conditions, C.Versioned)
    && (C.Has(s.conditions, C.Initialized) ==> C.Has(t.conditions, C.Initialized))
  }

  lemma ObserveHas(s: Status, w: Option<Workload>, now: int)
    ensures KeepsBoth(s, Observed(s, w, now))
  {
    hide Entered;
    if w.Some? {
      var counted := s.(current := w.value.current, ready := w.value.ready);
      EnterHas(counted, C.Ready, now);
      EnterHas(counted, C.RollingUpgrade, now);
    }
  }

  lemma EnterHas(s: Status, k: Kind, now: int)
    requires k != C.Versioned
    ensures KeepsBoth(s, Entered(s, k, now))
    ensures s.phase != k ==> C.Has(Entered(s, k, now).conditions, k)
  {
    if s.phase != k {
      hide Entered, Left, C.Find, C.Set, C.Stamped, FindEntered;
      EntersBut(s, k, now, C.Versioned);
      EntersBut(s, k, now, C.Initialized);
      EntersBut(s, k, now, k);
    }
  }

  /** Entering a phase sets its condition, leaves the Versioned one and takes no other away. */
  lemma EntersBut(s: Status, k: Kind, now: int, x: Kind)
    requires s.phase != k
    ensures var found := C.Find(Entered(s, k, now).conditions, x);
            && (x == k || C.Has(s.conditions, x) ==> found.Some?)
            && (x == C.Versioned && x != k ==> found == C.Find(s.conditions, x))
  {
    hide Entered, Left, C.Find, C.Set, C.Stamped;
    EnterFinds(s, k, now, x);
  }

  // ----- Repeated updates --------------------------------------------------------------------------

  /** The StatefulSet asks for a phase of its own. */
  predicate Asks(o: Owner, w: Option<Workload>) {
    && w.Some?
    && (|| w.value.currentRevision != w.value.updateRevision
        || (o.replicas == w.value.ready && o.replicas == w.value.current))
  }

  /** The phase Initialized has been written directly, without its condition. */
  predicate Bare(s: Status) {
    !C.Has(s.conditions, C.Initialized) && s.phase == C.Initialized
  }

  /** When a second update still reports a change. A resource without replicas whose StatefulSet is still
      there flaps between two phases. A bare status that any phase change has touched gets its missing
      condition now. A completed status reports each phase it is asked to enter, and never enters it. */
  predicate Restless(s: Status, o: Owner, w: Option<Workload>) {
    if Bare(s) || s.phase == C.Completed then o.specReplicas == 0 || Asks(o, w) else o.specReplicas == 0 && Asks(o, w)
  }

  /** Updating again from the same deployment and StatefulSet status, at whatever later time, reports
      no change, and then makes none, transition times included, exactly if the status is not restless. */
  lemma SecondUpdate(s: Status, o: Owner, w: Option<Workload>, now: int, later: int)
    requires o.selector != ""
    ensures var t := Updated(s, o, w, now);
            && (UpdatedFlag(t, o, w, later) <==> Restless(s, o, w))
            && (!Restless(s, o, w) ==> Updated(t, o, w, later) == t)
  {
    var t := Updated(s, o, w, now);
    UpdatedFields(s, o, w, now);
    if Bare(s) {
      BareStaysOrMoves(s, o, w, now);
      if o.specReplicas == 0 || Asks(o, w) {
        hide Updated, Initialised, ObservedFlag, StoppedFlag;
        assert InitialisedFlag(t, o, later);
      } else {
        StillBare(t, o, later);
        SettledAgain(t, o, w, later);
      }
    } else {
      FirstUpdateInitialises(s, o, w, now);
      NothingToInitialise(t, o, later);
      SettledAgain(t, o, w, later);
    }
  }

  /** After an update a bare status has either left the phase Initialized or is as bare as before. */
  lemma BareStaysOrMoves(s: Status, o: Owner, w: Option<Workload>, now: int)
    requires Bare(s)
    ensures var t := Updated(s, o, w, now);
            && !C.Has(t.conditions, C.Initialized)
            && (t.phase == C.Initialized <==> o.specReplicas != 0 && !Asks(o, w))
            && (o.specReplicas != 0 && !Asks(o, w) ==> !C.Changes(t.conditions, VersionCondition(o.version)))
  {
    BareInitialised(s, o, now);
    hide Initialised, Observed, Stopped;
    BareObserved(Initialised(s, o, now), o, w, now);
  }

  lemma BareInitialised(s: Status, o: Owner, now: int)
    requires Bare(s)
    ensures Initialised(s, o, now) == Labelled(Mirrored(s, o), o, now)
    ensures var t := Initialised(s, o, now);
            Bare(t) && t.replicas == o.replicas && !C.Changes(t.conditions, VersionCondition(o.version))
  {
    EnteredAlready(Mirrored(s, o), now);
    BareLabelled(s, o, now);
    hide Entered, Labelled;
  }

  lemma BareObserved(s: Status, o: Owner, w: Option<Workload>, now: int)
    requires Bare(s) && s.replicas == o.replicas
    ensures var t := Stopped(Observed(s, w, now), o.specReplicas, now);
            && !C.Has(t.conditions, C.Initialized)
            && (t.phase == C.Initialized <==> o.specReplicas != 0 && !Asks(o, w))
            && (o.specReplicas != 0 && !Asks(o, w) ==> t.conditions == s.conditions)
  {
    hide Entered, C.Has;
    if w.Some? {
      var counted := s.(current := w.value.current, ready := w.value.ready);
      EnteredLeaves(counted, C.Ready, now);
      EnteredLeaves(counted, C.RollingUpgrade, now);
    }
    EnteredLeaves(Observed(s, w, now), C.Stopped, now);
  }

  lemma BareLabelled(s: Status, o: Owner, now: int)
    requires Bare(s)
    ensures var t := Labelled(Mirrored(s, o), o, now);
            Bare(t) && t.replicas == o.replicas && !C.Changes(t.conditions, VersionCondition(o.version))
  {
    C.FindAfterSet(s.conditions, VersionCondition(o.version), now, C.Initialized);
    C.FindAfterSet(s.conditions, VersionCondition(o.version), now, C.Versioned);
  }

  lemma EnteredLeaves(s: Status, k: Kind, now: int)
    requires k != C.Initialized
    ensures C.Has(Entered(s, k, now).conditions, C.Initialized) == C.Has(s.conditions, C.Initialized)
    ensures s.phase != C.Completed ==> Entered(s, k, now).phase == k
  {
    hide Left, C.Find, C.Set, C.Stamped;
    if s.phase != k {
      EnterFinds(s, k, now, C.Initialized);
    }
  }

  lemma StillBare(t: Status, o: Owner, later: int)
    requires Bare(t) && !C.Changes(t.conditions, VersionCondition(o.version))
    requires t.hash == o.hash && t.replicas == o.replicas && t.cluster == o.cluster
    requires t.role == o.role && t.kind == o.kind && t.selector != ""
    ensures Initialised(t, o, later) == t && !InitialisedFlag(t, o, later)
  {
    hide Entered, C.Set, C.Find, C.Changes;
    assert Mirrored(t, o) == t;
    EnteredAlready(t, later);
    C.ReportedChange(t.conditions, VersionCondition(o.version), later);
  }

  lemma NothingToInitialise(t: Status, o: Owner, later: int)
    requires C.Has(t.conditions, C.Initialized) && !C.Changes(t.conditions, VersionCondition(o.version))
    requires t.hash == o.hash && t.replicas == o.replicas && t.cluster == o.cluster
    requires t.role == o.role && t.kind == o.kind && t.selector != ""
    ensures Initialised(t, o, later) == t && !InitialisedFlag(t, o, later)
  {
    hide Entered, C.Set, C.Find, C.Changes;
    C.ReportedChange(t.conditions, VersionCondition(o.version), later);
    assert Mirrored(t, o) == t;
  }

  /** With nothing to initialise, the next update is about the phase alone. */
  lemma SettledAgain(t: Status, o: Owner, w: Option<Workload>, later: int)
    requires Initialised(t, o, later) == t && !InitialisedFlag(t, o, later) && t.replicas == o.replicas
    requires t.current == (if w.Some? then w.value.current else 0) && t.ready == (if w.Some? then w.value.ready else 0)
    requires t.phase == C.Completed || (o.specReplicas == 0 ==> t.phase == C.Stopped)
    requires t.phase == C.Completed ||
             (o.specReplicas != 0 && w.Some? ==> PhaseFor(t, w.value) in {None, Some(t.phase)})
    ensures var moves := if t.phase == C.Completed then o.specReplicas == 0 || Asks(o, w)
                         else o.specReplicas == 0 && Asks(o, w);
            (UpdatedFlag(t, o, w, later) <==> moves) && (!moves ==> Updated(t, o, w, later) == t)
  {
    hide Initialised, InitialisedFlag;
    EnteredAlready(t, later);
    hide Entered;
    if w.Some? {
      assert t.(current := w.value.current, ready := w.value.ready) == t;
    }
  }

  lemma EnteredAlready(t: Status, now: int)
    ensures Entered(t, t.phase, now) == t
  {
  }

  /** The fields after an update. */
  lemma UpdatedFields(s: Status, o: Owner, w: Option<Workload>, now: int)
    ensures var t := Updated(s, o, w, now);
            && (t.phase == C.Completed <==> s.phase == C.Completed)
            && t.hash == o.hash && t.replicas == o.replicas && t.cluster == o.cluster
            && t.role == o.role && t.kind == o.kind
            && t.selector == (if s.selector == "" then o.selector else s.selector)
            && t.current == (if w.Some? then w.value.current else 0)
            && t.ready == (if w.Some? then w.value.ready else 0)
            && (s.phase != C.Completed ==>
                  && (o.specReplicas == 0 ==> t.phase == C.Stopped)
                  && (o.specReplicas != 0 && w.Some? ==> PhaseFor(t, w.value) in {None, Some(t.phase)}))
  {
    hide Entered;
    EnterFields(Mirrored(s, o), C.Initialized, now);
    var s2 := Initialised(s, o, now);
    if w.Some? {
      var counted := s2.(current := w.value.current, ready := w.value.ready);
      EnterFields(counted, C.Ready, now);
      EnterFields(counted, C.RollingUpgrade, now);
    }
    EnterFields(Observed(s2, w, now), C.Stopped, now);
  }

  /** Entering a phase changes the phase and the conditions alone. */
  lemma EnterFields(s: Status, k: Kind, now: int)
    ensures var t := Entered(s, k, now);
            && t == s.(phase := t.phase, conditions := t.conditions)
            && t.phase == if s.phase == C.Completed then C.Completed else k
  {
  }

  /** The phase after an update: a resource without replicas is Stopped; else two revisions mean a rolling
      upgrade, and one revision with every replica current and ready means Ready; nothing else
      changes the phase but the initialisation of a status without the Initialized condition. */
  lemma UpdatedPhase(s: Status, o: Owner, w: Option<Workload>, now: int)
    requires s.phase != C.Completed
    ensures var phase := Updated(s, o, w, now).phase;
            && (o.specReplicas == 0 ==> phase == C.Stopped)
            && (o.specReplicas != 0 ==>
                  if w.Some? && w.value.currentRevision != w.value.updateRevision then phase == C.RollingUpgrade
                  else if w.Some? && w.value.ready == o.replicas && w.value.current == o.replicas
                  then phase == C.Ready
                  else if exists c :: c in s.conditions && c.kind == C.Initialized then phase == s.phase
                  else phase == C.Initialized)
  {
    hide C.Set, C.Find, Left;
  }

  // ----- Jobs --------------------------------------------------------------------------------------

  lemma {:induction false} UnflaggedMerge(es: seq<JobProbe>, ps: seq<JobProbe>)
    requires !AnyMerge(es, ps)
    ensures MergedAll(es, ps) == es
  {
    if ps != [] {
      UnflaggedMerge(es, ps[..|ps| - 1]);
    }
  }

  /** Nothing in a job update before the merge touches the probe results. */
  lemma ProbesUntouched(s: Status, o: Owner, job: Option<Job>, now: int)
    ensures Stopped(JobObserved(Initialised(s, o, now), job, now), o.specReplicas, now).jobProbes == s.jobProbes
  {
  }

  /** The states in which a job update forgets a change it has already seen. */
  ghost predicate JobForgets(s: Status) {
    s.phase == C.Completed || (Forgets(s) && s.current == s.active + s.succeeded)
  }

  /** The fields after a job update. */
  lemma JobUpdatedFields(s: Status, o: Owner, job: Option<Job>, ps: seq<JobProbe>, now: int)
    ensures var t := JobUpdated(s, o, job, ps, now);
            && t.hash == o.hash && t.replicas == o.replicas && t.cluster == o.cluster
            && t.role == o.role && t.kind == o.kind
            && (job.None? ==> (t.active, t.succeeded, t.failed, t.current, t.ready) == (0, 0, 0, 0, 0))
            && (job.Some? ==>
                  && t.active == job.value.active && t.succeeded == job.value.succeeded
                  && t.failed == job.value.failed && t.current == job.value.active + job.value.succeeded
                  && t.ready == (if job.value.ready.Some? then job.value.ready.value else s.ready))
            && (ps == [] ==> t.jobProbes == s.jobProbes) && (s.jobProbes == [] ==> t.jobProbes == ps)
  {
    hide Entered;
    EnterFields(Mirrored(s, o), C.Initialized, now);
    var s1 := Initialised(s, o, now);
    if job.Some? {
      EnterFields(JobCounts(s1, job.value), C.Ready, now);
      EnterFields(JobReady(s1, job.value, now), C.Completed, now);
    }
    EnterFields(JobObserved(s1, job, now), C.Stopped, now);
  }

  /** The phase after a job update: Completed for a completed job, else Stopped without replicas, else Ready
      when all replicas are current and ready, else what the initialisation left. */
  lemma JobUpdatedPhase(s: Status, o: Owner, job: Option<Job>, ps: seq<JobProbe>, now: int)
    ensures var t := JobUpdated(s, o, job, ps, now);
            if s.phase == C.Completed || (job.Some? && job.value.completed) then t.phase == C.Completed
            else if o.specReplicas == 0 then t.phase == C.Stopped
            else if job.Some? && t.ready == o.replicas && t.current == o.replicas then t.phase == C.Ready
            else if exists c :: c in s.conditions && c.kind == C.Initialized then t.phase == s.phase
            else t.phase == C.Initialized
  {
    hide C.Set, C.Find, Left;
  }

  lemma JobReportsChanges(s: Status, o: Owner, job: Option<Job>, ps: seq<JobProbe>, now: int)
    requires !JobForgets(s) && !JobUpdatedFlag(s, o, job, ps, now)
    ensures JobUpdated(s, o, job, ps, now) == s
  {
    var s1 := Initialised(s, o, now);
    InitialisedPhase(s, o, now);
    JobReadyOpen(s1, job, now);
    if !Forgets(s) {
      InitialisedUnflagged(s, o, now);
    }
    if s.jobProbes != [] {
      UnflaggedMerge(s.jobProbes, ps);
    }
  }

  lemma InitialisedPhase(s: Status, o: Owner, now: int)
    ensures var t := Initialised(s, o, now);
            && t.phase ==
               (if C.Has(s.conditions, C.Initialized) || s.phase == C.Completed then s.phase else C.Initialized)
            && t.current == s.current && t.active == s.active && t.succeeded == s.succeeded
            && t.jobProbes == s.jobProbes
  {
  }

  lemma JobReadyOpen(s: Status, job: Option<Job>, now: int)
    ensures job.Some? && s.phase != C.Completed ==> JobReady(s, job.value, now).phase != C.Completed
  {
  }

  lemma ForgottenJobChange(s: Status) returns (o: Owner, job: Option<Job>)
    requires JobForgets(s)
    ensures !JobUpdatedFlag(s, o, job, [], 0) && JobUpdated(s, o, job, [], 0) != s
  {
    if s.phase == C.Completed {
      o := Owner(s.hash + "!", s.replicas, 1, s.cluster, s.selector, s.role, s.kind, "");
      job := Some(Job(s.active, s.succeeded, s.failed, None, true));
    } else {
      var v :| !C.Changes(s.conditions, VersionCondition(v));
      o := Owner(s.hash + "!", s.ready + 1, 1, s.cluster, s.selector, s.role, s.kind, v);
      job := Some(Job(s.active, s.succeeded, s.failed, None, false));
    }
    assert JobUpdated(s, o, job, [], 0).hash == s.hash + "!";
    assert |s.hash + "!"| != |s.hash|;
  }

  /** `UpdateFromJob` reports every change it makes, for every input, exactly in the states that do not
      forget; a completed job always does. */
  lemma JobFlagIsComplete(s: Status)
    ensures (forall o, job, ps, now :: !JobUpdatedFlag(s, o, job, ps, now) ==> JobUpdated(s, o, job, ps, now) == s)
            <==> !JobForgets(s)
  {
    if JobForgets(s) {
      var o, job := ForgottenJobChange(s);
    } else {
      forall o, job, ps, now | !JobUpdatedFlag(s, o, job, ps, now) ensures JobUpdated(s, o, job, ps, now) == s {
        JobReportsChanges(s, o, job, ps, now);
      }
    }
  }

  lemma JobObserveHas(s: Status, job: Option<Job>, now: int)
    ensures KeepsBoth(s, JobObserved(s, job, now))
  {
    hide Entered;
    if job.Some? {
      EnterHas(JobCounts(s, job.value), C.Ready, now);
      EnterHas(JobReady(s, job.value, now), C.Completed, now);
    }
  }

  /** A merge that reports a change has made one: a later result does not undo an earlier one. */
  lemma {:induction false} FlaggedMerge(es: seq<JobProbe>, ps: seq<JobProbe>)
    ensures Advanced(es, MergedAll(es, ps))
    ensures AnyMerge(es, ps) ==> MergedAll(es, ps) != es
  {
    if ps != [] {
      FlaggedMerge(es, ps[..|ps| - 1]);
      MergedOneAdvances(MergedAll(es, ps[..|ps| - 1]), ps[|ps| - 1]);
      hide MergedOne;
    }
  }

  /** The same for `UpdateFromJob`: with replicas wanted and the resource not completed, it answers true only
      if the status is different. */
  lemma JobFlagIsSound(s: Status, o: Owner, job: Option<Job>, ps: seq<JobProbe>, now: int)
    requires s.phase != C.Completed && o.specReplicas != 0 && o.selector != ""
    requires JobUpdatedFlag(s, o, job, ps, now)
    ensures JobUpdated(s, o, job, ps, now) != s
  {
    var s1, t := Initialised(s, o, now), JobUpdated(s, o, job, ps, now);
    ProbesUntouched(s, o, job, now);
    FlaggedMerge(s.jobProbes, ps);
    if !MergeFlag(s.jobProbes, ps) {
      JobUpdatedFields(s, o, job, ps, now);
      JobUpdatedPhase(s, o, job, ps, now);
      InitialisedPhase(s, o, now);
      JobObserveHas(s1, job, now);
      InitialisedVersion(s, o, now);
      if C.Has(s.conditions, C.Initialized) || s.phase != C.Initialized {
        InitialiseHas(s, o, now);
      }
      hide Initialised, C.Find, C.Set, Entered;
    }
  }
}
