/** The ReadyAction of a job: it is attempted once for each Pod and each time the Pod becomes Ready. */
module ReadyActions {
  import opened Wrappers
  import opened Status
  import StatusRuns

  datatype PodCondition = PodCondition(kind: string, status: string, since: int)

  /** A Pod as one reconcile sees it. `answer` is what the probe would say, `at` the clock after it. */
  datatype Pod = Pod(name: string, conditions: seq<PodCondition>, answer: Result<bool>, at: int)

  /** `findPodReadyCondition`: the first condition of type Ready. */
  method FindPodReadyCondition(pod: Pod) returns (c: Option<PodCondition>)
    ensures c == ReadyCondition(pod.conditions)
    ensures c.None? ==> forall x <- pod.conditions :: x.kind != "Ready"
    ensures c.Some? ==> exists i :: FirstReady(pod.conditions, i) && pod.conditions[i] == c.value
  {
    for i := 0 to |pod.conditions|
      invariant forall j :: 0 <= j < i ==> pod.conditions[j].kind != "Ready"
      invariant ReadyCondition(pod.conditions) == ReadyCondition(pod.conditions[i..])
    {
      if pod.conditions[i].kind == "Ready" {
        assert FirstReady(pod.conditions, i);
        return Some(pod.conditions[i]);
      }
    }
    return None;
  }

  function ReadyCondition(cs: seq<PodCondition>): Option<PodCondition> {
    if cs == [] then None else if cs[0].kind == "Ready" then Some(cs[0]) else ReadyCondition(cs[1..])
  }

  /** The condition at `i` is of type Ready, and none before it is. */
  ghost predicate FirstReady(cs: seq<PodCondition>, i: int) {
    0 <= i < |cs| && cs[i].kind == "Ready" && forall j :: 0 <= j < i ==> cs[j].kind != "Ready"
  }

  lemma {:induction false} ReadyConditionAt(cs: seq<PodCondition>, i: int)
    requires FirstReady(cs, i)
    ensures ReadyCondition(cs) == Some(cs[i])
  {
    if i > 0 {
      ReadyConditionAt(cs[1..], i - 1);
    }
  }

  lemma {:induction false} ReadyConditionIsFirst(cs: seq<PodCondition>)
    ensures ReadyCondition(cs).Some? ==> exists i :: FirstReady(cs, i) && cs[i] == ReadyCondition(cs).value
  {
    if cs != [] {
      if cs[0].kind == "Ready" {
        assert FirstReady(cs, 0);
      } else {
        ReadyConditionIsFirst(cs[1..]);
        if i :| FirstReady(cs[1..], i) && Some(cs[1..][i]) == ReadyCondition(cs[1..]) {
          assert FirstReady(cs, i + 1);
        }
      }
    }
  }

  function Recorded(es: seq<JobProbe>, pod: string): JobProbe {
    FindProbe(es, pod).GetOr(JobProbe(pod, None, None, None, None))
  }

  /** `shouldExecuteProbe`: Ready now, and since a later time than the one recorded. */
  predicate Due(e: JobProbe, c: Option<PodCondition>) {
    && c.Some? && c.value.status == "True"
    && (e.lastReady.Some? ==> c.value.since > e.lastReady.value)
  }

  /** The result of an attempt on `pod`. */
  function Attempted(pod: Pod, since: int): JobProbe {
    var ok := pod.answer == Ok(true);
    JobProbe(pod.name, Some(since), Some(pod.at), Some(ok), if ok then None else Some("error"))
  }

  /** The attempts a reconcile makes on a list of Pods, in list order. */
  function Attempts(es: seq<JobProbe>, pods: seq<Pod>): seq<JobProbe> {
    if pods == [] then []
    else
      var pod := pods[|pods| - 1];
      var c := ReadyCondition(pod.conditions);
      Attempts(es, pods[..|pods| - 1])
      + if Due(Recorded(es, pod.name), c) then [Attempted(pod, c.value.since)] else []
  }

  /** What decides whether the Pods are looked at: the action, its count and the job's. */
  datatype Gate = Gate(hasAction: bool, readyCount: Option<int>, replicas: int, succeeded: int, ready: Option<int>)

  /** `maybeExecuteProbe`; `pods` is the list from the API, if it could be had. */
  method MaybeExecuteProbe(g: Gate, es: seq<JobProbe>, pods: Option<seq<Pod>>)
    returns (failed: bool, statuses: seq<JobProbe>)
    ensures var wanted := if g.readyCount.Some? then g.readyCount.value else g.replicas;
            var reached := g.succeeded + if g.ready.Some? then g.ready.value else 0;
            if !g.hasAction || reached < wanted then !failed && statuses == []
            else if pods.None? then failed && statuses == []
            else !failed && statuses == Attempts(es, pods.value)
  {
    failed, statuses := false, [];
    if !g.hasAction {
      return;
    }
    var readyCount := if g.readyCount.Some? then g.readyCount.value else g.replicas;
    var count := g.succeeded;
    if g.ready.Some? {
      count := count + g.ready.value;
    }
    if count < readyCount {
      return;
    }
    if pods.None? {
      failed := true;
      return;
    }
    var items := pods.value;
    for i := 0 to |items|
      invariant statuses == Attempts(es, items[..i])
    {
      var pod := items[i];
      var probeStatus := Recorded(es, pod.name);
      var c := FindPodReadyCondition(pod);
      assert items[..i + 1][..i] == items[..i];
      if Due(probeStatus, c) {
        if pod.answer == Ok(true) {
          probeStatus := probeStatus.(success := Some(true), error := None);
        } else {
          probeStatus := probeStatus.(success := Some(false), error := Some("error"));
        }
        probeStatus := probeStatus.(lastProbe := Some(pod.at), lastReady := Some(c.value.since));
        statuses := statuses + [probeStatus];
      }
    }
    assert items[..|items|] == items;
  }

  // ----- Merging -----------------------------------------------------------------------------------

  predicate UniquePods(es: seq<JobProbe>) {
    forall i, j :: 0 <= i < j < |es| ==> es[i].pod != es[j].pod
  }

  lemma {:induction false} FindMergedOne(es: seq<JobProbe>, p: JobProbe, pod: string)
    ensures FindProbe(MergedOne(es, p), pod) ==
              if pod != p.pod then FindProbe(es, pod)
              else match FindProbe(es, pod)
                case None => Some(p)
                case Some(e) => Some(if Before(e.lastProbe, p.lastProbe) then p else e)
  {
    if es != [] {
      if es[0].pod == p.pod {
        assert MergedOne(es, p)[1..] == es[1..];
      } else {
        FindMergedOne(es[1..], p, pod);
        assert MergedOne(es, p)[1..] == MergedOne(es[1..], p);
      }
    }
  }

  lemma {:induction false} MergedOneUnique(es: seq<JobProbe>, p: JobProbe)
    requires UniquePods(es)
    ensures UniquePods(MergedOne(es, p))
  {
    if es != [] && es[0].pod != p.pod {
      MergedOneUnique(es[1..], p);
      FindMergedOne(es[1..], p, es[0].pod);
      assert FindProbe(es[1..], es[0].pod) == None by {
        assert forall e <- es[1..] :: e.pod != es[0].pod;
      }
      var rest := MergedOne(es[1..], p);
      assert forall i :: 0 <= i < |rest| ==> rest[i] in rest;
    }
  }

  /** `ps` are the results of one reconcile: one a Pod, each probed after anything recorded. */
  ghost predicate Later(es: seq<JobProbe>, ps: seq<JobProbe>) {
    && UniquePods(ps)
    && forall p <- ps :: FindProbe(es, p.pod).Some? ==> Before(FindProbe(es, p.pod).value.lastProbe, p.lastProbe)
  }

  lemma {:induction false} MergedAllFinds(es: seq<JobProbe>, ps: seq<JobProbe>)
    requires UniquePods(es) && Later(es, ps)
    ensures UniquePods(MergedAll(es, ps))
    ensures forall pod :: FindProbe(MergedAll(es, ps), pod) ==
                            if FindProbe(ps, pod).Some? then FindProbe(ps, pod) else FindProbe(es, pod)
  {
    if ps != [] {
      var before, p := ps[..|ps| - 1], ps[|ps| - 1];
      MergedAllFinds(es, before);
      MergedOneUnique(MergedAll(es, before), p);
      assert ps == before + [p] && p in ps;
      assert FindProbe(before, p.pod) == None by {
        assert forall i :: 0 <= i < |before| ==> ps[i].pod != ps[|ps| - 1].pod;
      }
      forall pod
        ensures FindProbe(MergedAll(es, ps), pod) ==
                  if FindProbe(ps, pod).Some? then FindProbe(ps, pod) else FindProbe(es, pod)
      {
        MergeStep(es, before, MergedAll(es, before), p, pod);
      }
    }
  }

  lemma MergeStep(es: seq<JobProbe>, before: seq<JobProbe>, merged: seq<JobProbe>, p: JobProbe, pod: string)
    requires FindProbe(merged, pod) ==
               if FindProbe(before, pod).Some? then FindProbe(before, pod) else FindProbe(es, pod)
    requires FindProbe(before, p.pod) == None
    requires FindProbe(es, p.pod).Some? ==> Before(FindProbe(es, p.pod).value.lastProbe, p.lastProbe)
    ensures var all := before + [p];
            FindProbe(MergedOne(merged, p), pod) ==
              if FindProbe(all, pod).Some? then FindProbe(all, pod) else FindProbe(es, pod)
  {
    hide MergedOne, Before, FindProbe;
    FindMergedOne(merged, p, pod);
    FindAppended(before, p, pod);
  }

  lemma {:induction false} FindAppended(ps: seq<JobProbe>, p: JobProbe, pod: string)
    ensures FindProbe(ps + [p], pod) ==
              if FindProbe(ps, pod).Some? then FindProbe(ps, pod) else if p.pod == pod then Some(p) else None
  {
    if ps != [] {
      assert (ps + [p])[1..] == ps[1..] + [p];
      FindAppended(ps[1..], p, pod);
    }
  }

  /** The merge keeps one entry a Pod: the new result where there is one, else the recorded one. */
  lemma MergedFinds(es: seq<JobProbe>, ps: seq<JobProbe>)
    requires UniquePods(es) && Later(es, ps)
    ensures UniquePods(Merged(es, ps))
    ensures forall pod :: FindProbe(Merged(es, ps), pod) ==
                            if FindProbe(ps, pod).Some? then FindProbe(ps, pod) else FindProbe(es, pod)
  {
    MergedAllFinds(es, ps);
  }

  /** Recorded probe times never go backwards, whatever is merged. */
  lemma {:induction false} MergedAdvances(es: seq<JobProbe>, ps: seq<JobProbe>)
    ensures Advanced(es, MergedAll(es, ps))
  {
    if ps != [] {
      MergedAdvances(es, ps[..|ps| - 1]);
      MergedOneAdvances(MergedAll(es, ps[..|ps| - 1]), ps[|ps| - 1]);
    }
  }

  // ----- Attempts ----------------------------------------------------------------------------------

  ghost predicate DistinctNames(pods: seq<Pod>) {
    forall i, j :: 0 <= i < j < |pods| ==> pods[i].name != pods[j].name
  }

  /** Each attempt is on a listed Pod, due by what was recorded, and there is one a Pod. */
  lemma {:induction false} AttemptsAreDue(es: seq<JobProbe>, pods: seq<Pod>)
    requires DistinctNames(pods)
    ensures UniquePods(Attempts(es, pods))
    ensures forall a <- Attempts(es, pods) :: exists pod :: pod in pods && MadeOn(es, pod, a)
  {
    if pods != [] {
      var before, pod := pods[..|pods| - 1], pods[|pods| - 1];
      AttemptsAreDue(es, before);
      var as' := Attempts(es, pods);
      forall a | a in as' ensures exists x :: x in pods && MadeOn(es, x, a) {
        if a in Attempts(es, before) {
          var x :| x in before && MadeOn(es, x, a);
          assert x in pods;
        } else {
          assert MadeOn(es, pod, a);
        }
      }
      forall i | 0 <= i < |Attempts(es, before)| ensures as'[i].pod != pod.name {
        assert as'[i] in Attempts(es, before);
        var x :| x in before && MadeOn(es, x, as'[i]);
      }
    }
  }

  ghost predicate MadeOn(es: seq<JobProbe>, pod: Pod, a: JobProbe) {
    && Due(Recorded(es, pod.name), ReadyCondition(pod.conditions))
    && a == Attempted(pod, ReadyCondition(pod.conditions).value.since)
  }

  /** The Pod has a first Ready condition, at `i`; it is True, and since later than what is recorded for the
      Pod, if anything is. */
  ghost predicate BecameReady(es: seq<JobProbe>, pod: Pod, i: int) {
    && FirstReady(pod.conditions, i) && pod.conditions[i].status == "True"
    && (FindProbe(es, pod.name).Some? && FindProbe(es, pod.name).value.lastReady.Some? ==>
          pod.conditions[i].since > FindProbe(es, pod.name).value.lastReady.value)
  }

  /** `a` records what the probe answered, for the transition that the condition at `i` reports. */
  predicate Records(a: JobProbe, pod: Pod, i: int) {
    && 0 <= i < |pod.conditions|
    && a.pod == pod.name && a.lastReady == Some(pod.conditions[i].since) && a.lastProbe == Some(pod.at)
    && a.success == Some(pod.answer == Ok(true)) && (a.error == None <==> pod.answer == Ok(true))
  }

  /** The attempts are those on the listed Pods that became Ready since what is recorded, and on no others;
      each result says what the probe answered and when. */
  lemma AttemptsFollowReadiness(es: seq<JobProbe>, pods: seq<Pod>)
    ensures forall a <- Attempts(es, pods) ::
              exists pod, i :: pod in pods && BecameReady(es, pod, i) && Records(a, pod, i)
    ensures forall pod, i :: pod in pods && BecameReady(es, pod, i) ==>
              exists a :: a in Attempts(es, pods) && Records(a, pod, i)
  {
    forall a | a in Attempts(es, pods)
      ensures exists pod, i :: pod in pods && BecameReady(es, pod, i) && Records(a, pod, i)
    {
      var pod := AttemptedOn(es, pods, a);
      ReadyConditionIsFirst(pod.conditions);
      var i :| FirstReady(pod.conditions, i) && Some(pod.conditions[i]) == ReadyCondition(pod.conditions);
      assert BecameReady(es, pod, i) && Records(a, pod, i);
    }
    forall pod, i | pod in pods && BecameReady(es, pod, i)
      ensures exists a :: a in Attempts(es, pods) && Records(a, pod, i)
    {
      ReadyConditionAt(pod.conditions, i);
      DueIsAttempted(es, pods, pod);
      assert Records(Attempted(pod, pod.conditions[i].since), pod, i);
    }
  }

  lemma {:induction false} AttemptedOn(es: seq<JobProbe>, pods: seq<Pod>, a: JobProbe) returns (pod: Pod)
    requires a in Attempts(es, pods)
    ensures pod in pods && MadeOn(es, pod, a)
  {
    pod := pods[|pods| - 1];
    if !MadeOn(es, pod, a) {
      pod := AttemptedOn(es, pods[..|pods| - 1], a);
    }
  }

  /** The attempts come in the order of the list. */
  lemma {:induction false} AttemptsInOrder(es: seq<JobProbe>, first: seq<Pod>, rest: seq<Pod>)
    ensures Attempts(es, first + rest) == Attempts(es, first) + Attempts(es, rest)
  {
    hide Due, Attempted, Recorded, ReadyCondition;
    if rest == [] {
      assert first + rest == first;
    } else {
      AttemptsInOrder(es, first, rest[..|rest| - 1]);
      assert (first + rest)[..|first + rest| - 1] == first + rest[..|rest| - 1];
    }
  }

  // ----- Whole runs --------------------------------------------------------------------------------

  /** One job reconcile: what it lists, what it updates the status from, and whether the API takes the
      new status. */
  datatype Round = Round(pods: seq<Pod>, o: Owner, job: Option<Job>, now: int, written: bool)

  /** An attempt, and whether its reconcile got the status written that records it. */
  datatype Attempt = Attempt(result: JobProbe, recorded: bool)

  /** The persisted status, every attempt made so far, and the latest probe time of any of them. */
  datatype State = State(s: Status, history: seq<Attempt>, clock: int)

  /** `UpdateFromJob` has something to persist, and the write fails. */
  predicate Lost(s: Status, r: Round) {
    JobUpdatedFlag(s, r.o, r.job, Attempts(s.jobProbes, r.pods), r.now) && !r.written
  }

  /** The update is persisted when `UpdateFromJob` says so, unless the write fails. */
  function Persisted(s: Status, r: Round): Status {
    var ps := Attempts(s.jobProbes, r.pods);
    if JobUpdatedFlag(s, r.o, r.job, ps, r.now) && r.written then JobUpdated(s, r.o, r.job, ps, r.now) else s
  }

  /** The persisted results: merged, also if `UpdateFromJob` has nothing to persist. */
  lemma PersistedProbes(s: Status, r: Round)
    ensures Persisted(s, r).jobProbes ==
              if Lost(s, r) then s.jobProbes else Merged(s.jobProbes, Attempts(s.jobProbes, r.pods))
  {
    var ps := Attempts(s.jobProbes, r.pods);
    StatusRuns.ProbesUntouched(s, r.o, r.job, r.now);
    if !JobUpdatedFlag(s, r.o, r.job, ps, r.now) && s.jobProbes != [] {
      StatusRuns.UnflaggedMerge(s.jobProbes, ps);
    }
  }

  function Latest(clock: int, pods: seq<Pod>): int {
    if pods == [] then clock
    else
      var before := Latest(clock, pods[..|pods| - 1]);
      if pods[|pods| - 1].at > before then pods[|pods| - 1].at else before
  }

  lemma {:induction false} LatestIsLatest(clock: int, pods: seq<Pod>)
    ensures Latest(clock, pods) >= clock
    ensures forall pod <- pods :: pod.at <= Latest(clock, pods)
  {
    if pods != [] {
      LatestIsLatest(clock, pods[..|pods| - 1]);
      assert pods == pods[..|pods| - 1] + [pods[|pods| - 1]];
    }
  }

  function Marked(ps: seq<JobProbe>, recorded: bool): seq<Attempt> {
    seq(|ps|, i requires 0 <= i < |ps| => Attempt(ps[i], recorded))
  }

  function Next(st: State, r: Round): State {
    var ps := Attempts(st.s.jobProbes, r.pods);
    State(Persisted(st.s, r), st.history + Marked(ps, !Lost(st.s, r)), Latest(st.clock, r.pods))
  }

  /** Pod names are distinct, and the probes of a reconcile come after those of earlier ones. */
  ghost predicate Timely(st: State, r: Round) {
    DistinctNames(r.pods) && forall pod <- r.pods :: pod.at > st.clock
  }

  ghost predicate TimelyRun(st: State, rounds: seq<Round>)
    decreases |rounds|
  {
    rounds == [] || (Timely(st, rounds[0]) && TimelyRun(Next(st, rounds[0]), rounds[1..]))
  }

  function After(st: State, rounds: seq<Round>): State
    decreases |rounds|
  {
    if rounds == [] then st else After(Next(st, rounds[0]), rounds[1..])
  }

  predicate SameTransition(a: Attempt, b: Attempt) {
    a.result.pod == b.result.pod && a.result.lastReady == b.result.lastReady
  }

  /** An attempt that was recorded is the last one on its Pod for its Ready transition. */
  ghost predicate OncePerTransition(history: seq<Attempt>) {
    forall i, j :: 0 <= i < j < |history| && SameTransition(history[i], history[j]) ==> !history[i].recorded
  }

  predicate Covers(es: seq<JobProbe>, a: JobProbe) {
    && a.lastReady.Some? && FindProbe(es, a.pod).Some?
    && FindProbe(es, a.pod).value.lastReady.Some?
    && FindProbe(es, a.pod).value.lastReady.value >= a.lastReady.value
  }

  ghost predicate Inv(st: State) {
    && UniquePods(st.s.jobProbes)
    && (forall e <- st.s.jobProbes :: e.lastProbe.Some? && e.lastProbe.value <= st.clock && e.lastReady.Some?)
    && OncePerTransition(st.history)
    && (forall a <- st.history :: a.recorded ==> Covers(st.s.jobProbes, a.result))
  }

  lemma RoundIsLater(st: State, r: Round)
    requires Inv(st) && Timely(st, r)
    ensures Later(st.s.jobProbes, Attempts(st.s.jobProbes, r.pods))
  {
    AttemptsAreDue(st.s.jobProbes, r.pods);
    forall p | p in Attempts(st.s.jobProbes, r.pods) && FindProbe(st.s.jobProbes, p.pod).Some?
      ensures Before(FindProbe(st.s.jobProbes, p.pod).value.lastProbe, p.lastProbe)
    {
      var pod :| pod in r.pods && MadeOn(st.s.jobProbes, pod, p);
    }
  }

  lemma RoundKeepsInv(st: State, r: Round)
    requires Inv(st) && Timely(st, r)
    ensures Inv(Next(st, r))
  {
    LatestIsLatest(st.clock, r.pods);
    NewAttemptsAreNew(st, r);
    PersistedProbes(st.s, r);
    hide Persisted, Lost;
    if Lost(st.s, r) {
      assert Next(st, r).s.jobProbes == st.s.jobProbes;
    } else {
      RecordedRoundCovers(st, r);
    }
  }

  /** A reconcile whose status is written covers every attempt so far, its own included. */
  lemma RecordedRoundCovers(st: State, r: Round)
    requires Inv(st) && Timely(st, r)
    ensures var es' := Merged(st.s.jobProbes, Attempts(st.s.jobProbes, r.pods));
            && UniquePods(es')
            && (forall e <- es' ::
                  e.lastProbe.Some? && e.lastProbe.value <= Latest(st.clock, r.pods) && e.lastReady.Some?)
            && (forall a <- st.history :: a.recorded ==> Covers(es', a.result))
            && (forall p <- Attempts(st.s.jobProbes, r.pods) :: Covers(es', p))
  {
    var es := st.s.jobProbes;
    var ps := Attempts(es, r.pods);
    var es' := Merged(es, ps);
    RoundIsLater(st, r);
    MergedFinds(es, ps);
    LatestIsLatest(st.clock, r.pods);
    AttemptsAreDue(es, r.pods);
    forall e | e in es'
      ensures e.lastProbe.Some? && e.lastProbe.value <= Latest(st.clock, r.pods) && e.lastReady.Some?
    {
      FoundBack(es', e);
      if FindProbe(ps, e.pod).Some? {
        var pod :| pod in r.pods && MadeOn(es, pod, e);
      }
    }
    forall a: JobProbe | Covers(es, a) || a in ps ensures Covers(es', a) {
      if FindProbe(ps, a.pod).Some? {
        var p := FindProbe(ps, a.pod).value;
        var pod :| pod in r.pods && MadeOn(es, pod, p);
        if a in ps { FoundBack(ps, a); }
      } else {
        assert Covers(es, a);
      }
    }
  }

  lemma {:induction false} FoundBack(es: seq<JobProbe>, e: JobProbe)
    requires UniquePods(es) && e in es
    ensures FindProbe(es, e.pod) == Some(e)
  {
    if es[0] != e {
      var i :| 0 <= i < |es| && es[i] == e;
      assert es[1..][i - 1] == e;
      FoundBack(es[1..], e);
    }
  }

  lemma NewAttemptsAreNew(st: State, r: Round)
    requires Inv(st) && Timely(st, r)
    ensures OncePerTransition(Next(st, r).history)
  {
    var es := st.s.jobProbes;
    var ps := Attempts(es, r.pods);
    AttemptsAreDue(es, r.pods);
    forall a, p | a in st.history && p in ps && SameTransition(a, Attempt(p, true)) ensures !a.recorded {
      var pod :| pod in r.pods && MadeOn(es, pod, p);
    }
    hide Covers, MadeOn, Due;
    MoreAttempts(st.history, ps, !Lost(st.s, r));
  }

  lemma MoreAttempts(history: seq<Attempt>, ps: seq<JobProbe>, recorded: bool)
    requires OncePerTransition(history) && UniquePods(ps)
    requires forall a, p :: a in history && p in ps && SameTransition(a, Attempt(p, true)) ==> !a.recorded
    ensures OncePerTransition(history + Marked(ps, recorded))
  {
    var all, n := history + Marked(ps, recorded), |history|;
    forall i, j | 0 <= i < j < |all| ensures SameTransition(all[i], all[j]) ==> !all[i].recorded {
      if i < n <= j {
        assert history[i] in history && ps[j - n] in ps;
        assert SameTransition(all[i], all[j]) == SameTransition(history[i], Attempt(ps[j - n], true));
      }
    }
  }

  /** In every run whose probe times advance, the status keeps one entry a Pod, and the ReadyAction is
      not attempted again for a Pod and Ready transition once an attempt has been recorded: where no
      status write is lost, at most one attempt is made. */
  lemma {:induction false} AttemptedOnce(st: State, rounds: seq<Round>)
    requires Inv(st) && TimelyRun(st, rounds)
    ensures Inv(After(st, rounds))
    decreases |rounds|
  {
    if rounds != [] {
      RoundKeepsInv(st, rounds[0]);
      AttemptedOnce(Next(st, rounds[0]), rounds[1..]);
    }
  }

  /** Over any run, timely or not, the results that are there keep their places, and no probe time goes
      backwards. */
  lemma {:induction false} RunAdvances(st: State, rounds: seq<Round>)
    ensures Advanced(st.s.jobProbes, After(st, rounds).s.jobProbes)
    decreases |rounds|
  {
    if rounds != [] {
      var es, ps := st.s.jobProbes, Attempts(st.s.jobProbes, rounds[0].pods);
      PersistedProbes(st.s, rounds[0]);
      MergedAdvances(es, ps);
      RunAdvances(Next(st, rounds[0]), rounds[1..]);
      AdvancedTwice(es, Next(st, rounds[0]).s.jobProbes, After(st, rounds).s.jobProbes);
    }
  }

  lemma AdvancedTwice(a: seq<JobProbe>, b: seq<JobProbe>, c: seq<JobProbe>)
    requires Advanced(a, b) && Advanced(b, c)
    ensures Advanced(a, c)
  {
  }

  lemma AttemptedOnceFromTheStart(s: Status, clock: int, rounds: seq<Round>)
    requires s.jobProbes == [] && TimelyRun(State(s, [], clock), rounds)
    ensures var end := After(State(s, [], clock), rounds);
            && UniquePods(end.s.jobProbes) && OncePerTransition(end.history)
            && ((forall r <- rounds :: r.written) ==>
                  forall i, j :: 0 <= i < j < |end.history| ==> !SameTransition(end.history[i], end.history[j]))
  {
    AttemptedOnce(State(s, [], clock), rounds);
    if forall r <- rounds :: r.written {
      AllRecorded(State(s, [], clock), rounds);
    }
  }

  lemma {:induction false} AllRecorded(st: State, rounds: seq<Round>)
    requires (forall r <- rounds :: r.written) && forall a <- st.history :: a.recorded
    ensures forall a <- After(st, rounds).history :: a.recorded
    decreases |rounds|
  {
    if rounds != [] {
      assert rounds[0] in rounds;
      AllRecorded(Next(st, rounds[0]), rounds[1..]);
    }
  }

  /** After a reconcile a Pod that it listed is due for the same transition exactly if it was due and
      the status that records the attempt was lost. */
  lemma DueAfterwards(st: State, r: Round, pod: Pod)
    requires Inv(st) && Timely(st, r) && pod in r.pods
    ensures var c := ReadyCondition(pod.conditions);
            Due(Recorded(Next(st, r).s.jobProbes, pod.name), c) <==>
            Due(Recorded(st.s.jobProbes, pod.name), c) && Lost(st.s, r)
  {
    var es := st.s.jobProbes;
    RoundIsLater(st, r);
    PersistedProbes(st.s, r);
    MergedFinds(es, Attempts(es, r.pods));
    AttemptsAreDue(es, r.pods);
    if Due(Recorded(es, pod.name), ReadyCondition(pod.conditions)) {
      DueIsAttempted(es, r.pods, pod);
      FoundBack(Attempts(es, r.pods), Attempted(pod, ReadyCondition(pod.conditions).value.since));
    } else if FindProbe(Attempts(es, r.pods), pod.name).Some? {
      OnlyDueAreAttempted(es, r.pods, pod, FindProbe(Attempts(es, r.pods), pod.name).value);
    }
  }

  lemma OnlyDueAreAttempted(es: seq<JobProbe>, pods: seq<Pod>, pod: Pod, a: JobProbe)
    requires DistinctNames(pods) && pod in pods && a in Attempts(es, pods) && a.pod == pod.name
    ensures Due(Recorded(es, pod.name), ReadyCondition(pod.conditions))
  {
    AttemptsAreDue(es, pods);
    var x :| x in pods && MadeOn(es, x, a);
    var i :| 0 <= i < |pods| && pods[i] == x;
    var j :| 0 <= j < |pods| && pods[j] == pod;
    assert i == j;
  }

  lemma {:induction false} DueIsAttempted(es: seq<JobProbe>, pods: seq<Pod>, pod: Pod)
    requires pod in pods && Due(Recorded(es, pod.name), ReadyCondition(pod.conditions))
    ensures Attempted(pod, ReadyCondition(pod.conditions).value.since) in Attempts(es, pods)
  {
    if pods[|pods| - 1] != pod {
      assert pods == pods[..|pods| - 1] + [pods[|pods| - 1]];
      DueIsAttempted(es, pods[..|pods| - 1], pod);
    }
  }

  /** Without advancing probe times the promise breaks: an attempt is recorded exactly when its probe
      time is later than the recorded one, and an unrecorded attempt is due again. */
  lemma RecordedIffLater(es: seq<JobProbe>, pod: Pod)
    requires FindProbe(es, pod.name).Some? && Due(Recorded(es, pod.name), ReadyCondition(pod.conditions))
    ensures var a := Attempted(pod, ReadyCondition(pod.conditions).value.since);
            Due(Recorded(Merged(es, [a]), pod.name), ReadyCondition(pod.conditions))
            <==> !Before(FindProbe(es, pod.name).value.lastProbe, Some(pod.at))
  {
    var a := Attempted(pod, ReadyCondition(pod.conditions).value.since);
    FindMergedOne(es, a, pod.name);
    assert [a][..0] == [];
    assert MergedAll(es, [a]) == MergedOne(MergedAll(es, []), a);
  }
}
