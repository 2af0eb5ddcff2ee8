/** The StatusHA gate: `executeProbeForPods` and the checks in front of it. The transports (HTTP,
    TLS, exec, TCP) and the validation of an action are oracles. */
module Probe {
  import opened Wrappers

  datatype PodCondition = PodCondition(kind: string, status: string)

  /** What the health mutator annotation of a Pod decodes to. */
  datatype Connection = Absent | Malformed | Invalid | Plain | Secure

  datatype Pod = Pod(
    name: string,
    terminating: bool,              // a deletion timestamp is set
    phase: string,
    conditions: seq<PodCondition>,
    connection: Connection,
    mutatorEnv: bool)               // some container has the health mutator variable

  datatype HttpAction = HttpAction(verb: string, path: string, https: bool, credentials: bool)

  /** A probe handler; `httpGet` says whether its scheme is HTTPS. */
  datatype Handler = Handler(
    http: Option<HttpAction>, httpGet: Option<bool>, exec: bool, tcp: bool, grpc: bool)

  datatype Options = Options(suspension: bool, generated: bool)

  datatype ProbeError =
    | PodNotReady(pod: string, phase: string)
    | CountMismatch(actual: nat, expected: int)
    | Unavailable
    | Configuration
    | UnknownConnection
    | InvalidConnection
    | MissingConnection
    | UnmanagedSuspend
    | Execution

  /** Go's `(bool, error)`; the boolean is false beside every error. */
  datatype Outcome = Answer(ha: bool) | Failed(error: ProbeError)

  /** `valid` is `ValidateAction`, `send` the transport for one Pod. */
  datatype World = World(valid: Handler -> bool, send: (Pod, Handler) -> Result<bool>)

  // ----- Readiness ---------------------------------------------------------------------------------

  predicate Ready(pod: Pod) {
    !pod.terminating && pod.phase == "Running" && PodCondition("Ready", "True") in pod.conditions
  }

  method IsPodReady(pod: Pod) returns (ready: bool, phase: string)
    ensures ready == Ready(pod)
    ensures phase == if pod.terminating || pod.phase != "Running" then "Terminating" else pod.phase
  {
    if pod.terminating || pod.phase != "Running" {
      return false, "Terminating";
    }
    for i := 0 to |pod.conditions|
      invariant PodCondition("Ready", "True") !in pod.conditions[..i]
    {
      if pod.conditions[i].kind == "Ready" && pod.conditions[i].status == "True" {
        return true, pod.phase;
      }
    }
    assert pod.conditions[..|pod.conditions|] == pod.conditions;
    return false, pod.phase;
  }

  // ----- One Pod -----------------------------------------------------------------------------------

  /** A handler without an executable action, accepted as successful. */
  predicate LegacyNoOp(h: Handler) {
    h.http.None? && !h.exec && h.httpGet.None? && !h.tcp
  }

  function RunProbe(w: World, pod: Pod, h: Handler): Outcome {
    if !w.valid(h) then Failed(Configuration)
    else if LegacyNoOp(h) then Answer(true)
    else match w.send(pod, h)
      case Ok(b) => Answer(b)
      case Err => Failed(Execution)
  }

  /** What a probe of one Pod comes to: a handler that is not valid is an error, one without an action
      the operator can execute is a yes, and any other is what the Pod says. */
  lemma ProbeIsThePodsAnswer(w: World, pod: Pod, h: Handler)
    ensures !w.valid(h) ==> RunProbe(w, pod, h) == Failed(Configuration)
    ensures w.valid(h) && h.http.None? && !h.exec && h.httpGet.None? && !h.tcp ==> RunProbe(w, pod, h) == Answer(true)
    ensures w.valid(h) && (h.http.Some? || h.exec || h.httpGet.Some? || h.tcp) ==>
              && (RunProbe(w, pod, h) == Answer(true) <==> w.send(pod, h) == Ok(true))
              && (RunProbe(w, pod, h) == Answer(false) <==> w.send(pod, h) == Ok(false))
              && (RunProbe(w, pod, h) == Failed(Execution) <==> w.send(pod, h) == Err)
  {
  }

  /** The handler actually used for a Pod whose connection is in order. */
  function ActiveHandler(h: Handler, pod: Pod, o: Options): Handler {
    if !pod.connection.Secure? then h
    else if o.suspension && h.http.Some? then h.(http := Some(h.http.value.(https := true, credentials := true)))
    else if !o.suspension && o.generated && h.httpGet.Some? then h.(httpGet := Some(true))
    else h
  }

  /** Why a Running Pod cannot be asked at all, if it cannot. */
  function Refusal(h: Handler, pod: Pod, o: Options): Option<ProbeError> {
    match pod.connection
    case Absent => if pod.mutatorEnv then Some(MissingConnection) else None
    case Malformed => Some(UnknownConnection)
    case Invalid => Some(InvalidConnection)
    case Plain => None
    case Secure =>
      if o.suspension && (h.http.None? || h.http.value.path != "/suspend") then Some(UnmanagedSuspend) else None
  }

  /** A Pod is refused exactly if its connection is malformed or invalid, or missing although a container
      has the health mutator variable, or secure while the suspension is not the operator's own action. */
  lemma RefusedExactly(h: Handler, pod: Pod, o: Options)
    ensures Refusal(h, pod, o) == Some(UnknownConnection) <==> pod.connection == Malformed
    ensures Refusal(h, pod, o) == Some(InvalidConnection) <==> pod.connection == Invalid
    ensures Refusal(h, pod, o) == Some(MissingConnection) <==> pod.connection == Absent && pod.mutatorEnv
    ensures Refusal(h, pod, o) == Some(UnmanagedSuspend) <==>
              pod.connection == Secure && o.suspension && (h.http.Some? ==> h.http.value.path != "/suspend")
    ensures Refusal(h, pod, o).Some? ==>
              Refusal(h, pod, o).value in {UnknownConnection, InvalidConnection, MissingConnection, UnmanagedSuspend}
  {
  }

  /** For these probes the failure of one Pod is final. */
  predicate Authoritative(h: Handler, o: Options) {
    o.suspension || h.http.Some? || h.httpGet.Some?
  }

  /** What a Pod contributes: nothing (`None`), or the outcome of the whole call. */
  function Verdict(w: World, h: Handler, pod: Pod, o: Options): Option<Outcome> {
    if pod.phase != "Running" then None
    else if Refusal(h, pod, o).Some? then Some(Failed(Refusal(h, pod, o).value))
    else
      var out := RunProbe(w, pod, ActiveHandler(h, pod, o));
      if out.Failed? && !Authoritative(h, o) then None else Some(out)
  }

  /** The connection block of the loop body: check the annotation, secure a copy of the handler. */
  method ResolveConnection(h: Handler, pod: Pod, o: Options) returns (active: Handler, refused: Option<ProbeError>)
    ensures refused == Refusal(h, pod, o)
    ensures refused.None? ==> active == ActiveHandler(h, pod, o)
  {
    active, refused := h, None;
    match pod.connection
    case Absent =>
      if pod.mutatorEnv { refused := Some(MissingConnection); }
    case Malformed => refused := Some(UnknownConnection);
    case Invalid => refused := Some(InvalidConnection);
    case Plain =>
    case Secure =>
      if o.suspension {
        if active.http.None? || active.http.value.path != "/suspend" {
          return active, Some(UnmanagedSuspend);
        }
        active := active.(http := Some(active.http.value.(https := true, credentials := true)));
      } else if o.generated && active.httpGet.Some? {
        active := active.(httpGet := Some(true));
      }
  }

  /** A request to a Pod with a secure connection that its operator-made action is meant to send: the
      suspension over HTTPS with the connection's credentials, the generated health check over HTTPS. */
  predicate Trusted(pod: Pod, h: Handler, o: Options) {
    pod.connection.Secure? ==>
      if o.suspension
      then h.http.Some? && h.http.value.path == "/suspend" && h.http.value.https && h.http.value.credentials
      else o.generated && h.httpGet.Some? ==> h.httpGet.value
  }

  /** The connection of a Pod changes a probe only where it must: only for a secure connection and an
      action the operator made, only in the scheme and the credentials, never in the kind of the action,
      its verb or its path; and then the request is a trusted one. */
  lemma ActiveHandlerIsConfined(h: Handler, pod: Pod, o: Options)
    requires Refusal(h, pod, o).None?
    ensures var a := ActiveHandler(h, pod, o);
            && Trusted(pod, a, o)
            && (a.exec, a.tcp, a.grpc) == (h.exec, h.tcp, h.grpc)
            && (a.http != h.http ==> pod.connection.Secure? && o.suspension)
            && (a.httpGet != h.httpGet ==> pod.connection.Secure? && !o.suspension && o.generated)
            && (a.http.Some? <==> h.http.Some?) && (a.httpGet.Some? <==> h.httpGet.Some?)
            && (h.http.Some? ==> (a.http.value.verb, a.http.value.path) == (h.http.value.verb, h.http.value.path))
  {
  }

  // ----- All Pods ----------------------------------------------------------------------------------

  function Expected(replicas: Option<int>): int {
    replicas.GetOr(1)
  }

  function FirstVerdict(w: World, h: Handler, pods: seq<Pod>, o: Options): Outcome {
    if pods == [] then Failed(Unavailable)
    else match Verdict(w, h, pods[0], o)
      case Some(out) => out
      case None => FirstVerdict(w, h, pods[1..], o)
  }

  /** The second loop of `executeProbeForPods`: ask the Pods in turn until one decides. */
  method AskPods(w: World, h: Handler, pods: seq<Pod>, o: Options) returns (r: Outcome)
    ensures r == FirstVerdict(w, h, pods, o)
  {
    for i := 0 to |pods|
      invariant FirstVerdict(w, h, pods, o) == FirstVerdict(w, h, pods[i..], o)
    {
      var pod := pods[i];
      assert pods[i..][1..] == pods[i + 1..];
      if pod.phase == "Running" {
        var active, refused := ResolveConnection(h, pod, o);
        if refused.Some? {
          return Failed(refused.value);
        }
        var out := RunProbe(w, pod, active);
        if out.Answer? {
          return out;
        }
        if o.suspension || h.http.Some? || h.httpGet.Some? {
          return out;
        }
      }
    }
    return Failed(Unavailable);
  }

  /** `executeProbeForPods`: probe the StatefulSet through the first of `pods` that decides. */
  method ExecuteProbeForPods(w: World, replicas: Option<int>, h: Handler, stsPods: seq<Pod>, pods: seq<Pod>, o: Options)
    returns (r: Outcome)
    ensures r == Answer(true) <==> Passes(w, replicas, h, stsPods, pods, o)
    ensures o.suspension && !w.valid(h) ==> r == Failed(Configuration)
    ensures (!o.suspension || w.valid(h)) ==>
              if exists i :: 0 <= i < |stsPods| && !Ready(stsPods[i]) then r.Failed? && r.error.PodNotReady?
              else if stsPods == [] then r == Answer(true)
              else if replicas.None? && |stsPods| != 1 then r == Failed(CountMismatch(|stsPods|, 1))
              else if replicas.Some? && |stsPods| != replicas.value
              then r == Failed(CountMismatch(|stsPods|, replicas.value))
              else r == FirstVerdict(w, h, pods, o)
  {
    if o.suspension && !w.valid(h) {
      return Failed(Configuration);
    }
    for i := 0 to |stsPods|
      invariant forall j :: 0 <= j < i ==> Ready(stsPods[j])
    {
      var ready, phase := IsPodReady(stsPods[i]);
      if !ready {
        return Failed(PodNotReady(stsPods[i].name, phase));
      }
    }
    var count := |stsPods|;
    if count == 0 {
      return Answer(true);
    } else if replicas.None? && count != 1 {
      return Failed(CountMismatch(count, 1));
    } else if replicas.Some? && count != replicas.value {
      return Failed(CountMismatch(count, replicas.value));
    }
    FirstVerdictDecides(w, h, pods, o);
    r := AskPods(w, h, pods, o);
  }

  /** When the gate opens: no Pods at all, or every Pod ready, exactly the expected number of them,
      and one target that answered yes after targets that all left the matter open. */
  ghost predicate Passes(w: World, replicas: Option<int>, h: Handler, stsPods: seq<Pod>, pods: seq<Pod>, o: Options) {
    && (o.suspension ==> w.valid(h))
    && (forall i :: 0 <= i < |stsPods| ==> Ready(stsPods[i]))
    && (stsPods == [] || (|stsPods| == Expected(replicas) && exists k :: DecidesYes(w, h, pods, o, k)))
  }

  ghost predicate DecidesYes(w: World, h: Handler, pods: seq<Pod>, o: Options, k: int) {
    && 0 <= k < |pods|
    && pods[k].phase == "Running"
    && Refusal(h, pods[k], o).None?
    && RunProbe(w, pods[k], ActiveHandler(h, pods[k], o)) == Answer(true)
    && forall j :: 0 <= j < k ==> LeavesOpen(w, h, pods[j], o)
  }

  /** A Pod that is not Running, or whose execution failed under a probe that may fall through. */
  predicate LeavesOpen(w: World, h: Handler, pod: Pod, o: Options) {
    pod.phase == "Running" ==>
      && !Authoritative(h, o)
      && Refusal(h, pod, o).None?
      && RunProbe(w, pod, ActiveHandler(h, pod, o)).Failed?
  }

  lemma {:induction false} FirstVerdictDecides(w: World, h: Handler, pods: seq<Pod>, o: Options)
    ensures FirstVerdict(w, h, pods, o) == Answer(true) <==> exists k :: DecidesYes(w, h, pods, o, k)
  {
    if pods != [] {
      FirstVerdictDecides(w, h, pods[1..], o);
      assert DecidesYes(w, h, pods, o, 0) <==> Verdict(w, h, pods[0], o) == Some(Answer(true));
      if LeavesOpen(w, h, pods[0], o) {
        forall k | DecidesYes(w, h, pods[1..], o, k) ensures DecidesYes(w, h, pods, o, k + 1) {
        }
        forall k | k > 0 && DecidesYes(w, h, pods, o, k) ensures DecidesYes(w, h, pods[1..], o, k - 1) {
        }
      }
    }
  }

  /** For suspension and HTTP probes the first Running target alone decides, whatever follows it:
      no later Pod's success replaces its failure. */
  lemma {:induction false} FirstRunningAlone(w: World, h: Handler, before: seq<Pod>, pod: Pod, later: seq<Pod>,
        o: Options)
    requires o.suspension || h.http.Some? || h.httpGet.Some?
    requires pod.phase == "Running" && forall i :: 0 <= i < |before| ==> before[i].phase != "Running"
    ensures FirstVerdict(w, h, before + [pod] + later, o) ==
              if Refusal(h, pod, o).Some? then Failed(Refusal(h, pod, o).value)
              else RunProbe(w, pod, ActiveHandler(h, pod, o))
  {
    var pods := before + [pod] + later;
    if before == [] {
      assert pods[0] == pod;
    } else {
      assert pods[1..] == before[1..] + [pod] + later;
      FirstRunningAlone(w, h, before[1..], pod, later, o);
    }
  }

  /** For any other probe an error is passed over: the next Pod is asked, as it is after one that is not
      Running. */
  lemma ErrorsArePassedOver(w: World, h: Handler, pod: Pod, later: seq<Pod>, o: Options)
    requires !o.suspension && h.http.None? && h.httpGet.None?
    requires pod.phase == "Running" ==>
               && Refusal(h, pod, o).None?
               && (!w.valid(h) || ((h.exec || h.tcp) && w.send(pod, h) == Err))
    ensures FirstVerdict(w, h, [pod] + later, o) == FirstVerdict(w, h, later, o)
  {
    assert ([pod] + later)[1..] == later;
  }

  /** What a gate that opens on a cluster with Pods means: every Pod is Running, not terminating, and has
      a True Ready condition; there are as many as expected; and one of the Pods that were asked, not
      refused, said yes, unless there was nothing to ask. */
  lemma PassesMeans(w: World, replicas: Option<int>, h: Handler, stsPods: seq<Pod>, pods: seq<Pod>, o: Options)
    requires Passes(w, replicas, h, stsPods, pods, o) && stsPods != []
    ensures |stsPods| == if replicas.Some? then replicas.value else 1
    ensures forall p <- stsPods ::
              !p.terminating && p.phase == "Running" && PodCondition("Ready", "True") in p.conditions
    ensures exists k :: 0 <= k < |pods| && pods[k].phase == "Running" && SaysYes(w, h, pods[k], o)
  {
    var k :| DecidesYes(w, h, pods, o, k);
    YesIsThePods(w, h, pods[k], o);
  }

  /** The Pod is not refused, and it answers the request it gets with yes, or there is none to send. */
  ghost predicate SaysYes(w: World, h: Handler, pod: Pod, o: Options) {
    var active := ActiveHandler(h, pod, o);
    && Refusal(h, pod, o).None? && w.valid(active)
    && (h.http.Some? || h.exec || h.httpGet.Some? || h.tcp ==> w.send(pod, active) == Ok(true))
  }

  lemma YesIsThePods(w: World, h: Handler, pod: Pod, o: Options)
    requires Refusal(h, pod, o).None?
    ensures RunProbe(w, pod, ActiveHandler(h, pod, o)) == Answer(true) <==> SaysYes(w, h, pod, o)
  {
    ProbeIsThePodsAnswer(w, pod, ActiveHandler(h, pod, o));
  }

  /** Two worlds in which Pods answer trusted requests alike, whatever else they answer. */
  ghost predicate AlikeWhenTrusted(w: World, x: World, o: Options) {
    && (forall h :: w.valid(h) == x.valid(h))
    && (forall pod, h :: Trusted(pod, h, o) ==> w.send(pod, h) == x.send(pod, h))
  }

  /** What a Pod with a secure connection would say to anything but a trusted request has no influence:
      no suspension and no generated health check rests on a plain HTTP answer of such a Pod. */
  lemma {:induction false} OnlyTrustedAnswersCount(w: World, x: World, h: Handler, pods: seq<Pod>, o: Options)
    requires AlikeWhenTrusted(w, x, o)
    ensures FirstVerdict(w, h, pods, o) == FirstVerdict(x, h, pods, o)
  {
    if pods != [] {
      OnlyTrustedAnswersCount(w, x, h, pods[1..], o);
      if Refusal(h, pods[0], o).None? {
        ActiveHandlerIsConfined(h, pods[0], o);
      }
    }
  }

  // ----- Suspension --------------------------------------------------------------------------------

  datatype SuspendStatus = SuspendSkipped | SuspendSuccessful | SuspendFailed

  /** What the suspension of services reads of the resource and of the operator's flags. */
  datatype SuspendSpec = SuspendSpec(
    statefulSet: bool, flagSkip: bool, onShutdown: Option<bool>,
    connectionValid: bool, secure: bool, ownProbe: bool, probe: Handler)

  /** `SuspendServicesWithError`, with the Pod list from the API, if it could be had. */
  method SuspendServices(w: World, replicas: Option<int>, s: SuspendSpec, listed: Option<seq<Pod>>)
    returns (r: SuspendStatus)
    ensures var skipped := !s.statefulSet || s.flagSkip || s.onShutdown == Some(false);
            var prevented := !s.connectionValid || (s.secure && s.ownProbe) || listed.None?;
            && (r == SuspendSuccessful <==>
                && !skipped && !prevented && !LegacyNoOp(s.probe)
                && Passes(w, replicas, s.probe, listed.value, listed.value, Options(true, false)))
            && (r == SuspendFailed <==>
                && !skipped
                && (prevented || !Passes(w, replicas, s.probe, listed.value, listed.value, Options(true, false))))
  {
    if !s.statefulSet || s.flagSkip || (s.onShutdown.Some? && !s.onShutdown.value) {
      return SuspendSkipped;
    }
    if !s.connectionValid || (s.secure && s.ownProbe) || listed.None? {
      return SuspendFailed;
    }
    var out := ExecuteProbeForPods(w, replicas, s.probe, listed.value, listed.value, Options(true, false));
    if out == Answer(true) {
      return if LegacyNoOp(s.probe) then SuspendSkipped else SuspendSuccessful;
    }
    return SuspendFailed;
  }

  /** The services of a cluster with Pods are suspended by its first Pod, or not at all: every Pod is
      Ready by then, so the first one is Running and its answer is final. */
  lemma FirstPodSuspends(w: World, replicas: Option<int>, h: Handler, pods: seq<Pod>)
    requires pods != []
    ensures Passes(w, replicas, h, pods, pods, Options(true, false)) <==>
              && w.valid(h)
              && (forall i :: 0 <= i < |pods| ==> Ready(pods[i]))
              && |pods| == (if replicas.Some? then replicas.value else 1)
              && SaysYes(w, h, pods[0], Options(true, false))
  {
    var o := Options(true, false);
    if Refusal(h, pods[0], o).None? {
      YesIsThePods(w, h, pods[0], o);
    }
    if Ready(pods[0]) {
      assert !LeavesOpen(w, h, pods[0], o);
      forall k | DecidesYes(w, h, pods, o, k) ensures k == 0 {
        OnlyTheFirst(w, h, pods, o, k);
      }
      assert DecidesYes(w, h, pods, o, 0) <==>
             Refusal(h, pods[0], o).None? && RunProbe(w, pods[0], ActiveHandler(h, pods[0], o)) == Answer(true);
    }
  }

  lemma OnlyTheFirst(w: World, h: Handler, pods: seq<Pod>, o: Options, k: int)
    requires DecidesYes(w, h, pods, o, k) && !LeavesOpen(w, h, pods[0], o)
    ensures k == 0
  {
  }

  // ----- The scaling gate --------------------------------------------------------------------------

  /** What a reconcile pass sees of the cluster when it asks whether it is StatusHA. `pods` is the
      list the API returned, if it did. */
  datatype Observation = Observation(w: World, h: Handler, generated: bool, pods: Option<seq<Pod>>)

  /** `IsStatusHA`: a configured HTTP action must be a GET, and the Pods must be listed. A deployment
      without a StatefulSet spec is taken to be HA. */
  method IsStatusHA(hasSpec: bool, obs: Observation, replicas: Option<int>) returns (ha: bool)
    ensures ha <==>
              || !hasSpec
              || (&& (obs.h.http.Some? ==> obs.h.http.value.verb in ["", "GET"])
                  && obs.pods.Some?
                  && Passes(obs.w, replicas, obs.h, obs.pods.value, obs.pods.value, Options(false, obs.generated)))
  {
    if !hasSpec {
      return true;
    }
    if obs.h.http.Some? && obs.h.http.value.verb != "" && obs.h.http.value.verb != "GET" {
      return false;
    }
    if obs.pods.None? {
      return false;
    }
    var pods := obs.pods.value;
    var out := ExecuteProbeForPods(obs.w, replicas, obs.h, pods, pods, Options(false, obs.generated));
    return out == Answer(true);
  }

  ghost predicate StatusHA(obs: Observation, replicas: Option<int>) {
    && (obs.h.http.Some? ==> obs.h.http.value.verb in ["", "GET"])
    && obs.pods.Some?
    && Passes(obs.w, replicas, obs.h, obs.pods.value, obs.pods.value, Options(false, obs.generated))
  }

  /** An open gate on `n` replicas means no Pods, or exactly `n` of them, all up and ready, one of which
      said yes to the request it got, unless there is none to send. */
  lemma OpenGate(obs: Observation, n: int)
    requires StatusHA(obs, Some(n))
    ensures obs.h.http.Some? ==> obs.h.http.value.verb in ["", "GET"]
    ensures obs.pods.Some?
    ensures var pods, o := obs.pods.value, Options(false, obs.generated);
            pods == [] ||
            (&& |pods| == n
             && (forall p <- pods ::
                   !p.terminating && p.phase == "Running" && PodCondition("Ready", "True") in p.conditions)
             && exists k :: 0 <= k < |pods| && SaysYes(obs.w, obs.h, pods[k], o))
  {
    if obs.pods.value != [] {
      PassesMeans(obs.w, Some(n), obs.h, obs.pods.value, obs.pods.value, Options(false, obs.generated));
    }
  }
}
