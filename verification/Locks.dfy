/** The per-resource lock that every reconciler of the operator shares, and the discipline around
    it: a reconcile call that is refused the lock returns at once, one that gets it defers the
    unlock to its exit. */
module Locks {
  import opened Wrappers

  datatype NamespacedName = NamespacedName(namespace: string, name: string)

  // ----- The lock table ---------------------------------------------------------------------------

  /** The package-level map `commonLocks`. */
  class LockTable {
    var held: map<NamespacedName, bool>

    constructor ()
      ensures held == map[]
    {
      held := map[];
    }
  }

  /** The locking part of `CommonReconciler`. Its map stays nil until the first `Lock`; the common
      mutex makes each of the two methods one atomic step. */
  class CommonReconciler {
    const commonLocks: LockTable
    var locks: LockTable?

    constructor (table: LockTable)
      ensures commonLocks == table && locks == null
    {
      commonLocks := table;
      locks := null;
    }

    method Lock(request: NamespacedName) returns (ok: bool)
      requires locks == null || locks == commonLocks
      modifies this`locks, commonLocks
      ensures locks == commonLocks
      ensures (ok, commonLocks.held) == Acquire(old(commonLocks.held), request)
    {
      if locks == null {
        locks := commonLocks;
      }
      if request in locks.held {
        return false;
      }
      locks.held := locks.held[request := true];
      return true;
    }

    method Unlock(request: NamespacedName)
      requires locks == null || locks == commonLocks
      modifies commonLocks
      ensures commonLocks.held == Release(old(commonLocks.held), locks != null, request)
    {
      if locks != null {
        locks.held := locks.held - {request};
      }
    }
  }

  function Acquire(held: map<NamespacedName, bool>, n: NamespacedName): (bool, map<NamespacedName, bool>) {
    if n in held then (false, held) else (true, held[n := true])
  }

  /** Go's `delete` on a nil map does nothing. */
  function Release(held: map<NamespacedName, bool>, attached: bool, n: NamespacedName): map<NamespacedName, bool> {
    if attached then held - {n} else held
  }

  // ----- Interleaved reconcile calls ----------------------------------------------------------------

  /** Where a reconcile call is: before `Lock`, between `Lock` and the deferred `Unlock`, returned. */
  datatype Point = Entered | Inside | Returned

  datatype Call = Call(reconciler: nat, request: NamespacedName, point: Point)

  /** The shared map, the reconcilers whose map is no longer nil, and every call made so far. */
  datatype State = State(held: map<NamespacedName, bool>, attached: set<nat>, calls: map<nat, Call>)

  const INITIAL := State(map[], {}, map[])

  /** The atomic actions of call `c`. */
  datatype Event =
    | Enter(c: nat, reconciler: nat, request: NamespacedName)
    | TryLock(c: nat)
    | Exit(c: nat)

  predicate Enabled(s: State, e: Event) {
    match e
    case Enter(c, _, _) => c !in s.calls
    case TryLock(c) => c in s.calls && s.calls[c].point == Entered
    case Exit(c) => c in s.calls && s.calls[c].point == Inside
  }

  function Next(s: State, e: Event): State
    requires Enabled(s, e)
  {
    match e
    case Enter(c, r, n) => s.(calls := s.calls[c := Call(r, n, Entered)])
    case TryLock(c) =>
      var call := s.calls[c];
      var (ok, held) := Acquire(s.held, call.request);
      State(held, s.attached + {call.reconciler},
            s.calls[c := call.(point := if ok then Inside else Returned)])
    case Exit(c) =>
      var call := s.calls[c];
      s.(held := Release(s.held, call.reconciler in s.attached, call.request),
         calls := s.calls[c := call.(point := Returned)])
  }

  /** `run` is a possible interleaving from the initial state. */
  predicate IsRun(run: seq<Event>)
    decreases |run|, 0
  {
    run == [] ||
    (IsRun(run[..|run| - 1]) && Enabled(After(run[..|run| - 1]), run[|run| - 1]))
  }

  function After(run: seq<Event>): State
    requires IsRun(run)
    decreases |run|, 1
  {
    if run == [] then INITIAL else Next(After(run[..|run| - 1]), run[|run| - 1])
  }

  predicate Holds(s: State, c: nat, n: NamespacedName) {
    c in s.calls && s.calls[c].point == Inside && s.calls[c].request == n
  }

  /** The keys of the map are exactly the requests of the calls inside, one call a key. */
  ghost predicate Inv(s: State) {
    && (forall n <- s.held :: exists c :: Holds(s, c, n))
    && (forall c, n :: Holds(s, c, n) ==> n in s.held && s.calls[c].reconciler in s.attached)
    && (forall c, d, n :: Holds(s, c, n) && Holds(s, d, n) ==> c == d)
  }

  lemma StepKeepsInv(s: State, e: Event)
    requires Inv(s) && Enabled(s, e)
    ensures Inv(Next(s, e))
  {
    var t := Next(s, e);
    var c := e.c;
    forall d, n | d != c ensures Holds(t, d, n) <==> Holds(s, d, n) {
    }
    if e.Exit? {
      assert Holds(s, c, s.calls[c].request);
    }
    forall n | n in t.held ensures exists d :: Holds(t, d, n) {
      if n in s.held {
        var d :| Holds(s, d, n);
        assert Holds(t, d, n);
      } else {
        assert Holds(t, c, n);
      }
    }
  }

  /** Mutual exclusion in every interleaving: a name has at most one call inside, and the map's
      keys are exactly the names that have one. */
  lemma {:induction false} RunsAreExclusive(run: seq<Event>)
    requires IsRun(run)
    ensures Inv(After(run))
  {
    if run != [] {
      RunsAreExclusive(run[..|run| - 1]);
      StepKeepsInv(After(run[..|run| - 1]), run[|run| - 1]);
    }
  }

  /** A refused call releases nothing: it ends without touching the map, and the holder stays in. */
  lemma RefusalKeepsHolder(run: seq<Event>, c: nat, holder: nat)
    requires IsRun(run) && Enabled(After(run), TryLock(c))
    requires Holds(After(run), holder, After(run).calls[c].request)
    ensures var t := Next(After(run), TryLock(c));
            && t.held == After(run).held
            && t.calls[c].point == Returned
            && Holds(t, holder, t.calls[c].request)
            && !Enabled(t, Exit(c))
  {
    RunsAreExclusive(run);
  }

  // ----- The history of one name --------------------------------------------------------------------

  /** Who is inside `n` after `run`, read off the history alone: the last call that acquired `n`,
      unless it has exited since. */
  function Owner(run: seq<Event>, n: NamespacedName): Option<nat>
    requires IsRun(run)
  {
    if run == [] then None else
      var before, e := run[..|run| - 1], run[|run| - 1];
      var s := After(before);
      if e.Enter? || s.calls[e.c].request != n then Owner(before, n)
      else if e.Exit? then None
      else if Next(s, e).calls[e.c].point == Inside then Some(e.c)
      else Owner(before, n)
  }

  lemma {:induction false} OwnerIsHolder(run: seq<Event>, n: NamespacedName)
    requires IsRun(run)
    ensures Owner(run, n) == None <==> n !in After(run).held
    ensures forall c: nat :: Owner(run, n) == Some(c) <==> Holds(After(run), c, n)
  {
    RunsAreExclusive(run);
    if run != [] {
      var before, e := run[..|run| - 1], run[|run| - 1];
      OwnerIsHolder(before, n);
      RunsAreExclusive(before);
      var s, t := After(before), After(run);
      forall d | d != e.c ensures Holds(t, d, n) <==> Holds(s, d, n) {
      }
      if e.Exit? && s.calls[e.c].request == n {
        assert Holds(s, e.c, n);
      }
    }
  }

  /** Critical sections on one name never overlap: `Lock` succeeds only while nobody owns the name,
      it always succeeds then, and only the owner's exit ends the ownership. */
  lemma SectionsAlternate(run: seq<Event>, e: Event)
    requires IsRun(run) && Enabled(After(run), e)
    ensures IsRun(run + [e])
    ensures e.TryLock? ==>
              var n := After(run).calls[e.c].request;
              (Next(After(run), e).calls[e.c].point == Inside <==> Owner(run, n) == None)
    ensures e.Exit? ==> Owner(run, After(run).calls[e.c].request) == Some(e.c)
    ensures forall n | Owner(run, n).Some? && Owner(run + [e], n) != Owner(run, n) ::
              e == Exit(Owner(run, n).value) && Owner(run + [e], n) == None
  {
    assert (run + [e])[..|run|] == run;
    if !e.Enter? {
      OwnerIsHolder(run, After(run).calls[e.c].request);
      RunsAreExclusive(run);
      assert e.Exit? ==> Holds(After(run), e.c, After(run).calls[e.c].request);
    }
  }
}
