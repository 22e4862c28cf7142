/**
 Starting, sharing and stopping notebook kernels: many tasks interleave between
 their await points, and starting a kernel is guarded by a lock with a second
 look at the table after acquiring it.

 Over every interleaving, binding never overwrites a binding, every kernel ever
 started is bound once, taken for shutdown, or held by the one task that has the
 lock, and runs of one notebook share one kernel exactly when no stop separates them.
 */
module KernelProtocol {
  import opened Common

  type Notebook = nat
  type Kernel = nat
  type Task = nat

  // ---- The table --------------------------------------------------------------------------

  function Lookup(kernels: map<Notebook, Kernel>, n: Notebook): Option<Kernel> {
    if n in kernels then Some(kernels[n]) else None
  }

  // ---- The steps -----------------------------------------------------------------------------

  /** Where a task is between two await points. */
  datatype Pc =
    | EnsureBegins(n: Notebook)
    | AwaitsLock(n: Notebook)
    | HasLock(n: Notebook)
    | StartsKernel(n: Notebook)
    | HoldsKernel(n: Notebook, k: Kernel)
    | Returned(n: Notebook, k: Kernel)
    | StopBegins(n: Notebook)
    | ShutsDown(n: Notebook, k: Kernel)
    | Stopped(n: Notebook)
    | Failed(n: Notebook)

  predicate InsideLock(pc: Pc) {
    pc.HasLock? || pc.StartsKernel? || pc.HoldsKernel?
  }

  datatype State = State(
    kernels: map<Notebook, Kernel>,
    lock: Option<Task>,
    tasks: map<Task, Pc>,
    started: set<Kernel>,
    taken: set<Kernel>)

  const INITIAL := State(map[], None, map[], {}, {})

  /** The atomic steps; stop and delete both take the kernel out and then shut it down. */
  datatype Step =
    | SpawnEnsure(t: Task, n: Notebook)
    | SpawnStop(t: Task, n: Notebook)
    | FastPath(t: Task)
    | Acquire(t: Task)
    | Recheck(t: Task)
    | GatewayFails(t: Task)
    | GatewayStarts(t: Task, k: Kernel)
    | Bind(t: Task)
    | Take(t: Task)
    | ShutdownEnds(t: Task, ok: bool)

  function At(s: State, t: Task, pc: Pc): State {
    s.(tasks := s.tasks[t := pc])
  }

  /** The state after a step, or None when the step cannot happen. */
  function Next(s: State, step: Step): Option<State> {
    match step
    case SpawnEnsure(t, n) => if t in s.tasks then None else Some(At(s, t, EnsureBegins(n)))
    case SpawnStop(t, n) => if t in s.tasks then None else Some(At(s, t, StopBegins(n)))
    case _ =>
      if step.t !in s.tasks then None
      else Proceed(s, step, s.tasks[step.t])
  }

  function Proceed(s: State, step: Step, pc: Pc): Option<State>
    requires !step.SpawnEnsure? && !step.SpawnStop?
  {
    match (step, pc)
    case (FastPath(t), EnsureBegins(n)) =>
      if n in s.kernels then Some(At(s, t, Returned(n, s.kernels[n]))) else Some(At(s, t, AwaitsLock(n)))
    case (Acquire(t), AwaitsLock(n)) =>
      if s.lock.Some? then None else Some(At(s, t, HasLock(n)).(lock := Some(t)))
    case (Recheck(t), HasLock(n)) =>
      if n in s.kernels then Some(At(s, t, Returned(n, s.kernels[n])).(lock := None))
      else Some(At(s, t, StartsKernel(n)))
    case (GatewayFails(t), StartsKernel(n)) =>
      Some(At(s, t, Failed(n)).(lock := None))
    case (GatewayStarts(t, k), StartsKernel(n)) =>
      if k in s.started then None else Some(At(s, t, HoldsKernel(n, k)).(started := s.started + {k}))
    case (Bind(t), HoldsKernel(n, k)) =>
      Some(At(s, t, Returned(n, k)).(kernels := s.kernels[n := k], lock := None))
    case (Take(t), StopBegins(n)) =>
      if n in s.kernels then
        Some(At(s, t, ShutsDown(n, s.kernels[n])).(kernels := s.kernels - {n}, taken := s.taken + {s.kernels[n]}))
      else Some(At(s, t, Stopped(n)))
    case (ShutdownEnds(t, ok), ShutsDown(n, k)) =>
      Some(At(s, t, if ok then Stopped(n) else Failed(n)))
    case _ => None
  }

  // ---- The steps on the table -------------------------------------------------------------------

  /** The server's table of running kernels; each method is one locked access. */
  class KernelTable {
    var kernels: map<Notebook, Kernel>

    constructor ()
      ensures kernels == map[]
    {
      kernels := map[];
    }

    method Get(n: Notebook) returns (k: Option<Kernel>)
      ensures k == Lookup(kernels, n)
    {
      k := if n in kernels then Some(kernels[n]) else None;
    }

    method Bind(n: Notebook, k: Kernel)
      modifies this
      ensures kernels == old(kernels)[n := k]
    {
      kernels := kernels[n := k];
    }

    /** Unbinds and returns the kernel of a notebook. */
    method Take(n: Notebook) returns (k: Option<Kernel>)
      modifies this
      ensures k == Lookup(old(kernels), n)
      ensures kernels == old(kernels) - {n}
    {
      k := if n in kernels then Some(kernels[n]) else None;
      kernels := kernels - {n};
    }

    /**
     One step of a call that has reached `pc`, as the handlers take it between two
     await points, and the point it reaches. It is the step of the state machine.
     */
    method Perform(step: Step, pc: Pc, ghost s: State) returns (reached: Pc)
      requires kernels == s.kernels && !step.SpawnEnsure? && !step.SpawnStop?
      requires step.t in s.tasks && s.tasks[step.t] == pc && Next(s, step).Some?
      modifies this
      ensures kernels == Next(s, step).value.kernels
      ensures Next(s, step).value.tasks == s.tasks[step.t := reached]
    {
      match pc
      case EnsureBegins(n) =>
        var bound := Get(n);
        reached := if bound.Some? then Returned(n, bound.value) else AwaitsLock(n);
      case AwaitsLock(n) =>
        reached := HasLock(n);
      case HasLock(n) =>
        var bound := Get(n);
        reached := if bound.Some? then Returned(n, bound.value) else StartsKernel(n);
      case StartsKernel(n) =>
        reached := if step.GatewayStarts? then HoldsKernel(n, step.k) else Failed(n);
      case HoldsKernel(n, k) =>
        Bind(n, k);
        reached := Returned(n, k);
      case StopBegins(n) =>
        var taken := Take(n);
        reached := if taken.Some? then ShutsDown(n, taken.value) else Stopped(n);
      case ShutsDown(n, k) =>
        reached := if step.ok then Stopped(n) else Failed(n);
    }
  }

  // ---- The invariant ----------------------------------------------------------------------------

  /** Whoever the lock names, and nobody else, is inside it. */
  ghost predicate LockIsExclusive(s: State) {
    forall t :: t in s.tasks ==> (InsideLock(s.tasks[t]) <==> s.lock == Some(t))
  }

  ghost predicate LockIsHeld(s: State) {
    s.lock.Some? ==> s.lock.value in s.tasks
  }

  /** While a kernel is being started or held for a notebook, none is bound to it. */
  ghost predicate NotYetBound(s: State) {
    forall t :: t in s.tasks && (s.tasks[t].StartsKernel? || s.tasks[t].HoldsKernel?) ==> s.tasks[t].n !in s.kernels
  }

  ghost predicate IsBound(s: State, k: Kernel) {
    exists n :: n in s.kernels && s.kernels[n] == k
  }

  ghost predicate IsHeld(s: State, k: Kernel) {
    exists t :: t in s.tasks && s.tasks[t].HoldsKernel? && s.tasks[t].k == k
  }

  ghost predicate BoundOnce(s: State) {
    forall m, n :: m in s.kernels && n in s.kernels && s.kernels[m] == s.kernels[n] ==> m == n
  }

  /** Every kernel ever started is in exactly one place, and no other kernel is anywhere. */
  ghost predicate InOnePlace(s: State) {
    forall k: Kernel ::
      && (k in s.started <==> IsBound(s, k) || IsHeld(s, k) || k in s.taken)
      && !(IsBound(s, k) && IsHeld(s, k)) && !(IsBound(s, k) && k in s.taken) && !(IsHeld(s, k) && k in s.taken)
  }

  ghost predicate Inv(s: State) {
    LockIsExclusive(s) && LockIsHeld(s) && NotYetBound(s) && BoundOnce(s) && InOnePlace(s)
  }

  lemma InitialInv()
    ensures Inv(INITIAL)
  {
  }

  lemma OthersUnmoved(s: State, t: Task, pc: Pc, k: Kernel)
    requires t in s.tasks
    ensures !s.tasks[t].HoldsKernel? && !pc.HoldsKernel? ==> (IsHeld(At(s, t, pc), k) <==> IsHeld(s, k))
  {
    var s' := At(s, t, pc);
    if IsHeld(s, k) && !s.tasks[t].HoldsKernel? {
      var u :| u in s.tasks && s.tasks[u].HoldsKernel? && s.tasks[u].k == k;
      assert u in s'.tasks && s'.tasks[u] == s.tasks[u];
    }
    if IsHeld(s', k) && !pc.HoldsKernel? {
      var u :| u in s'.tasks && s'.tasks[u].HoldsKernel? && s'.tasks[u].k == k;
      assert u in s.tasks && s.tasks[u] == s'.tasks[u];
    }
  }

  /** Moving a task that neither held nor now holds a kernel leaves every kernel where it is. */
  lemma QuietStep(s: State, s': State, t: Task)
    requires Inv(s)
    requires s'.kernels == s.kernels && s'.started == s.started && s'.taken == s.taken
    requires t in s'.tasks && s'.tasks == s.tasks[t := s'.tasks[t]] && !s'.tasks[t].HoldsKernel?
    requires t in s.tasks ==> !s.tasks[t].HoldsKernel?
    ensures InOnePlace(s') && BoundOnce(s')
  {
    forall k: Kernel ensures IsHeld(s', k) <==> IsHeld(s, k) {
      if IsHeld(s, k) {
        var u :| u in s.tasks && s.tasks[u].HoldsKernel? && s.tasks[u].k == k;
        assert s'.tasks[u] == s.tasks[u];
      }
      if IsHeld(s', k) {
        var u :| u in s'.tasks && s'.tasks[u].HoldsKernel? && s'.tasks[u].k == k;
        assert s.tasks[u] == s'.tasks[u];
      }
    }
    forall k: Kernel ensures IsBound(s', k) <==> IsBound(s, k) {
    }
  }

  /** Only whoever is inside the lock can hold a kernel. */
  lemma HolderIsInside(s: State, t: Task)
    requires Inv(s) && t in s.tasks && InsideLock(s.tasks[t])
    ensures forall u :: u in s.tasks && InsideLock(s.tasks[u]) ==> u == t
    ensures forall k :: IsHeld(s, k) <==> s.tasks[t].HoldsKernel? && s.tasks[t].k == k
  {
    assert forall u :: u in s.tasks && s.tasks[u].HoldsKernel? ==> InsideLock(s.tasks[u]);
  }

  lemma StartInv(s: State, t: Task, k: Kernel)
    requires Inv(s) && Next(s, GatewayStarts(t, k)).Some?
    ensures Inv(Next(s, GatewayStarts(t, k)).value)
  {
    var s' := Next(s, GatewayStarts(t, k)).value;
    HolderIsInside(s, t);
    assert s'.tasks[t].HoldsKernel? && s'.tasks[t].k == k;
    assert forall u :: u in s'.tasks && s'.tasks[u].HoldsKernel? ==> u == t;
    forall j: Kernel ensures (IsHeld(s', j) <==> j == k) && (IsBound(s', j) <==> IsBound(s, j)) {
    }
  }

  lemma BindInv(s: State, t: Task)
    requires Inv(s) && Next(s, Bind(t)).Some?
    ensures Inv(Next(s, Bind(t)).value) && s.tasks[t].n !in s.kernels
  {
    var s' := Next(s, Bind(t)).value;
    var n, k := s.tasks[t].n, s.tasks[t].k;
    HolderIsInside(s, t);
    assert forall u :: u in s'.tasks ==> !s'.tasks[u].HoldsKernel?;
    forall j: Kernel
      ensures (IsBound(s', j) <==> IsBound(s, j) || j == k) && !IsHeld(s', j) && (IsHeld(s, j) <==> j == k)
    {
      if IsBound(s, j) {
        var m :| m in s.kernels && s.kernels[m] == j;
        assert s'.kernels[m] == j;
      }
      if j == k {
        assert s'.kernels[n] == k;
      }
    }
    BindKeepsBoundOnce(s, n, k);
  }

  lemma BindKeepsBoundOnce(s: State, n: Notebook, k: Kernel)
    requires BoundOnce(s) && !IsBound(s, k)
    ensures BoundOnce(s.(kernels := s.kernels[n := k]))
  {
  }

  lemma TakeInv(s: State, t: Task)
    requires Inv(s) && Next(s, Take(t)).Some?
    ensures Inv(Next(s, Take(t)).value)
  {
    var s' := Next(s, Take(t)).value;
    var n := s.tasks[t].n;
    if n !in s.kernels {
      QuietStep(s, s', t);
    } else {
      var k := s.kernels[n];
      forall j: Kernel ensures (IsBound(s', j) <==> IsBound(s, j) && j != k) && (IsHeld(s', j) <==> IsHeld(s, j)) {
        OthersUnmoved(s, t, ShutsDown(n, k), j);
        if IsBound(s, j) && j != k {
          var m :| m in s.kernels && s.kernels[m] == j;
          assert m in s'.kernels && s'.kernels[m] == j;
        }
        if IsBound(s', j) {
          var m :| m in s'.kernels && s'.kernels[m] == j;
          assert m in s.kernels && s.kernels[m] == j;
        }
        assert IsHeld(s', j) <==> IsHeld(At(s, t, ShutsDown(n, k)), j);
      }
      assert IsBound(s, k);
      assert BoundOnce(s');
    }
  }

  /** Every step keeps the invariant. */
  lemma StepKeepsInv(s: State, step: Step)
    requires Inv(s) && Next(s, step).Some?
    ensures Inv(Next(s, step).value)
  {
    var s' := Next(s, step).value;
    match step
    case GatewayStarts(t, k) => StartInv(s, t, k);
    case Bind(t) => BindInv(s, t);
    case Take(t) => TakeInv(s, t);
    case _ => QuietStep(s, s', step.t);
  }

  // ---- Runs --------------------------------------------------------------------------------------

  /** The state after the first `i` steps of a run, or None when one of them could not happen. */
  function After(steps: seq<Step>, i: nat): Option<State>
    requires i <= |steps|
  {
    if i == 0 then Some(INITIAL)
    else
      match After(steps, i - 1)
      case None => None
      case Some(s) => Next(s, steps[i - 1])
  }

  ghost predicate IsRun(steps: seq<Step>) {
    After(steps, |steps|).Some?
  }

  lemma {:induction false} RunPrefix(steps: seq<Step>, i: nat, j: nat)
    requires i <= j <= |steps| && After(steps, j).Some?
    ensures After(steps, i).Some?
    decreases j - i
  {
    if i < j {
      RunPrefix(steps, i, j - 1);
    }
  }

  lemma {:induction false} RunKeepsInv(steps: seq<Step>, i: nat)
    requires i <= |steps| && After(steps, i).Some?
    ensures Inv(After(steps, i).value)
  {
    if i == 0 {
      InitialInv();
    } else {
      RunKeepsInv(steps, i - 1);
      StepKeepsInv(After(steps, i - 1).value, steps[i - 1]);
    }
  }

  /** In no run does binding a kernel replace another one. */
  lemma BindNeverOverwrites(steps: seq<Step>, i: nat)
    requires IsRun(steps) && i < |steps| && steps[i].Bind?
    ensures After(steps, i).Some? && steps[i].t in After(steps, i).value.tasks
    ensures After(steps, i).value.tasks[steps[i].t].n !in After(steps, i).value.kernels
  {
    RunPrefix(steps, i + 1, |steps|);
    RunPrefix(steps, i, |steps|);
    RunKeepsInv(steps, i);
    BindInv(After(steps, i).value, steps[i].t);
  }

  /** In every reachable state, every kernel ever started is bound once, taken, or held under the lock. */
  lemma NoKernelIsLost(steps: seq<Step>, k: Kernel)
    requires IsRun(steps)
    ensures var s := After(steps, |steps|).value;
            && (k in s.started ==> IsBound(s, k) || k in s.taken || IsHeld(s, k))
            && !(IsBound(s, k) && k in s.taken)
            && (IsHeld(s, k) ==> !IsBound(s, k) && k !in s.taken && s.lock.Some? && s.lock.value in s.tasks &&
                                 s.tasks[s.lock.value] == HoldsKernel(s.tasks[s.lock.value].n, k))
  {
    RunKeepsInv(steps, |steps|);
    var s := After(steps, |steps|).value;
    if IsHeld(s, k) {
      var t :| t in s.tasks && s.tasks[t].HoldsKernel? && s.tasks[t].k == k;
      assert InsideLock(s.tasks[t]);
    }
  }

  lemma {:induction false} ValuesOfInjective(m: map<Notebook, Kernel>)
    requires forall a, b :: a in m && b in m && m[a] == m[b] ==> a == b
    ensures |m.Values| == |m|
  {
    if m != map[] {
      var n :| n in m;
      var rest := m - {n};
      ValuesOfInjective(rest);
      assert m == rest[n := m[n]];
      assert m.Values == rest.Values + {m[n]};
      assert m[n] !in rest.Values;
    }
  }

  ghost function HeldKernels(s: State): set<Kernel> {
    if s.lock.Some? && s.lock.value in s.tasks && s.tasks[s.lock.value].HoldsKernel? then {s.tasks[s.lock.value].k}
    else {}
  }

  /** The books balance: kernels started are kernels bound, kernels taken and at most one in between. */
  lemma KernelsAreConserved(steps: seq<Step>)
    requires IsRun(steps)
    ensures var s := After(steps, |steps|).value;
            |s.started| == |s.kernels| + |s.taken| + |HeldKernels(s)| && |HeldKernels(s)| <= 1
  {
    RunKeepsInv(steps, |steps|);
    var s := After(steps, |steps|).value;
    ValuesOfInjective(s.kernels);
    forall k: Kernel
      ensures (k in s.kernels.Values <==> IsBound(s, k)) && (k in HeldKernels(s) <==> IsHeld(s, k))
    {
      if IsHeld(s, k) {
        var t :| t in s.tasks && s.tasks[t].HoldsKernel? && s.tasks[t].k == k;
        assert InsideLock(s.tasks[t]);
      }
    }
    assert s.started == s.kernels.Values + s.taken + HeldKernels(s);
  }

  /** Step `i` of the run returns kernel `k` to a task that asked for notebook `n`. */
  ghost predicate ReturnsAt(steps: seq<Step>, i: nat, n: Notebook, k: Kernel) {
    && i < |steps| && After(steps, i).Some? && After(steps, i + 1).Some?
    && !steps[i].SpawnEnsure? && !steps[i].SpawnStop?
    && steps[i].t in After(steps, i).value.tasks
    && !After(steps, i).value.tasks[steps[i].t].Returned?
    && After(steps, i + 1).value.tasks[steps[i].t] == Returned(n, k)
  }

  /** Step `i` takes the kernel of notebook `n` out of the table. */
  ghost predicate TakesAt(steps: seq<Step>, i: nat, n: Notebook) {
    && i < |steps| && After(steps, i).Some? && steps[i].Take?
    && steps[i].t in After(steps, i).value.tasks && After(steps, i).value.tasks[steps[i].t] == StopBegins(n)
  }

  lemma ReturnedIsBound(steps: seq<Step>, i: nat, n: Notebook, k: Kernel)
    requires ReturnsAt(steps, i, n, k)
    ensures Lookup(After(steps, i + 1).value.kernels, n) == Some(k)
  {
  }

  /** A binding stays until it is taken. */
  lemma {:induction false} BindingStays(steps: seq<Step>, i: nat, j: nat, n: Notebook, k: Kernel)
    requires i <= j <= |steps| && After(steps, j).Some? && After(steps, i).Some?
    requires Lookup(After(steps, i).value.kernels, n) == Some(k)
    requires forall m :: i <= m < j ==> !TakesAt(steps, m, n)
    ensures Lookup(After(steps, j).value.kernels, n) == Some(k)
    decreases j - i
  {
    if i < j {
      RunPrefix(steps, j - 1, j);
      BindingStays(steps, i, j - 1, n, k);
      var s, step := After(steps, j - 1).value, steps[j - 1];
      RunKeepsInv(steps, j - 1);
      assert !TakesAt(steps, j - 1, n);
      if step.Bind? {
        BindInv(s, step.t);
      }
    }
  }

  /** Once bound to a notebook, a kernel stays so or is among those taken. */
  lemma {:induction false} BoundOrTaken(steps: seq<Step>, i: nat, j: nat, n: Notebook, k: Kernel)
    requires i <= j <= |steps| && After(steps, j).Some? && After(steps, i).Some?
    requires Lookup(After(steps, i).value.kernels, n) == Some(k)
    ensures Lookup(After(steps, j).value.kernels, n) == Some(k) || k in After(steps, j).value.taken
    decreases j - i
  {
    if i < j {
      RunPrefix(steps, j - 1, j);
      BoundOrTaken(steps, i, j - 1, n, k);
      RunKeepsInv(steps, j - 1);
      StepKeepsPlace(After(steps, j - 1).value, steps[j - 1], n, k);
    }
  }

  lemma StepKeepsPlace(s: State, step: Step, n: Notebook, k: Kernel)
    requires Inv(s) && Next(s, step).Some? && (Lookup(s.kernels, n) == Some(k) || k in s.taken)
    ensures var s' := Next(s, step).value; Lookup(s'.kernels, n) == Some(k) || k in s'.taken
  {
    if step.Bind? {
      BindInv(s, step.t);
    }
  }

  lemma {:induction false} TakenGrows(steps: seq<Step>, i: nat, j: nat)
    requires i <= j <= |steps| && After(steps, j).Some? && After(steps, i).Some?
    ensures After(steps, i).value.taken <= After(steps, j).value.taken
    decreases j - i
  {
    if i < j {
      RunPrefix(steps, j - 1, j);
      TakenGrows(steps, i, j - 1);
      StepTakesMore(After(steps, j - 1).value, steps[j - 1]);
    }
  }

  lemma StepTakesMore(s: State, step: Step)
    requires Next(s, step).Some?
    ensures s.taken <= Next(s, step).value.taken
  {
  }

  lemma TakingUnbinds(steps: seq<Step>, m: nat, n: Notebook)
    requires TakesAt(steps, m, n) && After(steps, m + 1).Some?
    ensures n !in After(steps, m + 1).value.kernels
  {
  }

  lemma TakenIsUnbound(s: State, n: Notebook, k: Kernel)
    requires Inv(s) && k in s.taken
    ensures Lookup(s.kernels, n) != Some(k)
  {
    assert Lookup(s.kernels, n) == Some(k) ==> IsBound(s, k);
  }

  /** A kernel taken out for shutdown is never returned again. */
  lemma TakenIsGone(steps: seq<Step>, i: nat, m: nat, j: nat, n: Notebook, k: Kernel)
    requires IsRun(steps) && i <= m < j <= |steps| && After(steps, i).Some? && After(steps, j).Some?
    requires Lookup(After(steps, i).value.kernels, n) == Some(k) && TakesAt(steps, m, n)
    ensures Lookup(After(steps, j).value.kernels, n) != Some(k)
  {
    RunPrefix(steps, m + 1, j);
    BoundOrTaken(steps, i, m + 1, n, k);
    TakingUnbinds(steps, m, n);
    TakenGrows(steps, m + 1, j);
    RunKeepsInv(steps, j);
    TakenIsUnbound(After(steps, j).value, n, k);
  }

  lemma ReturnIsNoTake(steps: seq<Step>, i: nat, n: Notebook, k: Kernel)
    requires ReturnsAt(steps, i, n, k)
    ensures !TakesAt(steps, i, n)
  {
  }

  /** Two calls for one notebook get the same kernel exactly when no stop took it in between. */
  lemma CallsShareKernel(steps: seq<Step>, i: nat, j: nat, n: Notebook, k: Kernel, k': Kernel)
    requires IsRun(steps) && i < j < |steps|
    requires ReturnsAt(steps, i, n, k) && ReturnsAt(steps, j, n, k')
    ensures k == k' <==> !(exists m :: i < m < j && TakesAt(steps, m, n))
  {
    hide Next, Inv;
    ReturnedIsBound(steps, i, n, k);
    ReturnedIsBound(steps, j, n, k');
    ReturnIsNoTake(steps, j, n, k');
    if exists m :: i < m < j && TakesAt(steps, m, n) {
      var m :| i < m < j && TakesAt(steps, m, n);
      TakenIsGone(steps, i + 1, m, j + 1, n, k);
    } else {
      BindingStays(steps, i + 1, j + 1, n, k);
    }
  }
}
