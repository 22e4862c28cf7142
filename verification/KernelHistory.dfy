/**
 What calls for kernels come to, told by the run alone: why every task is where it
 is, in every interleaving, and that tasks never block one another for good.
 */
module KernelHistory {
  import opened Common
  import opened KernelProtocol

  // ---- What happened at a step ------------------------------------------------------------------

  /** Step `j` of the run happened, and was this one. */
  ghost predicate Happened(steps: seq<Step>, j: nat, step: Step) {
    j < |steps| && steps[j] == step && After(steps, j).Some? && After(steps, j + 1).Some?
  }

  /** It happened when the notebook had no kernel. */
  ghost predicate FoundNone(steps: seq<Step>, j: nat, step: Step, n: Notebook) {
    Happened(steps, j, step) && n !in After(steps, j).value.kernels
  }

  /** It happened when the notebook had this kernel. */
  ghost predicate FoundKernel(steps: seq<Step>, j: nat, step: Step, n: Notebook, k: Kernel) {
    Happened(steps, j, step) && n in After(steps, j).value.kernels && After(steps, j).value.kernels[n] == k
  }

  /** It gave the notebook, without a kernel until then, this one. */
  ghost predicate BoundIt(steps: seq<Step>, j: nat, step: Step, n: Notebook, k: Kernel) {
    FoundNone(steps, j, step, n) && After(steps, j + 1).value.kernels == After(steps, j).value.kernels[n := k]
  }

  /** It took this kernel away from the notebook. */
  ghost predicate TookIt(steps: seq<Step>, j: nat, step: Step, n: Notebook, k: Kernel) {
    FoundKernel(steps, j, step, n, k) && After(steps, j + 1).value.kernels == After(steps, j).value.kernels - {n}
  }

  // ---- Where each task is, and why --------------------------------------------------------------

  ghost predicate EnsureAsked(steps: seq<Step>, i: nat, t: Task, n: Notebook) {
    exists j :: 0 <= j < i && Happened(steps, j, SpawnEnsure(t, n))
  }

  ghost predicate StopAsked(steps: seq<Step>, i: nat, t: Task, n: Notebook) {
    exists j :: 0 <= j < i && Happened(steps, j, SpawnStop(t, n))
  }

  /** A call that found no kernel and had to ask for the lock. */
  ghost predicate Queued(steps: seq<Step>, i: nat, t: Task, n: Notebook) {
    EnsureAsked(steps, i, t, n) && exists j :: 0 <= j < i && FoundNone(steps, j, FastPath(t), n)
  }

  ghost predicate GotLock(steps: seq<Step>, i: nat, t: Task, n: Notebook) {
    Queued(steps, i, t, n) && exists j :: 0 <= j < i && Happened(steps, j, Acquire(t))
  }

  /** A call that, with the lock, found no kernel again. */
  ghost predicate FoundNoneTwice(steps: seq<Step>, i: nat, t: Task, n: Notebook) {
    GotLock(steps, i, t, n) && exists j :: 0 <= j < i && FoundNone(steps, j, Recheck(t), n)
  }

  ghost predicate GotKernel(steps: seq<Step>, i: nat, t: Task, n: Notebook, k: Kernel) {
    FoundNoneTwice(steps, i, t, n) && exists j :: 0 <= j < i && Happened(steps, j, GatewayStarts(t, k))
  }

  /** A call returned the kernel it found at once, the one it found with the lock, or one started and bound for it. */
  ghost predicate ReturnedIt(steps: seq<Step>, i: nat, t: Task, n: Notebook, k: Kernel) {
    || (EnsureAsked(steps, i, t, n) && exists j :: 0 <= j < i && FoundKernel(steps, j, FastPath(t), n, k))
    || (GotLock(steps, i, t, n) && exists j :: 0 <= j < i && FoundKernel(steps, j, Recheck(t), n, k))
    || (GotKernel(steps, i, t, n, k) && exists j :: 0 <= j < i && BoundIt(steps, j, Step.Bind(t), n, k))
  }

  ghost predicate Took(steps: seq<Step>, i: nat, t: Task, n: Notebook, k: Kernel) {
    StopAsked(steps, i, t, n) && exists j :: 0 <= j < i && TookIt(steps, j, Take(t), n, k)
  }

  /** The gateway answered the shutdown of the kernel a stop took. */
  ghost predicate ShutDown(steps: seq<Step>, i: nat, t: Task, n: Notebook, ok: bool) {
    (exists k :: Took(steps, i, t, n, k)) && exists j :: 0 <= j < i && Happened(steps, j, ShutdownEnds(t, ok))
  }

  /** A stop ends well when it found nothing to stop, or the kernel it took was shut down. */
  ghost predicate StoppedIt(steps: seq<Step>, i: nat, t: Task, n: Notebook) {
    || (StopAsked(steps, i, t, n) && exists j :: 0 <= j < i && FoundNone(steps, j, Take(t), n))
    || ShutDown(steps, i, t, n, true)
  }

  /** A call fails only because the gateway would not start a kernel, or not shut one down. */
  ghost predicate FailedAt(steps: seq<Step>, i: nat, t: Task, n: Notebook) {
    || (FoundNoneTwice(steps, i, t, n) && exists j :: 0 <= j < i && Happened(steps, j, GatewayFails(t)))
    || ShutDown(steps, i, t, n, false)
  }

  /** Why a task is where it is after `i` steps. */
  ghost predicate Explained(steps: seq<Step>, i: nat, t: Task, pc: Pc) {
    match pc
    case EnsureBegins(n) => EnsureAsked(steps, i, t, n)
    case AwaitsLock(n) => Queued(steps, i, t, n)
    case HasLock(n) => GotLock(steps, i, t, n)
    case StartsKernel(n) => FoundNoneTwice(steps, i, t, n)
    case HoldsKernel(n, k) => GotKernel(steps, i, t, n, k)
    case Returned(n, k) => ReturnedIt(steps, i, t, n, k)
    case StopBegins(n) => StopAsked(steps, i, t, n)
    case ShutsDown(n, k) => Took(steps, i, t, n, k)
    case Stopped(n) => StoppedIt(steps, i, t, n)
    case Failed(n) => FailedAt(steps, i, t, n)
  }

  lemma StillTook(steps: seq<Step>, i: nat, t: Task, n: Notebook, k: Kernel)
    requires Took(steps, i, t, n, k)
    ensures Took(steps, i + 1, t, n, k)
  {
    hide Happened, TookIt;
  }

  lemma StillShutDown(steps: seq<Step>, i: nat, t: Task, n: Notebook, ok: bool)
    requires ShutDown(steps, i, t, n, ok)
    ensures ShutDown(steps, i + 1, t, n, ok)
  {
    hide Happened, TookIt;
    var k :| Took(steps, i, t, n, k);
    StillTook(steps, i, t, n, k);
    var j :| 0 <= j < i && Happened(steps, j, ShutdownEnds(t, ok));
  }

  /** What explained a task before a step explains it after. */
  lemma StillExplained(steps: seq<Step>, i: nat, t: Task, pc: Pc)
    requires Explained(steps, i, t, pc)
    ensures Explained(steps, i + 1, t, pc)
  {
    hide Happened, FoundNone, FoundKernel, BoundIt, TookIt, ShutDown;
    if pc.Stopped? && ShutDown(steps, i, t, pc.n, true) {
      StillShutDown(steps, i, t, pc.n, true);
    }
    if pc.Failed? && ShutDown(steps, i, t, pc.n, false) {
      StillShutDown(steps, i, t, pc.n, false);
    }
  }

  lemma EnsureStepExplains(steps: seq<Step>, i: nat, t: Task, pc: Pc)
    requires i < |steps| && After(steps, i).Some? && After(steps, i + 1).Some? && Inv(After(steps, i).value)
    requires !steps[i].SpawnEnsure? && !steps[i].SpawnStop? && steps[i].t == t
    requires t in After(steps, i).value.tasks && After(steps, i).value.tasks[t] == pc
    requires pc.EnsureBegins? || pc.AwaitsLock? || pc.HasLock? || pc.StartsKernel?
    requires Explained(steps, i + 1, t, pc)
    ensures Explained(steps, i + 1, t, After(steps, i + 1).value.tasks[t])
  {
    hide EnsureAsked, StopAsked, Inv, ShutDown;
    var s, s', step := After(steps, i).value, After(steps, i + 1).value, steps[i];
    assert Next(s, step) == Some(s') && Happened(steps, i, step);
    match pc
    case EnsureBegins(n) =>
      assert FoundNone(steps, i, step, n) || FoundKernel(steps, i, step, n, s.kernels[n]);
    case AwaitsLock(n) =>
    case HasLock(n) =>
      assert FoundNone(steps, i, step, n) || FoundKernel(steps, i, step, n, s.kernels[n]);
    case StartsKernel(n) =>
  }

  lemma BindStepExplains(steps: seq<Step>, i: nat, t: Task, pc: Pc)
    requires i < |steps| && After(steps, i).Some? && After(steps, i + 1).Some? && Inv(After(steps, i).value)
    requires !steps[i].SpawnEnsure? && !steps[i].SpawnStop? && steps[i].t == t
    requires t in After(steps, i).value.tasks && After(steps, i).value.tasks[t] == pc && pc.HoldsKernel?
    requires Explained(steps, i + 1, t, pc)
    ensures Explained(steps, i + 1, t, After(steps, i + 1).value.tasks[t])
  {
    hide GotKernel, Inv;
    var s, s', step := After(steps, i).value, After(steps, i + 1).value, steps[i];
    assert Next(s, step) == Some(s') && Happened(steps, i, step);
    BindInv(s, t);
    assert BoundIt(steps, i, step, pc.n, pc.k);
  }

  lemma StopStepExplains(steps: seq<Step>, i: nat, t: Task, pc: Pc)
    requires i < |steps| && After(steps, i).Some? && After(steps, i + 1).Some?
    requires !steps[i].SpawnEnsure? && !steps[i].SpawnStop? && steps[i].t == t
    requires t in After(steps, i).value.tasks && After(steps, i).value.tasks[t] == pc
    requires pc.StopBegins? || pc.ShutsDown?
    requires Explained(steps, i + 1, t, pc)
    ensures Explained(steps, i + 1, t, After(steps, i + 1).value.tasks[t])
  {
    hide EnsureAsked, StopAsked;
    var s, s', step := After(steps, i).value, After(steps, i + 1).value, steps[i];
    assert Next(s, step) == Some(s') && Happened(steps, i, step);
    match pc
    case StopBegins(n) =>
      assert FoundNone(steps, i, step, n) || TookIt(steps, i, step, n, s.kernels[n]);
    case ShutsDown(n, k) =>
      assert Took(steps, i + 1, t, n, k);
  }

  lemma StepExplains(steps: seq<Step>, i: nat, t: Task)
    requires i < |steps| && After(steps, i).Some? && After(steps, i + 1).Some? && Inv(After(steps, i).value)
    requires t in After(steps, i + 1).value.tasks
    requires t in After(steps, i).value.tasks ==> Explained(steps, i, t, After(steps, i).value.tasks[t])
    ensures Explained(steps, i + 1, t, After(steps, i + 1).value.tasks[t])
  {
    hide Inv, EnsureAsked, StopAsked, Queued, GotLock, FoundNoneTwice, GotKernel, ReturnedIt, Took, StoppedIt, FailedAt;
    var s, s', step := After(steps, i).value, After(steps, i + 1).value, steps[i];
    assert Next(s, step) == Some(s');
    if t !in s.tasks {
      SpawnExplains(steps, i, t);
    } else {
      var pc := s.tasks[t];
      StillExplained(steps, i, t, pc);
      if !step.SpawnEnsure? && !step.SpawnStop? && step.t == t {
        if pc.StopBegins? || pc.ShutsDown? {
          StopStepExplains(steps, i, t, pc);
        } else if pc.HoldsKernel? {
          BindStepExplains(steps, i, t, pc);
        } else {
          EnsureStepExplains(steps, i, t, pc);
        }
      }
    }
  }

  lemma SpawnExplains(steps: seq<Step>, i: nat, t: Task)
    requires i < |steps| && After(steps, i).Some? && After(steps, i + 1).Some?
    requires t in After(steps, i + 1).value.tasks && t !in After(steps, i).value.tasks
    ensures Explained(steps, i + 1, t, After(steps, i + 1).value.tasks[t])
  {
    assert Happened(steps, i, steps[i]);
  }

  /** In every reachable state, every task is where it is for the reasons its calls are meant to have. */
  lemma {:induction false} EveryTaskIsExplained(steps: seq<Step>, i: nat, t: Task)
    requires i <= |steps| && After(steps, i).Some? && t in After(steps, i).value.tasks
    ensures Explained(steps, i, t, After(steps, i).value.tasks[t])
  {
    hide Explained, Inv;
    if i > 0 {
      RunKeepsInv(steps, i - 1);
      if t in After(steps, i - 1).value.tasks {
        EveryTaskIsExplained(steps, i - 1, t);
      }
      StepExplains(steps, i - 1, t);
    }
  }

  // ---- What is bound, and why -------------------------------------------------------------------------

  ghost predicate Takes(steps: seq<Step>, m: nat, n: Notebook) {
    exists t, k :: TookIt(steps, m, Take(t), n, k)
  }

  ghost predicate Binds(steps: seq<Step>, m: nat, n: Notebook) {
    exists t, k :: BoundIt(steps, m, Step.Bind(t), n, k)
  }

  /** A call bound this kernel at step `j`, and no stop took it since. */
  ghost predicate StillBound(steps: seq<Step>, j: nat, i: nat, t: Task, n: Notebook, k: Kernel) {
    && j < i <= |steps| && BoundIt(steps, j, Step.Bind(t), n, k)
    && forall m :: j < m < i ==> !Takes(steps, m, n)
  }

  lemma BindingChanges(steps: seq<Step>, m: nat, n: Notebook)
    requires m < |steps| && After(steps, m).Some? && After(steps, m + 1).Some? && Inv(After(steps, m).value)
    ensures var was, now := After(steps, m).value.kernels, After(steps, m + 1).value.kernels;
            || (Takes(steps, m, n) && n !in now)
            || Binds(steps, m, n)
            || (!Takes(steps, m, n) && (n in was <==> n in now) && (n in was ==> was[n] == now[n]))
  {
    hide Inv;
    var s, s', step := After(steps, m).value, After(steps, m + 1).value, steps[m];
    assert Next(s, step) == Some(s') && Happened(steps, m, step);
    if step.Bind? {
      BindInv(s, step.t);
      assert BoundIt(steps, m, step, s.tasks[step.t].n, s.tasks[step.t].k);
    } else if step.Take? && n in s.kernels && n !in s'.kernels {
      assert TookIt(steps, m, step, n, s.kernels[n]);
    }
  }

  lemma {:induction false} BoundBySomeone(steps: seq<Step>, i: nat, n: Notebook) returns (j: nat, t: Task)
    requires i <= |steps| && After(steps, i).Some? && n in After(steps, i).value.kernels
    ensures StillBound(steps, j, i, t, n, After(steps, i).value.kernels[n])
  {
    hide Inv, Next;
    RunKeepsInv(steps, i - 1);
    BindingChanges(steps, i - 1, n);
    if Binds(steps, i - 1, n) {
      var u, k :| BoundIt(steps, i - 1, Step.Bind(u), n, k);
      j, t := i - 1, u;
    } else {
      j, t := BoundBySomeone(steps, i - 1, n);
    }
  }

  lemma {:induction false} StaysBound(steps: seq<Step>, j: nat, i: nat, t: Task, n: Notebook, k: Kernel)
    requires i <= |steps| && After(steps, i).Some? && StillBound(steps, j, i, t, n, k)
    ensures n in After(steps, i).value.kernels && After(steps, i).value.kernels[n] == k
    decreases i
  {
    hide Inv, Next;
    if j + 1 < i {
      RunPrefix(steps, i - 1, i);
      StaysBound(steps, j, i - 1, t, n, k);
      RunKeepsInv(steps, i - 1);
      BindingChanges(steps, i - 1, n);
    }
  }

  /** A kernel is bound to a notebook exactly when a call bound it and no stop took it since. */
  lemma BindingsAreExplained(steps: seq<Step>, i: nat, n: Notebook, k: Kernel)
    requires i <= |steps| && After(steps, i).Some?
    ensures (n in After(steps, i).value.kernels && After(steps, i).value.kernels[n] == k)
      <==> exists j, t :: StillBound(steps, j, i, t, n, k)
  {
    hide StillBound;
    if n in After(steps, i).value.kernels && After(steps, i).value.kernels[n] == k {
      var j, t := BoundBySomeone(steps, i, n);
    }
    if exists j, t :: StillBound(steps, j, i, t, n, k) {
      var j, t :| StillBound(steps, j, i, t, n, k);
      StaysBound(steps, j, i, t, n, k);
    }
  }

  // ---- No call blocks another for good ---------------------------------------------------------------

  predicate Ended(pc: Pc) {
    pc.Returned? || pc.Stopped? || pc.Failed?
  }

  /** The task can take a step now. */
  ghost predicate CanMove(s: State, t: Task) {
    exists step: Step :: !step.SpawnEnsure? && !step.SpawnStop? && step.t == t && Next(s, step).Some?
  }

  /** With the lock free or its own, no unfinished task has to wait. */
  lemma OnlyTheLockIsAwaited(s: State, t: Task)
    requires t in s.tasks && !Ended(s.tasks[t])
    ensures CanMove(s, t) <==> !(s.tasks[t].AwaitsLock? && s.lock.Some?)
    ensures s.tasks[t].StartsKernel? ==>
      Next(s, GatewayFails(t)).Some? && forall k :: k !in s.started ==> Next(s, GatewayStarts(t, k)).Some?
    ensures s.tasks[t].ShutsDown? ==> forall ok :: Next(s, ShutdownEnds(t, ok)).Some?
  {
    match s.tasks[t]
    case EnsureBegins(_) => assert Next(s, FastPath(t)).Some?;
    case AwaitsLock(_) =>
      if s.lock.None? {
        assert Next(s, Acquire(t)).Some?;
      }
    case HasLock(_) => assert Next(s, Recheck(t)).Some?;
    case StartsKernel(_) => assert Next(s, GatewayFails(t)).Some?;
    case HoldsKernel(_, _) => assert Next(s, Step.Bind(t)).Some?;
    case StopBegins(_) => assert Next(s, Take(t)).Some?;
    case ShutsDown(_, _) => assert Next(s, ShutdownEnds(t, true)).Some?;
  }

  /** There is no deadlock: an unfinished task can move, or the task it waits for can. */
  lemma SomeoneCanMove(steps: seq<Step>, t: Task)
    requires IsRun(steps) && t in After(steps, |steps|).value.tasks && !Ended(After(steps, |steps|).value.tasks[t])
    ensures var s := After(steps, |steps|).value;
            CanMove(s, t) || (s.lock.Some? && CanMove(s, s.lock.value))
  {
    var s := After(steps, |steps|).value;
    RunKeepsInv(steps, |steps|);
    OnlyTheLockIsAwaited(s, t);
    if s.tasks[t].AwaitsLock? && s.lock.Some? {
      assert InsideLock(s.tasks[s.lock.value]);
      OnlyTheLockIsAwaited(s, s.lock.value);
    }
  }
}
