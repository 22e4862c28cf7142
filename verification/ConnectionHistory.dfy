/**
 What calls for connections come to, told by the run alone: why every task is where
 it is, in every interleaving, what an eviction does, and that no call ever waits.
 */
module ConnectionHistory {
  import opened Common
  import opened ConnectionProtocol

  // ---- What happened at a step ------------------------------------------------------------------

  /** Step `j` of the run happened, and was this one. */
  ghost predicate Happened(steps: seq<Step>, j: nat, step: Step) {
    j < |steps| && steps[j] == step && After(steps, j).Some? && After(steps, j + 1).Some?
  }

  /** It happened when this driver was cached for the source and the URI. */
  ghost predicate FoundDriver(steps: seq<Step>, j: nat, step: Step, id: SourceId, uri: string, driver: Driver) {
    Happened(steps, j, step) && id in After(steps, j).value.conns
    && After(steps, j).value.conns[id] == CachedDriver(uri, driver)
    && After(steps, j + 1).value.conns == After(steps, j).value.conns
  }

  /** It happened when nothing was cached for the source, or something for another URI. */
  ghost predicate FoundNone(steps: seq<Step>, j: nat, step: Step, id: SourceId, uri: string) {
    Happened(steps, j, step)
    && (id in After(steps, j).value.conns ==> After(steps, j).value.conns[id].uri != uri)
  }

  /** It found none and cached this driver. */
  ghost predicate CachedIt(steps: seq<Step>, j: nat, step: Step, id: SourceId, uri: string, driver: Driver) {
    && FoundNone(steps, j, step, id, uri)
    && After(steps, j + 1).value.conns == After(steps, j).value.conns[id := CachedDriver(uri, driver)]
  }

  // ---- Where each task is, and why --------------------------------------------------------------

  ghost predicate AskedFor(steps: seq<Step>, i: nat, t: Task, db: Source) {
    exists j :: 0 <= j < i && Happened(steps, j, Spawn(t, db))
  }

  /** A call with a URI that found no driver cached for it. */
  ghost predicate MustConnect(steps: seq<Step>, i: nat, t: Task, db: Source, uri: string) {
    && AskedFor(steps, i, t, db) && db.uri == Some(uri)
    && exists j :: 0 <= j < i && FoundNone(steps, j, FastPath(t), db.id, uri)
  }

  /** A call that connected for its source's URI, with a new serial number. */
  ghost predicate HasConnected(steps: seq<Step>, i: nat, t: Task, db: Source, uri: string, driver: Driver) {
    && MustConnect(steps, i, t, db, uri) && driver == Driver(driver.serial, db.kind, uri)
    && exists j :: 0 <= j < i && Happened(steps, j, ConnectSucceeds(t, driver.serial))
  }

  /** A call found a cached driver at once, converged on one cached meanwhile, or cached the one it connected. */
  ghost predicate ReturnedIt(steps: seq<Step>, i: nat, t: Task, db: Source, driver: Driver) {
    && db.uri.Some?
    && (|| (AskedFor(steps, i, t, db)
            && exists j :: 0 <= j < i && FoundDriver(steps, j, FastPath(t), db.id, db.uri.value, driver))
        || ((exists own :: HasConnected(steps, i, t, db, db.uri.value, own))
            && exists j :: 0 <= j < i && FoundDriver(steps, j, Finish(t), db.id, db.uri.value, driver))
        || (HasConnected(steps, i, t, db, db.uri.value, driver)
            && exists j :: 0 <= j < i && CachedIt(steps, j, Finish(t), db.id, db.uri.value, driver)))
  }

  /** A call fails only for want of a URI, or because it could not connect. */
  ghost predicate FailedAt(steps: seq<Step>, i: nat, t: Task, db: Source) {
    || (AskedFor(steps, i, t, db) && db.uri.None? && exists j :: 0 <= j < i && Happened(steps, j, FastPath(t)))
    || ((exists uri :: MustConnect(steps, i, t, db, uri))
        && exists j :: 0 <= j < i && Happened(steps, j, ConnectFails(t)))
  }

  /** Why a task is where it is after `i` steps. */
  ghost predicate Explained(steps: seq<Step>, i: nat, t: Task, pc: Pc) {
    match pc
    case Begins(db) => AskedFor(steps, i, t, db)
    case Connects(db, uri) => MustConnect(steps, i, t, db, uri)
    case Connected(db, uri, driver) => HasConnected(steps, i, t, db, uri, driver)
    case Returned(db, driver) => ReturnedIt(steps, i, t, db, driver)
    case Failed(db) => FailedAt(steps, i, t, db)
  }

  lemma StillConnected(steps: seq<Step>, i: nat, t: Task, db: Source, uri: string)
    ensures MustConnect(steps, i, t, db, uri) ==> MustConnect(steps, i + 1, t, db, uri)
    ensures forall d :: HasConnected(steps, i, t, db, uri, d) ==> HasConnected(steps, i + 1, t, db, uri, d)
  {
    hide Happened, FoundNone;
  }

  /** What explained a task before a step explains it after. */
  lemma StillExplained(steps: seq<Step>, i: nat, t: Task, pc: Pc)
    requires Explained(steps, i, t, pc)
    ensures Explained(steps, i + 1, t, pc)
  {
    hide Happened, FoundDriver, FoundNone, CachedIt, MustConnect, HasConnected;
    match pc
    case Connects(db, uri) => StillConnected(steps, i, t, db, uri);
    case Connected(db, uri, _) => StillConnected(steps, i, t, db, uri);
    case Returned(db, _) => StillConnected(steps, i, t, db, db.uri.value);
    case Failed(db) =>
      forall uri | MustConnect(steps, i, t, db, uri) ensures MustConnect(steps, i + 1, t, db, uri) {
        StillConnected(steps, i, t, db, uri);
      }
    case _ =>
  }

  lemma OwnStepExplains(steps: seq<Step>, i: nat, t: Task, pc: Pc)
    requires i < |steps| && After(steps, i).Some? && After(steps, i + 1).Some? && Inv(After(steps, i).value)
    requires !steps[i].Spawn? && !steps[i].Evict? && steps[i].t == t
    requires t in After(steps, i).value.tasks && After(steps, i).value.tasks[t] == pc
    requires Explained(steps, i + 1, t, pc)
    ensures Explained(steps, i + 1, t, After(steps, i + 1).value.tasks[t])
  {
    hide Inv, AskedFor;
    var s, s', step := After(steps, i).value, After(steps, i + 1).value, steps[i];
    assert Next(s, step) == Some(s') && Happened(steps, i, step);
    match pc
    case Begins(db) =>
      if db.uri.Some? {
        var uri := db.uri.value;
        assert FoundNone(steps, i, step, db.id, uri) || FoundDriver(steps, i, step, db.id, uri, s.conns[db.id].driver);
      }
    case Connects(db, uri) =>
    case Connected(db, uri, driver) =>
      assert || CachedIt(steps, i, step, db.id, uri, driver)
             || FoundDriver(steps, i, step, db.id, uri, s.conns[db.id].driver);
    case _ =>
  }

  lemma StepExplains(steps: seq<Step>, i: nat, t: Task)
    requires i < |steps| && After(steps, i).Some? && After(steps, i + 1).Some? && Inv(After(steps, i).value)
    requires t in After(steps, i + 1).value.tasks
    requires t in After(steps, i).value.tasks ==> Explained(steps, i, t, After(steps, i).value.tasks[t])
    ensures Explained(steps, i + 1, t, After(steps, i + 1).value.tasks[t])
  {
    hide Inv, MustConnect, HasConnected, ReturnedIt, FailedAt;
    var s, s', step := After(steps, i).value, After(steps, i + 1).value, steps[i];
    assert Next(s, step) == Some(s') && Happened(steps, i, step);
    if t in s.tasks {
      StillExplained(steps, i, t, s.tasks[t]);
      if !step.Spawn? && !step.Evict? && step.t == t {
        OwnStepExplains(steps, i, t, s.tasks[t]);
      }
    }
  }

  /** In every reachable state, every task is where it is for the reasons its call is meant to have. */
  lemma {:induction false} CallsAreExplained(steps: seq<Step>, i: nat)
    requires i <= |steps| && After(steps, i).Some?
    ensures forall t :: t in After(steps, i).value.tasks ==> Explained(steps, i, t, After(steps, i).value.tasks[t])
  {
    hide Explained, Inv;
    if i > 0 {
      RunKeepsInv(steps, i - 1);
      CallsAreExplained(steps, i - 1);
      forall t | t in After(steps, i).value.tasks
        ensures Explained(steps, i, t, After(steps, i).value.tasks[t])
      {
        StepExplains(steps, i - 1, t);
      }
    }
  }

  // ---- What the cache holds, and why ---------------------------------------------------------------

  /** A call cached this entry at step `j`, and no later step evicted the source or cached another driver for it. */
  ghost predicate StillCached(steps: seq<Step>, j: nat, i: nat, t: Task, id: SourceId, c: CachedDriver) {
    && j < i <= |steps| && CachedIt(steps, j, Finish(t), id, c.uri, c.driver)
    && forall m :: j < m < i ==> steps[m] != Evict(id) && !Replaces(steps, m, id)
  }

  ghost predicate Replaces(steps: seq<Step>, m: nat, id: SourceId) {
    exists t, uri, driver :: CachedIt(steps, m, Finish(t), id, uri, driver)
  }

  /** A step that neither evicts a source nor caches a driver for it leaves its entry alone. */
  lemma EntryChanges(steps: seq<Step>, m: nat, id: SourceId)
    requires m < |steps| && After(steps, m).Some? && After(steps, m + 1).Some? && Inv(After(steps, m).value)
    ensures var conns, conns' := After(steps, m).value.conns, After(steps, m + 1).value.conns;
            || (steps[m] == Evict(id) && id !in conns')
            || Replaces(steps, m, id)
            || (steps[m] != Evict(id) && !Replaces(steps, m, id)
                && (id in conns <==> id in conns') && (id in conns ==> conns[id] == conns'[id]))
  {
    var s, s', step := After(steps, m).value, After(steps, m + 1).value, steps[m];
    assert Next(s, step) == Some(s') && Happened(steps, m, step);
    if step.Finish? && s.tasks[step.t].Connected? && s.tasks[step.t].db.id == id {
      var pc := s.tasks[step.t];
      if !Replaces(steps, m, id) {
        assert !CachedIt(steps, m, Finish(step.t), id, pc.uri, pc.driver);
      }
    }
  }

  /** What is cached was cached by a call, and has neither been evicted nor replaced since. */
  lemma {:induction false} CachedBySomeone(steps: seq<Step>, i: nat, id: SourceId) returns (j: nat, t: Task)
    requires i <= |steps| && After(steps, i).Some? && id in After(steps, i).value.conns
    ensures StillCached(steps, j, i, t, id, After(steps, i).value.conns[id])
  {
    hide Inv, FoundNone, Next;
    RunKeepsInv(steps, i - 1);
    EntryChanges(steps, i - 1, id);
    if Replaces(steps, i - 1, id) {
      var u, uri, driver :| CachedIt(steps, i - 1, Finish(u), id, uri, driver);
      j, t := i - 1, u;
    } else {
      j, t := CachedBySomeone(steps, i - 1, id);
    }
  }

  lemma {:induction false} StaysCached(steps: seq<Step>, j: nat, i: nat, t: Task, id: SourceId, c: CachedDriver)
    requires i <= |steps| && After(steps, i).Some? && StillCached(steps, j, i, t, id, c)
    ensures id in After(steps, i).value.conns && After(steps, i).value.conns[id] == c
    decreases i
  {
    hide Inv, FoundNone, Next;
    if j + 1 < i {
      RunPrefix(steps, i - 1, i);
      StaysCached(steps, j, i - 1, t, id, c);
      RunKeepsInv(steps, i - 1);
      EntryChanges(steps, i - 1, id);
    }
  }

  /** The cache holds exactly the drivers that calls cached and that were neither evicted nor replaced since. */
  lemma CacheIsExplained(steps: seq<Step>, i: nat, id: SourceId, c: CachedDriver)
    requires i <= |steps| && After(steps, i).Some?
    ensures (id in After(steps, i).value.conns && After(steps, i).value.conns[id] == c)
      <==> exists j, t :: StillCached(steps, j, i, t, id, c)
  {
    hide StillCached;
    if id in After(steps, i).value.conns && After(steps, i).value.conns[id] == c {
      var j, t := CachedBySomeone(steps, i, id);
    }
    if exists j, t :: StillCached(steps, j, i, t, id, c) {
      var j, t :| StillCached(steps, j, i, t, id, c);
      StaysCached(steps, j, i, t, id, c);
    }
  }

  // ---- No call waits --------------------------------------------------------------------------------

  ghost predicate CanMove(s: State, t: Task) {
    exists step: Step :: !step.Spawn? && !step.Evict? && step.t == t && Next(s, step).Some?
  }

  /** Every unfinished call can go on at once: no call ever waits for another one. */
  lemma NoCallWaits(s: State, t: Task)
    requires t in s.tasks
    ensures CanMove(s, t) <==> !s.tasks[t].Returned? && !s.tasks[t].Failed?
    ensures s.tasks[t].Connects? ==>
      Next(s, ConnectFails(t)).Some? && forall n: nat :: n !in s.serials ==> Next(s, ConnectSucceeds(t, n)).Some?
  {
    match s.tasks[t]
    case Begins(_) => assert Next(s, FastPath(t)).Some?;
    case Connects(_, _) => assert Next(s, ConnectFails(t)).Some?;
    case Connected(_, _, _) => assert Next(s, Finish(t)).Some?;
    case _ =>
  }
}
