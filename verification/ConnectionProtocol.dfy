/**
 Sharing live connections to data sources: a caller looks for a cached driver,
 connects without holding the lock, and looks again under the write lock before it
 caches its own. Tasks interleave freely between those points, and a source may be
 evicted, or reconfigured to another URI, at any moment.

 Over every interleaving, a caller gets a driver connected for the URI it passed,
 and two calls for one source get the same driver exactly when the cached one was
 not dropped in between.
 */
module ConnectionProtocol {
  import opened Common

  type SourceId = nat
  type Kind = nat
  type Task = nat

  /** A data source as a caller sees it. */
  datatype Source = Source(id: SourceId, kind: Kind, uri: Option<string>)

  /** A live connection; no two have the same serial number. */
  datatype Driver = Driver(serial: nat, kind: Kind, uri: string)

  datatype CachedDriver = CachedDriver(uri: string, driver: Driver)

  type Conns = map<SourceId, CachedDriver>

  // ---- Looking up and settling ---------------------------------------------------------------------

  /** The cached driver of a source, if it was connected for this URI. */
  function Lookup(conns: Conns, id: SourceId, uri: string): Option<Driver> {
    if id in conns && conns[id].uri == uri then Some(conns[id].driver) else None
  }

  /** The cache after a task comes back with a driver of its own. */
  function Settle(conns: Conns, id: SourceId, uri: string, driver: Driver): Conns {
    if Lookup(conns, id, uri).Some? then conns else conns[id := CachedDriver(uri, driver)]
  }

  // ---- The steps ---------------------------------------------------------------------------

  /** Where a call is between two await points. */
  datatype Pc =
    | Begins(db: Source)
    | Connects(db: Source, uri: string)
    | Connected(db: Source, uri: string, driver: Driver)
    | Returned(db: Source, driver: Driver)
    | Failed(db: Source)

  /** `serials` are those ever connected, `shared` those ever put in the cache. */
  datatype State = State(conns: Conns, tasks: map<Task, Pc>, serials: set<nat>, shared: set<nat>)

  const INITIAL := State(map[], map[], {}, {})

  datatype Step =
    | Spawn(t: Task, db: Source)
    | FastPath(t: Task)
    | ConnectFails(t: Task)
    | ConnectSucceeds(t: Task, serial: nat)
    | Finish(t: Task)
    | Evict(id: SourceId)

  function At(s: State, t: Task, pc: Pc): State {
    s.(tasks := s.tasks[t := pc])
  }

  /** The state after a step, or None when the step cannot happen. */
  function Next(s: State, step: Step): Option<State> {
    match step
    case Spawn(t, db) => if t in s.tasks then None else Some(At(s, t, Begins(db)))
    case Evict(id) => Some(s.(conns := s.conns - {id}))
    case _ => if step.t in s.tasks then Proceed(s, step, s.tasks[step.t]) else None
  }

  function Proceed(s: State, step: Step, pc: Pc): Option<State>
    requires !step.Spawn? && !step.Evict?
  {
    match (step, pc)
    case (FastPath(t), Begins(db)) =>
      if db.uri.None? then Some(At(s, t, Failed(db)))
      else if Lookup(s.conns, db.id, db.uri.value).Some? then
        Some(At(s, t, Returned(db, Lookup(s.conns, db.id, db.uri.value).value)))
      else Some(At(s, t, Connects(db, db.uri.value)))
    case (ConnectFails(t), Connects(db, uri)) => Some(At(s, t, Failed(db)))
    case (ConnectSucceeds(t, serial), Connects(db, uri)) =>
      if serial in s.serials then None
      else Some(At(s, t, Connected(db, uri, Driver(serial, db.kind, uri))).(serials := s.serials + {serial}))
    case (Finish(t), Connected(db, uri, driver)) =>
      if Lookup(s.conns, db.id, uri).Some? then
        Some(At(s, t, Returned(db, Lookup(s.conns, db.id, uri).value)))
      else
        Some(At(s, t, Returned(db, driver)).(conns := Settle(s.conns, db.id, uri, driver),
                                           shared := s.shared + {driver.serial}))
    case _ => None
  }

  // ---- The steps on the registry ----------------------------------------------------------------

  /** The registry; each method is one access under the lock. */
  class ConnectionRegistry {
    var conns: Conns

    constructor ()
      ensures conns == map[]
    {
      conns := map[];
    }

    /** The fast path: a cached connection that is still valid. */
    method Reuse(id: SourceId, uri: string) returns (r: Option<Driver>)
      ensures r == Lookup(conns, id, uri)
    {
      if id in conns {
        var c := conns[id];
        if c.uri == uri {
          return Some(c.driver);
        }
      }
      r := None;
    }

    /** The end of the slow path: converge on a handle someone else cached, or cache ours. */
    method Converge(id: SourceId, uri: string, driver: Driver) returns (r: Driver)
      modifies this
      ensures conns == Settle(old(conns), id, uri, driver)
      ensures Lookup(conns, id, uri) == Some(r)
      ensures forall other :: other != id ==> (other in conns <==> other in old(conns))
      ensures forall other :: other != id && other in conns ==> conns[other] == old(conns)[other]
    {
      if id in conns {
        var existing := conns[id];
        if existing.uri == uri {
          return existing.driver;
        }
      }
      conns := conns[id := CachedDriver(uri, driver)];
      r := driver;
    }

    method Evict(id: SourceId)
      modifies this
      ensures conns == old(conns) - {id}
    {
      conns := conns - {id};
    }

    /**
     One step of a call that has reached `pc`, as the code takes it between two
     await points, and the point it reaches. It is the step of the state machine.
     */
    method Perform(step: Step, pc: Pc, ghost s: State) returns (reached: Pc)
      requires conns == s.conns && !step.Spawn? && !step.Evict?
      requires step.t in s.tasks && s.tasks[step.t] == pc && Next(s, step).Some?
      modifies this
      ensures conns == Next(s, step).value.conns
      ensures Next(s, step).value.tasks == s.tasks[step.t := reached]
    {
      match pc
      case Begins(db) =>
        if db.uri.None? {
          return Failed(db);
        }
        var cached := Reuse(db.id, db.uri.value);
        reached := if cached.Some? then Returned(db, cached.value) else Connects(db, db.uri.value);
      case Connects(db, uri) =>
        reached := if step.ConnectSucceeds? then Connected(db, uri, Driver(step.serial, db.kind, uri)) else Failed(db);
      case Connected(db, uri, driver) =>
        var shared := Converge(db.id, uri, driver);
        reached := Returned(db, shared);
    }
  }

  // ---- The invariant ---------------------------------------------------------------------------

  /** What is cached for a source was connected for the URI it is cached under. */
  ghost predicate EntriesMatch(s: State) {
    forall id :: id in s.conns ==> s.conns[id].driver.uri == s.conns[id].uri && s.conns[id].driver.serial in s.shared
  }

  ghost predicate TaskMatches(s: State, pc: Pc) {
    match pc
    case Connects(db, uri) => db.uri == Some(uri)
    case Connected(db, uri, driver) =>
      db.uri == Some(uri) && driver.uri == uri && driver.serial in s.serials && driver.serial !in s.shared
    case Returned(db, driver) => db.uri == Some(driver.uri) && driver.serial in s.shared
    case _ => true
  }

  ghost predicate TasksMatch(s: State) {
    forall t :: t in s.tasks ==> TaskMatches(s, s.tasks[t])
  }

  ghost predicate SameConnection(pc: Pc, pc': Pc) {
    pc.Connected? && pc'.Connected? && pc.driver.serial == pc'.driver.serial
  }

  /** A connection not yet shared belongs to one task. */
  ghost predicate OwnDrivers(s: State) {
    forall t, u :: t in s.tasks && u in s.tasks && SameConnection(s.tasks[t], s.tasks[u]) ==> t == u
  }

  ghost predicate Inv(s: State) {
    EntriesMatch(s) && TasksMatch(s) && OwnDrivers(s) && s.shared <= s.serials
  }

  lemma FinishKeepsInv(s: State, t: Task)
    requires Inv(s) && Next(s, Finish(t)).Some?
    ensures Inv(Next(s, Finish(t)).value)
  {
    var s' := Next(s, Finish(t)).value;
    forall u | u in s'.tasks ensures TaskMatches(s', s'.tasks[u]) {
      if u != t {
        assert TaskMatches(s, s.tasks[u]) && TaskMatches(s, s.tasks[t]);
      }
    }
  }

  /** Every step keeps the invariant. */
  lemma StepKeepsInv(s: State, step: Step)
    requires Inv(s) && Next(s, step).Some?
    ensures Inv(Next(s, step).value)
  {
    var s' := Next(s, step).value;
    if step.Finish? {
      FinishKeepsInv(s, step.t);
    } else {
      forall u | u in s'.tasks ensures TaskMatches(s', s'.tasks[u]) {
        if u in s.tasks {
          assert TaskMatches(s, s.tasks[u]);
        }
      }
    }
  }

  // ---- Runs ---------------------------------------------------------------------------------------

  /** The state after the first `i` steps of a run, or None when one of them could not happen. */
  function After(steps: seq<Step>, i: nat): Option<State>
    requires i <= |steps|
  {
    if i == 0 then Some(INITIAL)
    else
      match After(steps, i - 1)
      case None => None
      case Some(s) => Next(s, steps[i - 1])
  }

  ghost predicate IsRun(steps: seq<Step>) {
    After(steps, |steps|).Some?
  }

  lemma {:induction false} RunPrefix(steps: seq<Step>, i: nat, j: nat)
    requires i <= j <= |steps| && After(steps, j).Some?
    ensures After(steps, i).Some?
    decreases j - i
  {
    if i < j {
      RunPrefix(steps, i, j - 1);
    }
  }

  lemma {:induction false} RunKeepsInv(steps: seq<Step>, i: nat)
    requires i <= |steps| && After(steps, i).Some?
    ensures Inv(After(steps, i).value)
  {
    if i > 0 {
      RunKeepsInv(steps, i - 1);
      StepKeepsInv(After(steps, i - 1).value, steps[i - 1]);
    }
  }

  /** Step `i` of the run returns driver `d` to a task that asked for the source `db`. */
  ghost predicate ReturnsAt(steps: seq<Step>, i: nat, db: Source, d: Driver) {
    && i < |steps| && After(steps, i).Some? && After(steps, i + 1).Some?
    && (steps[i].FastPath? || steps[i].Finish?)
    && After(steps, i + 1).value.tasks[steps[i].t] == Returned(db, d)
  }

  /** A caller's driver was connected for the URI it passed, and is the one cached for its source. */
  lemma CallersGetTheirUri(steps: seq<Step>, i: nat, db: Source, d: Driver)
    requires ReturnsAt(steps, i, db, d)
    ensures db.uri == Some(d.uri)
    ensures db.id in After(steps, i + 1).value.conns
    ensures After(steps, i + 1).value.conns[db.id] == CachedDriver(d.uri, d)
  {
    RunKeepsInv(steps, i);
    RunKeepsInv(steps, i + 1);
    assert TaskMatches(After(steps, i).value, After(steps, i).value.tasks[steps[i].t]);
  }

  // ---- When two callers share a driver ------------------------------------------------------------

  ghost predicate Caches(s: State, id: SourceId, d: Driver) {
    id in s.conns && s.conns[id].driver == d
  }

  /** Step `m` drops the driver cached for a source: it evicts it or replaces it. */
  ghost predicate DropsAt(steps: seq<Step>, m: nat, id: SourceId) {
    && m < |steps| && After(steps, m).Some? && After(steps, m + 1).Some?
    && id in After(steps, m).value.conns
    && !Caches(After(steps, m + 1).value, id, After(steps, m).value.conns[id].driver)
  }

  /** Only evicting a source, or a call for it with another URI, drops its driver. */
  lemma DropsHaveCauses(steps: seq<Step>, m: nat, id: SourceId)
    requires DropsAt(steps, m, id)
    ensures var s := After(steps, m).value;
            || steps[m] == Evict(id)
            || (&& steps[m].Finish? && steps[m].t in s.tasks && s.tasks[steps[m].t].Connected?
                && s.tasks[steps[m].t].db.id == id && s.tasks[steps[m].t].uri != s.conns[id].uri)
  {
  }

  lemma {:induction false} CachedStays(steps: seq<Step>, i: nat, j: nat, id: SourceId, d: Driver)
    requires i <= j <= |steps| && After(steps, i).Some? && After(steps, j).Some?
    requires Caches(After(steps, i).value, id, d)
    requires forall m :: i <= m < j ==> !DropsAt(steps, m, id)
    ensures Caches(After(steps, j).value, id, d)
    decreases j - i
  {
    if i < j {
      RunPrefix(steps, j - 1, j);
      CachedStays(steps, i, j - 1, id, d);
      assert !DropsAt(steps, j - 1, id);
    }
  }

  /** Nothing cached at the end of a step was cached before it, unless it already was for that source. */
  lemma OldDriversStayOut(s: State, step: Step, id: SourceId, d: Driver)
    requires Inv(s) && Next(s, step).Some?
    requires d.serial in s.shared && !Caches(s, id, d)
    ensures d.serial in Next(s, step).value.shared && !Caches(Next(s, step).value, id, d)
  {
    if step.Finish? {
      assert TaskMatches(s, s.tasks[step.t]);
    }
  }

  lemma {:induction false} DroppedNeverReturns(steps: seq<Step>, i: nat, j: nat, id: SourceId, d: Driver)
    requires i <= j <= |steps| && After(steps, i).Some? && After(steps, j).Some?
    requires d.serial in After(steps, i).value.shared && !Caches(After(steps, i).value, id, d)
    ensures d.serial in After(steps, j).value.shared && !Caches(After(steps, j).value, id, d)
    decreases j - i
  {
    if i < j {
      RunPrefix(steps, j - 1, j);
      RunKeepsInv(steps, j - 1);
      DroppedNeverReturns(steps, i, j - 1, id, d);
      OldDriversStayOut(After(steps, j - 1).value, steps[j - 1], id, d);
    }
  }

  /** Once dropped, whatever was cached earlier is gone for good. */
  lemma DroppedIsGone(steps: seq<Step>, i: nat, m: nat, j: nat, id: SourceId, d: Driver)
    requires IsRun(steps) && i <= m < j <= |steps| && After(steps, i).Some?
    requires Caches(After(steps, i).value, id, d) && DropsAt(steps, m, id)
    ensures After(steps, j).Some? && !Caches(After(steps, j).value, id, d)
  {
    RunPrefix(steps, j, |steps|);
    RunKeepsInv(steps, i);
    RunKeepsInv(steps, m);
    if Caches(After(steps, m).value, id, d) {
      StepSharesMore(After(steps, m).value, steps[m]);
      DroppedNeverReturns(steps, m + 1, j, id, d);
    } else {
      SharedGrows(steps, i, m);
      DroppedNeverReturns(steps, m, j, id, d);
    }
  }

  lemma StepSharesMore(s: State, step: Step)
    requires Next(s, step).Some?
    ensures s.shared <= Next(s, step).value.shared
  {
  }

  lemma {:induction false} SharedGrows(steps: seq<Step>, i: nat, j: nat)
    requires i <= j <= |steps| && After(steps, j).Some?
    ensures After(steps, i).Some? && After(steps, i).value.shared <= After(steps, j).value.shared
    decreases j - i
  {
    RunPrefix(steps, i, j);
    if i < j {
      RunPrefix(steps, j - 1, j);
      SharedGrows(steps, i, j - 1);
      StepSharesMore(After(steps, j - 1).value, steps[j - 1]);
    }
  }

  /** Two calls for one source share a driver exactly when it was not dropped in between. */
  lemma CallsShareDriver(steps: seq<Step>, i: nat, j: nat, db: Source, d: Driver, db': Source, d': Driver)
    requires IsRun(steps) && i < j < |steps| && db.id == db'.id
    requires ReturnsAt(steps, i, db, d) && ReturnsAt(steps, j, db', d')
    ensures d == d' <==> !(exists m :: i < m <= j && DropsAt(steps, m, db.id))
  {
    hide Next, Inv;
    CallersGetTheirUri(steps, i, db, d);
    CallersGetTheirUri(steps, j, db', d');
    if exists m :: i < m <= j && DropsAt(steps, m, db.id) {
      var m :| i < m <= j && DropsAt(steps, m, db.id);
      DroppedIsGone(steps, i + 1, m, j + 1, db.id, d);
    } else {
      CachedStays(steps, i + 1, j + 1, db.id, d);
    }
  }

  // ---- One URI per source, no eviction ---------------------------------------------------------------

  ghost predicate AsksFor(pc: Pc, id: SourceId, uri: string) {
    pc.db.id == id && pc.db.uri.Some? ==> pc.db.uri.value == uri
  }

  /** Every call for the source passes the same URI, and the source is never evicted. */
  ghost predicate OneUri(steps: seq<Step>, id: SourceId, uri: string) {
    && (forall m :: 0 <= m < |steps| && steps[m].Spawn? ==> AsksFor(Begins(steps[m].db), id, uri))
    && (forall m :: 0 <= m < |steps| ==> steps[m] != Evict(id))
  }

  ghost predicate OnlyUri(s: State, id: SourceId, uri: string) {
    && (forall t :: t in s.tasks ==> AsksFor(s.tasks[t], id, uri))
    && (id in s.conns ==> s.conns[id].uri == uri)
  }

  lemma StepKeepsUri(s: State, step: Step, id: SourceId, uri: string)
    requires Inv(s) && Next(s, step).Some? && OnlyUri(s, id, uri)
    requires step.Spawn? ==> AsksFor(Begins(step.db), id, uri)
    ensures OnlyUri(Next(s, step).value, id, uri)
  {
    if !step.Spawn? && !step.Evict? {
      assert TaskMatches(s, s.tasks[step.t]) && AsksFor(s.tasks[step.t], id, uri);
      assert AsksFor(Next(s, step).value.tasks[step.t], id, uri);
    }
  }

  lemma {:induction false} OneUriIsCached(steps: seq<Step>, i: nat, id: SourceId, uri: string)
    requires OneUri(steps, id, uri) && i <= |steps| && After(steps, i).Some?
    ensures OnlyUri(After(steps, i).value, id, uri)
  {
    if i > 0 {
      OneUriIsCached(steps, i - 1, id, uri);
      RunKeepsInv(steps, i - 1);
      StepKeepsUri(After(steps, i - 1).value, steps[i - 1], id, uri);
    }
  }

  /** Without reconfiguration or eviction, all callers of a source converge on one driver. */
  lemma AllCallersConverge(steps: seq<Step>, i: nat, j: nat, uri: string, db: Source, d: Driver, db': Source,
                           d': Driver)
    requires IsRun(steps) && i < j < |steps| && db.id == db'.id && OneUri(steps, db.id, uri)
    requires ReturnsAt(steps, i, db, d) && ReturnsAt(steps, j, db', d')
    ensures d == d'
  {
    forall m | i < m <= j && DropsAt(steps, m, db.id) ensures false {
      DropsHaveCauses(steps, m, db.id);
      RunKeepsInv(steps, m);
      OneUriIsCached(steps, m, db.id, uri);
    }
    CallsShareDriver(steps, i, j, db, d, db', d');
  }

  // ---- The kind of the source -------------------------------------------------------------------------

  /** Every call of the run passes one of these sources. */
  ghost predicate DrawnFrom(steps: seq<Step>, dbs: iset<Source>) {
    forall m :: 0 <= m < |steps| && steps[m].Spawn? ==> steps[m].db in dbs
  }

  /** In every run that passes only these sources, each caller gets a driver of its source's kind. */
  ghost predicate KindsKept(dbs: iset<Source>) {
    forall steps, i, db, d :: DrawnFrom(steps, dbs) && ReturnsAt(steps, i, db, d) ==> d.kind == db.kind
  }

  /** Sources with one id and one URI have one kind. */
  ghost predicate KindDetermined(dbs: iset<Source>) {
    forall a, b :: a in dbs && b in dbs && a.id == b.id && a.uri == b.uri && a.uri.Some? ==> a.kind == b.kind
  }

  /** A cached driver has the kind of every source it can be handed to. */
  ghost predicate EntryKind(conns: Conns, dbs: iset<Source>, db: Source) {
    db in dbs && db.id in conns && db.uri == Some(conns[db.id].uri) ==> conns[db.id].driver.kind == db.kind
  }

  ghost predicate TaskKind(pc: Pc, dbs: iset<Source>) {
    pc.db in dbs && (pc.Connected? ==> pc.driver.kind == pc.db.kind)
  }

  ghost predicate KindsAgree(s: State, dbs: iset<Source>) {
    && (forall db :: EntryKind(s.conns, dbs, db))
    && (forall t :: t in s.tasks ==> TaskKind(s.tasks[t], dbs))
  }

  lemma StepKeepsKinds(s: State, step: Step, dbs: iset<Source>)
    requires Inv(s) && Next(s, step).Some? && KindsAgree(s, dbs) && KindDetermined(dbs)
    requires step.Spawn? ==> step.db in dbs
    ensures KindsAgree(Next(s, step).value, dbs)
  {
    var s' := Next(s, step).value;
    if !step.Spawn? && !step.Evict? {
      assert TaskMatches(s, s.tasks[step.t]) && TaskKind(s.tasks[step.t], dbs);
      assert TaskKind(s'.tasks[step.t], dbs);
    }
    forall db ensures EntryKind(s'.conns, dbs, db) {
      assert EntryKind(s.conns, dbs, db);
    }
  }

  lemma {:induction false} DeterminedKindsAgree(steps: seq<Step>, i: nat, dbs: iset<Source>)
    requires i <= |steps| && After(steps, i).Some? && DrawnFrom(steps, dbs) && KindDetermined(dbs)
    ensures KindsAgree(After(steps, i).value, dbs)
  {
    if i > 0 {
      DeterminedKindsAgree(steps, i - 1, dbs);
      RunKeepsInv(steps, i - 1);
      StepKeepsKinds(After(steps, i - 1).value, steps[i - 1], dbs);
    }
  }

  lemma DeterminedGetTheirKind(steps: seq<Step>, i: nat, db: Source, d: Driver, dbs: iset<Source>)
    requires DrawnFrom(steps, dbs) && KindDetermined(dbs) && ReturnsAt(steps, i, db, d)
    ensures d.kind == db.kind
  {
    DeterminedKindsAgree(steps, i + 1, dbs);
    CallersGetTheirUri(steps, i, db, d);
    var s := After(steps, i + 1).value;
    assert TaskKind(s.tasks[steps[i].t], dbs);
    assert EntryKind(s.conns, dbs, db);
  }

  /** A call for `a`, and after it one for `b`. */
  function TwoCalls(a: Source, b: Source): seq<Step> {
    [Spawn(0, a), FastPath(0), ConnectSucceeds(0, 0), Finish(0), Spawn(1, b), FastPath(1)]
  }

  /** The call for `a` connects and caches a driver. */
  lemma FirstCall(a: Source, b: Source, uri: string)
    requires a.uri == Some(uri)
    ensures After(TwoCalls(a, b), 4).Some?
    ensures var s := After(TwoCalls(a, b), 4).value;
            1 !in s.tasks && Lookup(s.conns, a.id, uri) == Some(Driver(0, a.kind, uri))
  {
    var steps := TwoCalls(a, b);
    var s1 := At(INITIAL, 0, Begins(a));
    var s2 := At(s1, 0, Connects(a, uri));
    assert After(steps, 1) == Some(s1);
    assert After(steps, 2) == Some(s2);
    assert After(steps, 3) == Next(s2, ConnectSucceeds(0, 0));
    assert After(steps, 4) == Next(After(steps, 3).value, Finish(0));
  }

  /** With the same id and URI, the call for `b` gets the driver that was connected for `a`. */
  lemma SecondCall(a: Source, b: Source, uri: string)
    requires a.id == b.id && a.uri == b.uri == Some(uri)
    ensures ReturnsAt(TwoCalls(a, b), 5, b, Driver(0, a.kind, uri))
  {
    var steps := TwoCalls(a, b);
    FirstCall(a, b, uri);
    var s := After(steps, 4).value;
    assert After(steps, 5) == Some(At(s, 1, Begins(b)));
    assert After(steps, 6) == Some(At(At(s, 1, Begins(b)), 1, Returned(b, Driver(0, a.kind, uri))));
  }

  /**
   The cache is looked up by id and URI alone. So callers of this public function
   always get drivers of their kind exactly when no two sources they pass have the
   same id and URI and different kinds. The server passes no such two: it gives
   each source one kind for good.
   */
  lemma KindsKeptIffDetermined(dbs: iset<Source>)
    ensures KindsKept(dbs) <==> KindDetermined(dbs)
  {
    if KindDetermined(dbs) {
      forall steps, i, db, d | DrawnFrom(steps, dbs) && ReturnsAt(steps, i, db, d) ensures d.kind == db.kind {
        DeterminedGetTheirKind(steps, i, db, d, dbs);
      }
    } else {
      var a, b :| a in dbs && b in dbs && a.id == b.id && a.uri == b.uri && a.uri.Some? && a.kind != b.kind;
      SecondCall(a, b, a.uri.value);
      assert DrawnFrom(TwoCalls(a, b), dbs);
    }
  }
}
