/** The store under concurrency. Every await point of a store operation is a program counter; one
    step of a task is what runs between two of them. Tasks are interleaved arbitrarily, disk actions
    may fail, a server may drop a handler whose client has gone, and the process may crash and reopen
    its directory at any moment. A step that would have to wait for a lock leaves the state alone, so
    any list of actions is a run. */
module StoreSteps {
  import opened Text
  import opened Hashes
  import opened Denylist
  import opened Totals
  import opened Disks

  /** Who asks: the gateway's GET and HEAD, a peer's Get and Have. */
  datatype Query = GatewayGet | GatewayHead | PeerGet | PeerHave

  datatype Reply = Refused | Missing | Corrupt | Length(len: nat) | Body(bytes: Bytes)

  // Program counters: one constructor per await point, plus the outcomes.

  datatype PutPc =
    | PutCheck | PutBudget | PutHeld(cur: nat) | PutCreate | PutWrite | PutRename | PutInsert
    | PutTotal(prev: nat) | PutDone(ok: bool)

  datatype IngestPc = IngestCheck | IngestHas | IngestFetch | IngestSkip

  /** deny and allow: the rewrite of the denylist under its write lock. */
  datatype ListPc =
    | ListStart | ListCreate(body: string) | ListWrite(body: string) | ListRename | ListRelease | ListFailed
    | Allowed(removed: bool)

  /** The purge that follows a deny. */
  datatype PurgePc = PurgeRemove | PurgeIndex | PurgeTotal(len: nat) | PurgeDone(purged: bool)

  datatype ServePc = ServeCheck | ServeHas | ServeLen | ServeRead | Served(reply: Reply)

  /** A disk call on the blocking pool that outlives the handler that was waiting for it. */
  datatype Job = CreateList(body: string) | FillList(body: string) | RenameList | RemoveBlob(h: string) | Finished

  /** `h` is the normalised hash a task works on, `b` the bytes to store. */
  datatype Task =
    | Put(h: string, b: Bytes, put: PutPc)
    | Ingest(h: string, ingest: IngestPc)
    | Relist(h: string, adding: bool, list: ListPc)
    | Purge(h: string, purge: PurgePc)
    | Serve(h: string, query: Query, serve: ServePc)
    | Detached(job: Job)

  datatype State = State(
    disk: Disk,
    index: map<string, nat>,
    total: nat,
    denied: set<string>,
    indexLock: Option<nat>,
    deniedLock: Option<nat>,
    max: nat,
    tasks: map<nat, Task>,
    nextId: nat)

  /** How the environment resolves one step: whether the disk action works, what an unfinished
      write leaves behind, the order a set is enumerated in, what a fetch returned. */
  datatype Choice = Choice(ok: bool, junk: Bytes, text: string, order: seq<string>, fetched: Option<Bytes>)

  datatype Action =
    | SpawnPut(raw: string, bytes: Bytes)
    | SpawnIngest(raw: string)
    | SpawnDeny(raw: string)
    | SpawnAllow(raw: string)
    | SpawnServe(raw: string, query: Query)
    | Run(task: nat, choice: Choice)
    | Drop(task: nat)
    | CrashAndOpen(readable: bool, unsized: set<string>, stuck: set<string>)

  function Goto(s: State, t: nat, task: Task): State {
    s.(tasks := s.tasks[t := task])
  }

  function Spawn(s: State, task: Task): State {
    s.(tasks := s.tasks[s.nextId := task], nextId := s.nextId + 1)
  }

  ghost function Reopened(s: State, readable: bool, unsized: set<string>, stuck: set<string>): State {
    var denied := LoadedDenylist(s.disk, readable);
    var index := OpenedIndex(s.disk, denied, unsized);
    s.(disk := s.disk.(bins := OpenedBins(s.disk, denied, stuck)),
       index := index, total := Wrap(Sum(index)), denied := denied,
       indexLock := None, deniedLock := None, tasks := map[])
  }

  function PutStep(s: State, t: nat, h: string, b: Bytes, pc: PutPc, c: Choice): State {
    match pc
    case PutCheck =>
      if s.deniedLock.Some? then s
      else if h in s.denied then Goto(s, t, Put(h, b, PutDone(false)))
      else Goto(s, t, Put(h, b, if s.max > 0 then PutBudget else PutCreate))
    case PutBudget =>
      Goto(s, t, Put(h, b, PutHeld(s.total)))
    case PutHeld(cur) =>
      if s.indexLock.Some? then s
      else
        var already := if h in s.index then s.index[h] else 0;
        Goto(s, t, Put(h, b, if already == 0 && SatAdd(cur, |b|) > s.max then PutDone(false) else PutCreate))
    case PutCreate =>
      if c.ok then Goto(s, t, Put(h, b, PutWrite)).(disk := s.disk.(tmps := s.disk.tmps[h := c.junk]))
      else Goto(s, t, Put(h, b, PutDone(false)))
    case PutWrite =>
      Goto(s, t, Put(h, b, if c.ok then PutRename else PutDone(false)))
        .(disk := s.disk.(tmps := s.disk.tmps[h := if c.ok then b else c.junk]))
    case PutRename =>
      if c.ok && h in s.disk.tmps then
        Goto(s, t, Put(h, b, PutInsert))
          .(disk := s.disk.(bins := s.disk.bins[h := s.disk.tmps[h]], tmps := s.disk.tmps - {h}))
      else Goto(s, t, Put(h, b, PutDone(false)))
    case PutInsert =>
      if s.indexLock.Some? then s
      else
        Goto(s, t, Put(h, b, PutTotal(if h in s.index then s.index[h] else 0)))
          .(index := s.index[h := |b|], indexLock := Some(t))
    case PutTotal(prev) =>
      Goto(s, t, Put(h, b, PutDone(true))).(total := SatAdd(SatSub(s.total, prev), |b|), indexLock := None)
    case PutDone(_) => s
  }

  /** The ingest loop around put: skip what is denied or held, fetch the rest. `acquire` and the
      peers hand back verified bytes or nothing. */
  function IngestStep(s: State, t: nat, h: string, pc: IngestPc, c: Choice): State {
    match pc
    case IngestCheck =>
      if s.deniedLock.Some? then s
      else Goto(s, t, Ingest(h, if h in s.denied then IngestSkip else IngestHas))
    case IngestHas =>
      if s.indexLock.Some? then s
      else Goto(s, t, Ingest(h, if h in s.index then IngestSkip else IngestFetch))
    case IngestFetch =>
      Goto(s, t, if c.fetched.Some? && Sha256Hex(c.fetched.value) == h then Put(h, c.fetched.value, PutCheck)
                 else Ingest(h, IngestSkip))
    case IngestSkip => s
  }

  /** Undo the change to the in-memory set after an I/O error, and let go of the lock. */
  function RollBack(s: State, t: nat, h: string, adding: bool): State {
    Goto(s, t, Relist(h, adding, ListFailed))
      .(denied := if adding then s.denied - {h} else s.denied + {h}, deniedLock := None)
  }

  ghost function ListStep(s: State, t: nat, h: string, adding: bool, pc: ListPc, c: Choice): State {
    match pc
    case ListStart =>
      if s.deniedLock.Some? then s
      else if adding == (h in s.denied) then
        Goto(s, t, if adding then Purge(h, PurgeRemove) else Relist(h, adding, Allowed(false)))
      else
        var denied := if adding then s.denied + {h} else s.denied - {h};
        if !Enumerates(c.order, denied) then s
        else Goto(s, t, Relist(h, adding, ListCreate(PrintLines(c.order)))).(denied := denied, deniedLock := Some(t))
    case ListCreate(body) =>
      if c.ok then Goto(s, t, Relist(h, adding, ListWrite(body))).(disk := s.disk.(denyTmp := Some(c.text)))
      else RollBack(s, t, h, adding)
    case ListWrite(body) =>
      if c.ok then Goto(s, t, Relist(h, adding, ListRename)).(disk := s.disk.(denyTmp := Some(body)))
      else RollBack(s, t, h, adding).(disk := s.disk.(denyTmp := Some(c.text)))
    case ListRename =>
      if c.ok && s.disk.denyTmp.Some? then
        Goto(s, t, Relist(h, adding, ListRelease)).(disk := s.disk.(denyFile := s.disk.denyTmp, denyTmp := None))
      else RollBack(s, t, h, adding)
    case ListRelease =>
      Goto(s, t, if adding then Purge(h, PurgeRemove) else Relist(h, adding, Allowed(true)))
        .(deniedLock := None)
    case _ => s
  }

  function PurgeStep(s: State, t: nat, h: string, pc: PurgePc, c: Choice): State {
    match pc
    case PurgeRemove =>
      Goto(s, t, Purge(h, PurgeIndex)).(disk := if c.ok then s.disk.(bins := s.disk.bins - {h}) else s.disk)
    case PurgeIndex =>
      if s.indexLock.Some? then s
      else if h !in s.index then Goto(s, t, Purge(h, PurgeDone(false)))
      else Goto(s, t, Purge(h, PurgeTotal(s.index[h]))).(index := s.index - {h}, indexLock := Some(t))
    case PurgeTotal(len) =>
      Goto(s, t, Purge(h, PurgeDone(true))).(total := SatSub(s.total, len), indexLock := None)
    case PurgeDone(_) => s
  }

  function ServeStep(s: State, t: nat, h: string, query: Query, pc: ServePc, c: Choice): State {
    match pc
    case ServeCheck =>
      if s.deniedLock.Some? then s
      else Goto(s, t, Serve(h, query, if h in s.denied then Served(Refused) else ServeHas))
    case ServeHas =>
      if s.indexLock.Some? then s
      else
        Goto(s, t, Serve(h, query,
                         if h !in s.index then Served(Missing)
                         else if query == GatewayHead then Served(Length(s.index[h]))
                         else if query == PeerHave then ServeLen
                         else if IsValidHash(h) then ServeRead
                         else Served(Missing)))
    case ServeLen =>
      if s.indexLock.Some? then s
      else Goto(s, t, Serve(h, query, Served(Length(if h in s.index then s.index[h] else 0))))
    case ServeRead =>
      Goto(s, t, Serve(h, query,
                       if !c.ok || h !in s.disk.bins then Served(Missing)
                       else if query == GatewayGet && Sha256Hex(s.disk.bins[h]) != h then Served(Corrupt)
                       else Served(Body(s.disk.bins[h]))))
    case Served(_) => s
  }

  function JobStep(s: State, t: nat, job: Job, c: Choice): State {
    match job
    case CreateList(body) =>
      if c.ok then Goto(s, t, Detached(FillList(body))).(disk := s.disk.(denyTmp := Some(c.text)))
      else Goto(s, t, Detached(Finished))
    case FillList(body) =>
      Goto(s, t, Detached(Finished)).(disk := s.disk.(denyTmp := Some(if c.ok then body else c.text)))
    case RenameList =>
      Goto(s, t, Detached(Finished))
        .(disk := if c.ok && s.disk.denyTmp.Some? then s.disk.(denyFile := s.disk.denyTmp, denyTmp := None) else s.disk)
    case RemoveBlob(h) =>
      Goto(s, t, Detached(Finished)).(disk := if c.ok then s.disk.(bins := s.disk.bins - {h}) else s.disk)
    case Finished => s
  }

  ghost function Step(s: State, t: nat, c: Choice): State
    requires t in s.tasks
  {
    match s.tasks[t]
    case Put(h, b, pc) => PutStep(s, t, h, b, pc, c)
    case Ingest(h, pc) => IngestStep(s, t, h, pc, c)
    case Relist(h, adding, pc) => ListStep(s, t, h, adding, pc, c)
    case Purge(h, pc) => PurgeStep(s, t, h, pc, c)
    case Serve(h, query, pc) => ServeStep(s, t, h, query, pc, c)
    case Detached(job) => JobStep(s, t, job, c)
  }

  /** The HTTP handlers, which the server drops when their client goes away. Ingest and the serving of
      peers run in tasks of their own. */
  predicate Droppable(task: Task) {
    task.Relist? || task.Purge? || (task.Serve? && FromGateway(task.query) && !task.serve.Served?)
  }

  /** The disk call a handler is waiting for; dropping the handler does not stop it. */
  function InFlight(task: Task): Option<Job> {
    match task
    case Relist(_, _, ListCreate(body)) => Some(CreateList(body))
    case Relist(_, _, ListWrite(body)) => Some(FillList(body))
    case Relist(_, _, ListRename) => Some(RenameList)
    case Purge(h, PurgeRemove) => Some(RemoveBlob(h))
    case _ => None
  }

  /** The handler is gone: its locks are free, nothing is rolled back, its disk call goes on. */
  function Dropped(s: State, t: nat): State
    requires t in s.tasks
  {
    var task := s.tasks[t];
    s.(tasks := if InFlight(task).Some? then s.tasks[t := Detached(InFlight(task).value)] else s.tasks - {t},
       indexLock := if HoldsIndex(task) then None else s.indexLock,
       deniedLock := if HoldsDenied(task) then None else s.deniedLock)
  }

  /** The key a query is answered for: the caller normalises, and so does each store lookup. */
  function QueryKey(raw: string): string {
    Norm(Norm(raw))
  }

  predicate FromGateway(q: Query) {
    q == GatewayGet || q == GatewayHead
  }

  ghost function Next(s: State, a: Action): State {
    match a
    case SpawnPut(raw, bytes) => if IsValidHash(Norm(raw)) then Spawn(s, Put(Norm(raw), bytes, PutCheck)) else s
    case SpawnIngest(raw) => if IsValidHash(Norm(raw)) then Spawn(s, Ingest(Norm(raw), IngestCheck)) else s
    case SpawnDeny(raw) => if IsValidHash(Norm(raw)) then Spawn(s, Relist(Norm(raw), true, ListStart)) else s
    case SpawnAllow(raw) => Spawn(s, Relist(Norm(raw), false, ListStart))
    case SpawnServe(raw, query) =>
      if FromGateway(query) && !IsValidHash(Norm(raw)) then s else Spawn(s, Serve(QueryKey(raw), query, ServeCheck))
    case Run(t, c) => if t in s.tasks then Step(s, t, c) else s
    case Drop(t) => if t in s.tasks && Droppable(s.tasks[t]) then Dropped(s, t) else s
    case CrashAndOpen(readable, unsized, stuck) => Reopened(s, readable, unsized, stuck)
  }

  ghost function Exec(s: State, actions: seq<Action>): State
    decreases |actions|
  {
    if actions == [] then s else Exec(Next(s, actions[0]), actions[1..])
  }

  /** A store just opened on a directory: nobody holds a lock and no task has started. */
  ghost predicate JustOpened(s: State, readable: bool) {
    && s.tasks == map[] && s.indexLock.None? && s.deniedLock.None?
    && s.denied == LoadedDenylist(s.disk, readable)
    && s.total == Sum(s.index) <= U64_MAX
  }

  // ---- who holds which lock

  predicate HoldsIndex(task: Task) {
    (task.Put? && task.put.PutTotal?) || (task.Purge? && task.purge.PurgeTotal?)
  }

  predicate HoldsDenied(task: Task) {
    task.Relist? && (task.list.ListCreate? || task.list.ListWrite? || task.list.ListRename? || task.list.ListRelease?)
  }

  ghost predicate LocksMatch(s: State) {
    && (forall t :: t in s.tasks ==> t < s.nextId)
    && (forall t :: t in s.tasks && HoldsIndex(s.tasks[t]) ==> s.indexLock == Some(t))
    && (forall t :: t in s.tasks && HoldsDenied(s.tasks[t]) ==> s.deniedLock == Some(t))
    && (s.indexLock.Some? ==> s.indexLock.value in s.tasks && HoldsIndex(s.tasks[s.indexLock.value]))
    && (s.deniedLock.Some? ==> s.deniedLock.value in s.tasks && HoldsDenied(s.tasks[s.deniedLock.value]))
  }

  ghost predicate SameList(s: State, s': State) {
    s'.denied == s.denied && s'.disk.denyFile == s.disk.denyFile && s'.disk.denyTmp == s.disk.denyTmp
  }

  ghost predicate SameIndex(s: State, s': State) {
    s'.index == s.index && s'.total == s.total && s'.indexLock == s.indexLock
  }

  predicate OwnsItsLocks(s: State, t: nat)
    requires t in s.tasks
  {
    && (HoldsIndex(s.tasks[t]) ==> s.indexLock == Some(t))
    && (HoldsDenied(s.tasks[t]) ==> s.deniedLock == Some(t))
  }

  /** What a step does to the task table and the locks: one task moves, and it takes a lock only
      when the lock is free. */
  ghost predicate Moves(s: State, t: nat, s': State)
    requires t in s.tasks
  {
    && t in s'.tasks && s'.tasks == s.tasks[t := s'.tasks[t]] && s'.nextId == s.nextId && s'.max == s.max
    && (var before, after := HoldsIndex(s.tasks[t]), HoldsIndex(s'.tasks[t]);
        && (after && !before ==> s.indexLock.None?)
        && s'.indexLock == if after then Some(t) else if before then None else s.indexLock)
    && (var before, after := HoldsDenied(s.tasks[t]), HoldsDenied(s'.tasks[t]);
        && (after && !before ==> s.deniedLock.None?)
        && s'.deniedLock == if after then Some(t) else if before then None else s.deniedLock)
  }

  // Each kind of task has its own part of the state to change.

  lemma PutMoves(s: State, t: nat, c: Choice)
    requires t in s.tasks && OwnsItsLocks(s, t) && s.tasks[t].Put?
    ensures Moves(s, t, Step(s, t, c))
    ensures Step(s, t, c).tasks[t].Put? && Step(s, t, c).tasks[t].h == s.tasks[t].h
    ensures !s.tasks[t].put.PutRename? ==> Step(s, t, c).disk.bins == s.disk.bins
    ensures SameList(s, Step(s, t, c))
    ensures !s.tasks[t].put.PutInsert? && !s.tasks[t].put.PutTotal? ==> SameIndex(s, Step(s, t, c))
  {
    hide ListStep, PurgeStep, IngestStep, ServeStep, JobStep;
    assert s.tasks[t := s.tasks[t]] == s.tasks;
    match s.tasks[t].put
    case PutCheck =>
    case PutBudget =>
    case PutHeld(_) =>
    case PutCreate =>
    case PutWrite =>
    case PutRename =>
    case PutInsert =>
    case PutTotal(_) =>
    case PutDone(_) =>
  }

  lemma ListMoves(s: State, t: nat, c: Choice)
    requires t in s.tasks && OwnsItsLocks(s, t) && s.tasks[t].Relist?
    ensures Moves(s, t, Step(s, t, c))
    ensures var task := Step(s, t, c).tasks[t];
            task.h == s.tasks[t].h && (task.Purge? || (task.Relist? && task.adding == s.tasks[t].adding))
    ensures SameIndex(s, Step(s, t, c))
    ensures Step(s, t, c).disk.bins == s.disk.bins && Step(s, t, c).disk.tmps == s.disk.tmps
  {
    hide PutStep, PurgeStep, IngestStep, ServeStep, JobStep;
    assert s.tasks[t := s.tasks[t]] == s.tasks;
    match s.tasks[t].list
    case ListStart =>
    case ListCreate(_) =>
    case ListWrite(_) =>
    case ListRename =>
    case ListRelease =>
    case ListFailed =>
    case Allowed(_) =>
  }

  lemma PurgeMoves(s: State, t: nat, c: Choice)
    requires t in s.tasks && OwnsItsLocks(s, t) && s.tasks[t].Purge?
    ensures Moves(s, t, Step(s, t, c))
    ensures Step(s, t, c).tasks[t].Purge?
    ensures Step(s, t, c).index in {s.index, s.index - {s.tasks[t].h}}
    ensures Step(s, t, c).disk.bins in {s.disk.bins, s.disk.bins - {s.tasks[t].h}}
    ensures SameList(s, Step(s, t, c)) && Step(s, t, c).disk.tmps == s.disk.tmps
    ensures !s.tasks[t].purge.PurgeIndex? && !s.tasks[t].purge.PurgeTotal? ==> SameIndex(s, Step(s, t, c))
  {
    hide PutStep, ListStep, IngestStep, ServeStep, JobStep;
    assert s.tasks[t := s.tasks[t]] == s.tasks;
  }

  /** A call that touches the denylist or its temporary. */
  predicate ListJob(task: Task) {
    task.Detached? && (task.job.CreateList? || task.job.FillList? || task.job.RenameList?)
  }

  lemma JobMoves(s: State, t: nat, c: Choice)
    requires t in s.tasks && OwnsItsLocks(s, t) && s.tasks[t].Detached?
    ensures Moves(s, t, Step(s, t, c))
    ensures Step(s, t, c).tasks[t].Detached?
    ensures !ListJob(s.tasks[t]) ==> !ListJob(Step(s, t, c).tasks[t]) && SameList(s, Step(s, t, c))
    ensures SameIndex(s, Step(s, t, c)) && Step(s, t, c).denied == s.denied && Step(s, t, c).disk.tmps == s.disk.tmps
    ensures Step(s, t, c).disk.bins == s.disk.bins
            || (s.tasks[t].job.RemoveBlob? && Step(s, t, c).disk.bins == s.disk.bins - {s.tasks[t].job.h})
  {
    hide PutStep, ListStep, PurgeStep, IngestStep, ServeStep;
    assert s.tasks[t := s.tasks[t]] == s.tasks;
    match s.tasks[t].job
    case CreateList(_) =>
    case FillList(_) =>
    case RenameList =>
    case RemoveBlob(_) =>
    case Finished =>
  }

  lemma IngestMoves(s: State, t: nat, c: Choice)
    requires t in s.tasks && OwnsItsLocks(s, t) && s.tasks[t].Ingest?
    ensures OnlyItsTask(s, t, Step(s, t, c))
  {
    hide PutStep, ListStep, PurgeStep, ServeStep, JobStep, Sha256Hex;
    assert s.tasks[t := s.tasks[t]] == s.tasks;
  }

  lemma ServeMoves(s: State, t: nat, c: Choice)
    requires t in s.tasks && OwnsItsLocks(s, t) && s.tasks[t].Serve?
    ensures OnlyItsTask(s, t, Step(s, t, c))
  {
    hide PutStep, ListStep, PurgeStep, IngestStep, JobStep, Sha256Hex, IsValidHash;
    assert s.tasks[t := s.tasks[t]] == s.tasks;
  }

  /** Ingest checks and serving change nothing but their own program counter. */
  ghost predicate OnlyItsTask(s: State, t: nat, s': State)
    requires t in s.tasks
  {
    && t in s'.tasks && s' == Goto(s, t, s'.tasks[t])
    && !s'.tasks[t].Relist? && !s'.tasks[t].Detached? && !s'.tasks[t].Purge? && (s'.tasks[t].Put? ==> s'.tasks[t].put.PutCheck?)
  }

  lemma ReaderMoves(s: State, t: nat, c: Choice)
    requires t in s.tasks && OwnsItsLocks(s, t) && (s.tasks[t].Ingest? || s.tasks[t].Serve?)
    ensures Moves(s, t, Step(s, t, c)) && OnlyItsTask(s, t, Step(s, t, c))
  {
    hide PutStep, ListStep, PurgeStep, IngestStep, ServeStep, JobStep;
    if s.tasks[t].Ingest? {
      IngestMoves(s, t, c);
    } else {
      ServeMoves(s, t, c);
    }
  }

  lemma StepMoves(s: State, t: nat, c: Choice)
    requires t in s.tasks && OwnsItsLocks(s, t)
    ensures Moves(s, t, Step(s, t, c))
  {
    hide PutStep, ListStep, PurgeStep, IngestStep, ServeStep, JobStep;
    match s.tasks[t]
    case Put(_, _, _) => PutMoves(s, t, c);
    case Relist(_, _, _) => ListMoves(s, t, c);
    case Purge(_, _) => PurgeMoves(s, t, c);
    case Detached(_) => JobMoves(s, t, c);
    case _ => ReaderMoves(s, t, c);
  }

  /** Mutual exclusion: a lock is held by exactly the task whose program counter says so. */
  lemma LocksMatchStep(s: State, a: Action)
    requires LocksMatch(s)
    ensures LocksMatch(Next(s, a))
  {
    hide Step;
    if a.Run? && a.task in s.tasks {
      StepMoves(s, a.task, a.choice);
    } else if a.Drop? && a.task in s.tasks {
      LocksMatchDrop(s, a.task);
      hide Dropped;
    }
  }

  lemma LocksMatchDrop(s: State, t: nat)
    requires LocksMatch(s) && t in s.tasks
    ensures LocksMatch(Dropped(s, t))
  {
    assert HoldsIndex(s.tasks[t]) ==> s.indexLock == Some(t);
    assert HoldsDenied(s.tasks[t]) ==> s.deniedLock == Some(t);
  }

  lemma {:induction false} ExecAppend(s: State, xs: seq<Action>, ys: seq<Action>)
    ensures Exec(s, xs + ys) == Exec(Exec(s, xs), ys)
    decreases |xs|
  {
    if xs == [] {
      assert [] + ys == ys;
    } else {
      assert (xs + ys)[1..] == xs[1..] + ys;
      ExecAppend(Next(s, xs[0]), xs[1..], ys);
    }
  }

  lemma ExecFive(s: State, a: Action, b: Action, c: Action, d: Action, e: Action)
    ensures Exec(s, [a, b, c, d, e]) == Next(Next(Next(Next(Next(s, a), b), c), d), e)
  {
    hide Next;
    assert [a, b, c, d, e] == [a] + [b] + [c] + [d] + [e];
    ExecAppend(s, [a] + [b] + [c] + [d], [e]);
    ExecAppend(s, [a] + [b] + [c], [d]);
    ExecAppend(s, [a] + [b], [c]);
    ExecAppend(s, [a], [b]);
  }
}
