/** What holds because one ingest task is the only writer: the byte budget and the certification of
    what is on disk. Deny, allow and serving run beside it in any number. */
module SingleWriter {
  import opened Text
  import opened Hashes
  import opened Totals
  import opened Operations
  import opened StoreSteps
  import opened Alone

  /** A task that may still add to the store. */
  predicate Writing(task: Task) {
    (task.Ingest? && !task.ingest.IngestSkip?) || (task.Put? && !task.put.PutDone?)
  }

  ghost predicate NobodyWriting(s: State) {
    forall t :: t in s.tasks ==> !Writing(s.tasks[t])
  }

  /** Puts come from ingest tasks only, and a new one starts when the previous one has ended. */
  ghost predicate OneWriter(s: State, actions: seq<Action>)
    decreases |actions|
  {
    actions == [] ||
    (&& !actions[0].SpawnPut?
     && (actions[0].SpawnIngest? ==> NobodyWriting(s))
     && OneWriter(Next(s, actions[0]), actions[1..]))
  }

  /** All locks are free and nothing runs: the state right after any open. */
  ghost predicate Idle(s: State) {
    s.tasks == map[] && s.indexLock.None? && s.deniedLock.None?
  }

  ghost predicate AtMostOneWriter(s: State) {
    forall t, u :: t in s.tasks && u in s.tasks && Writing(s.tasks[t]) && Writing(s.tasks[u]) ==> t == u
  }

  // ---- the byte budget

  /** What the writer knows about the budget, by program counter. */
  predicate BudgetKnown(s: State, task: Task) {
    match task
    case Put(h, b, pc) =>
      (match pc
       case PutCheck => h !in s.index
       case PutBudget => h !in s.index
       case PutHeld(cur) => h !in s.index && s.total <= cur
       case PutTotal(prev) => prev == 0 && SatAdd(s.total, |b|) <= s.max
       case PutDone(_) => true
       case _ => h !in s.index && SatAdd(s.total, |b|) <= s.max)
    case Ingest(h, IngestFetch) => h !in s.index
    case _ => true
  }

  ghost predicate WithinBudget(s: State, bound: nat) {
    && 0 < s.max <= bound && s.total <= bound
    && AtMostOneWriter(s)
    && forall t :: t in s.tasks ==> BudgetKnown(s, s.tasks[t])
  }

  /** A put keeps what its writer knows, and the bound. */
  ghost predicate PaysIn(s: State, t: nat, s': State, bound: nat)
    requires t in s.tasks
  {
    && t in s'.tasks && s'.total <= bound && BudgetKnown(s', s'.tasks[t])
    && (Writing(s'.tasks[t]) ==> Writing(s.tasks[t]))
    && (!Writing(s.tasks[t]) ==> s' == s)
  }

  lemma TotalKeepsBudget(s: State, t: nat, c: Choice, bound: nat)
    requires t in s.tasks && BudgetKnown(s, s.tasks[t]) && 0 < s.max <= bound && s.total <= bound
    requires s.tasks[t].Put? && s.tasks[t].put.PutTotal?
    ensures PaysIn(s, t, Step(s, t, c), bound)
  {
    hide ListStep, PurgeStep, IngestStep, ServeStep, JobStep;
  }

  lemma PutKeepsBudget(s: State, t: nat, c: Choice, bound: nat)
    requires t in s.tasks && BudgetKnown(s, s.tasks[t]) && 0 < s.max <= bound && s.total <= bound
    requires s.tasks[t].Put?
    ensures PaysIn(s, t, Step(s, t, c), bound)
  {
    hide ListStep, PurgeStep, IngestStep, ServeStep, JobStep;
    assert s.tasks[t := s.tasks[t]] == s.tasks;
    match s.tasks[t].put
    case PutCheck =>
    case PutBudget =>
    case PutHeld(_) =>
    case PutCreate =>
    case PutWrite =>
    case PutRename =>
    case PutInsert =>
    case PutTotal(_) => TotalKeepsBudget(s, t, c, bound);
    case PutDone(_) =>
  }

  /** Everybody but the writer can only make room. */
  ghost predicate MakesRoom(s: State, t: nat, s': State)
    requires t in s.tasks
  {
    && t in s'.tasks && s'.total <= s.total && s'.index.Keys <= s.index.Keys
    && (Writing(s'.tasks[t]) ==> Writing(s.tasks[t]))
    && (BudgetKnown(s, s.tasks[t]) ==> BudgetKnown(s', s'.tasks[t]))
  }

  lemma PurgeMakesRoom(s: State, t: nat, c: Choice)
    requires t in s.tasks && OwnsItsLocks(s, t) && s.tasks[t].Purge?
    ensures MakesRoom(s, t, Step(s, t, c))
  {
    hide PutStep, ListStep, IngestStep, ServeStep, JobStep;
  }

  lemma ListMakesRoom(s: State, t: nat, c: Choice)
    requires t in s.tasks && OwnsItsLocks(s, t) && s.tasks[t].Relist?
    ensures MakesRoom(s, t, Step(s, t, c))
  {
    hide PutStep, ListStep, PurgeStep, IngestStep, ServeStep, JobStep;
    ListMoves(s, t, c);
  }

  lemma JobMakesRoom(s: State, t: nat, c: Choice)
    requires t in s.tasks && OwnsItsLocks(s, t) && s.tasks[t].Detached?
    ensures MakesRoom(s, t, Step(s, t, c))
  {
    hide PutStep, ListStep, PurgeStep, IngestStep, ServeStep, JobStep;
    JobMoves(s, t, c);
  }

  lemma IngestMakesRoom(s: State, t: nat, c: Choice)
    requires t in s.tasks && OwnsItsLocks(s, t) && s.tasks[t].Ingest?
    ensures MakesRoom(s, t, Step(s, t, c))
  {
    hide PutStep, ListStep, PurgeStep, ServeStep, JobStep, Sha256Hex;
  }

  lemma ServeMakesRoom(s: State, t: nat, c: Choice)
    requires t in s.tasks && OwnsItsLocks(s, t) && s.tasks[t].Serve?
    ensures MakesRoom(s, t, Step(s, t, c))
  {
    hide PutStep, ListStep, PurgeStep, IngestStep, JobStep, Sha256Hex, IsValidHash;
  }

  lemma RunKeepsBudget(s: State, t: nat, c: Choice, bound: nat)
    requires LocksMatch(s) && WithinBudget(s, bound) && t in s.tasks
    ensures WithinBudget(Step(s, t, c), bound)
  {
    hide PutStep, ListStep, PurgeStep, IngestStep, ServeStep, JobStep;
    StepMoves(s, t, c);
    match s.tasks[t]
    case Put(_, _, _) =>
      assert BudgetKnown(s, s.tasks[t]);
      PutKeepsBudget(s, t, c, bound);
    case Relist(_, _, _) => ListMakesRoom(s, t, c);
    case Purge(_, _) => PurgeMakesRoom(s, t, c);
    case Ingest(_, _) => IngestMakesRoom(s, t, c);
    case Serve(_, _, _) => ServeMakesRoom(s, t, c);
    case Detached(_) => JobMakesRoom(s, t, c);
  }

  lemma WithinBudgetStep(s: State, a: Action, bound: nat)
    requires LocksMatch(s) && WithinBudget(s, bound)
    requires !a.CrashAndOpen? && !a.SpawnPut? && (a.SpawnIngest? ==> NobodyWriting(s))
    ensures WithinBudget(Next(s, a), bound)
  {
    hide Step;
    match a
    case Run(t, c) =>
      if t in s.tasks {
        RunKeepsBudget(s, t, c, bound);
      }
    case _ =>
  }

  lemma {:induction false} WithinBudgetAlways(s: State, actions: seq<Action>, bound: nat)
    requires LocksMatch(s) && WithinBudget(s, bound) && OneWriter(s, actions)
    requires forall a :: a in actions ==> !a.CrashAndOpen?
    ensures WithinBudget(Exec(s, actions), bound)
    decreases |actions|
  {
    hide Next;
    if actions != [] {
      assert actions[0] in actions;
      LocksMatchStep(s, actions[0]);
      WithinBudgetStep(s, actions[0], bound);
      WithinBudgetAlways(Next(s, actions[0]), actions[1..], bound);
    }
  }

  /** The budget holds from one open to the next: with a single ingest task and any number of
      concurrent deny, allow and serve tasks, the total never exceeds the budget, or what was
      already there at open if that was more, although checking the budget and inserting into the
      index are separate steps, and whichever handlers are dropped. */
  lemma BudgetHolds(s0: State, actions: seq<Action>)
    requires Idle(s0) && 0 < s0.max
    requires OneWriter(s0, actions) && forall a :: a in actions ==> !a.CrashAndOpen?
    ensures Exec(s0, actions).total <= if s0.total <= s0.max then s0.max else s0.total
  {
    WithinBudgetAlways(s0, actions, if s0.total <= s0.max then s0.max else s0.total);
  }

  // ---- certification of the stored bytes

  /** Every blob under a canonical name hashes to its name, and so does what the writer holds. */
  ghost predicate Certified(s: State) {
    && AtMostOneWriter(s)
    && (forall h :: h in s.disk.bins && IsCanonical(h) ==> Sha256Hex(s.disk.bins[h]) == h)
    && (forall t :: t in s.tasks ==> TaskCertified(s, s.tasks[t]))
  }

  ghost predicate TaskCertified(s: State, task: Task) {
    match task
    case Put(h, b, pc) =>
      && (!pc.PutDone? ==> Sha256Hex(b) == h)
      && (pc.PutRename? ==> h in s.disk.tmps && s.disk.tmps[h] == b)
    case Serve(h, _, pc) =>
      && (IsValidHash(h) ==> IsCanonical(h))
      && (pc.ServeRead? ==> IsValidHash(h))
      && (pc.Served? && pc.reply.Body? ==> Sha256Hex(pc.reply.bytes) == h)
    case _ => true
  }

  /** A step that certifies its own task and whatever blob it puts in place. */
  ghost predicate CertifiesOwn(s: State, t: nat, s': State)
    requires t in s.tasks
  {
    && t in s'.tasks && TaskCertified(s', s'.tasks[t])
    && (Writing(s'.tasks[t]) ==> Writing(s.tasks[t]))
    && (s'.disk.tmps == s.disk.tmps || Writing(s.tasks[t]))
    && (s'.disk.bins == s.disk.bins
        || (s.tasks[t].Put? && exists b :: s'.disk.bins == s.disk.bins[s.tasks[t].h := b] && Sha256Hex(b) == s.tasks[t].h))
  }

  lemma PutCertifiesOwn(s: State, t: nat, c: Choice)
    requires t in s.tasks && OwnsItsLocks(s, t) && s.tasks[t].Put? && TaskCertified(s, s.tasks[t])
    ensures CertifiesOwn(s, t, Step(s, t, c))
  {
    hide ListStep, PurgeStep, IngestStep, ServeStep, JobStep, Sha256Hex, IsCanonical;
    match s.tasks[t].put
    case PutCheck =>
    case PutBudget =>
    case PutHeld(_) =>
    case PutCreate =>
    case PutWrite =>
    case PutRename =>
    case PutInsert =>
    case PutTotal(_) =>
    case PutDone(_) =>
  }

  lemma IngestCertifiesOwn(s: State, t: nat, c: Choice)
    requires t in s.tasks && OwnsItsLocks(s, t) && s.tasks[t].Ingest?
    ensures CertifiesOwn(s, t, Step(s, t, c))
  {
    hide PutStep, ListStep, PurgeStep, ServeStep, JobStep, Sha256Hex, IsCanonical;
  }

  lemma ServeCertifiesOwn(s: State, t: nat, c: Choice)
    requires t in s.tasks && OwnsItsLocks(s, t) && s.tasks[t].Serve? && TaskCertified(s, s.tasks[t])
    requires forall h :: h in s.disk.bins && IsCanonical(h) ==> Sha256Hex(s.disk.bins[h]) == h
    ensures CertifiesOwn(s, t, Step(s, t, c))
  {
    hide PutStep, ListStep, PurgeStep, IngestStep, JobStep, Sha256Hex, IsCanonical, IsValidHash;
    match s.tasks[t].serve
    case ServeCheck =>
    case ServeHas =>
    case ServeLen =>
    case ServeRead =>
    case Served(_) =>
  }

  lemma RunKeepsCertified(s: State, t: nat, c: Choice)
    requires LocksMatch(s) && Certified(s) && t in s.tasks
    ensures Certified(Step(s, t, c))
  {
    hide PutStep, ListStep, PurgeStep, IngestStep, ServeStep, JobStep, Sha256Hex, IsCanonical;
    StepMoves(s, t, c);
    assert TaskCertified(s, s.tasks[t]);
    match s.tasks[t]
    case Put(_, _, _) => PutCertifiesOwn(s, t, c);
    case Relist(_, _, _) => ListMoves(s, t, c);
    case Purge(_, _) => PurgeMoves(s, t, c);
    case Ingest(_, _) => IngestCertifiesOwn(s, t, c);
    case Serve(_, _, _) => ServeCertifiesOwn(s, t, c);
    case Detached(_) => JobMoves(s, t, c);
  }

  lemma CertifiedStep(s: State, a: Action)
    requires LocksMatch(s) && Certified(s)
    requires !a.SpawnPut? && (a.SpawnIngest? ==> NobodyWriting(s))
    ensures Certified(Next(s, a))
  {
    hide Step, Sha256Hex, Lower;
    match a
    case Run(t, c) =>
      if t in s.tasks {
        RunKeepsCertified(s, t, c);
      }
    case SpawnServe(raw, _) =>
      if IsValidHash(QueryKey(raw)) {
        ValidNormIsCanonical(Norm(raw));
      }
    case _ =>
  }

  /** Self-certification over whole runs, crashes and torn temporaries included: started on a
      directory of certified blobs, the single writer leaves only certified blobs, and every body a
      reader is answered with hashes to the key it asked for. Peers' Get rests on this alone; the
      gateway checks again. */
  lemma {:induction false} StoreStaysCertified(s: State, actions: seq<Action>)
    requires LocksMatch(s) && Certified(s) && OneWriter(s, actions)
    ensures Certified(Exec(s, actions))
    ensures forall u :: u in Exec(s, actions).tasks ==>
              match Exec(s, actions).tasks[u]
              case Serve(h, _, Served(Body(b))) => Sha256Hex(b) == h
              case _ => true
    decreases |actions|
  {
    hide Next;
    if actions != [] {
      LocksMatchStep(s, actions[0]);
      CertifiedStep(s, actions[0]);
      StoreStaysCertified(Next(s, actions[0]), actions[1..]);
    } else {
      assert forall u :: u in s.tasks ==> TaskCertified(s, s.tasks[u]);
    }
  }

  // ---- why one writer

  /** A disk that always works, and leaves `junk` in a file until it is written out. */
  function Working(junk: Bytes): Env {
    (task: Task) => Choice(true, junk, "", [], None)
  }

  /** Two puts have come in. */
  function Entered(s: State, g: string, a: Bytes, h: string, b: Bytes): State {
    Spawn(Spawn(s, Put(g, a, PutCheck)), Put(h, b, PutCheck))
  }

  lemma ReachesEntered(s: State, g: string, a: Bytes, h: string, b: Bytes)
    requires IsCanonical(g) && IsCanonical(h)
    ensures Reaches(s, Entered(s, g, a, h, b))
  {
    NormOfCanonical(g);
    NormOfCanonical(h);
    ReachesNext(s, SpawnPut(g, a));
    ReachesNext(Next(s, SpawnPut(g, a)), SpawnPut(h, b));
    hide IsCanonical, Norm, Reaches;
    ReachesTransitive(s, Next(s, SpawnPut(g, a)), Entered(s, g, a, h, b));
  }

  /** Both puts have passed their checks, neither has written yet. */
  lemma ReachesBothChecked(s: State, g: string, a: Bytes, h: string, b: Bytes)
    requires Idle(s) && IsCanonical(g) && IsCanonical(h) && g !in s.denied && h !in s.denied
    requires Admits(Snapshot(s), g, |a|) && Admits(Snapshot(s), h, |b|)
    ensures Reaches(s, Goto(Goto(Entered(s, g, a, h, b), s.nextId, Put(g, a, PutCreate)), s.nextId + 1, Put(h, b, PutCreate)))
  {
    hide Solo, Reaches, IsCanonical;
    var t, u, env := s.nextId, s.nextId + 1, Working([]);
    ReachesEntered(s, g, a, h, b);
    var s1 := Entered(s, g, a, h, b);
    PutDecides(s1, t, g, a, env);
    ReachesSolo(s1, t, env, CheckSteps(s1, g));
    var s2 := Goto(s1, t, Put(g, a, PutCreate));
    PutDecides(s2, u, h, b, env);
    ReachesSolo(s2, u, env, CheckSteps(s2, h));
    var s3 := Goto(s2, u, Put(h, b, PutCreate));
    ReachesTransitive(s, s1, s2);
    ReachesTransitive(s, s2, s3);
  }

  /** Two writers that check the budget against the same total overrun it together: from any idle
      store, with two blobs that fit the budget one by one but not both. */
  lemma TwoWritersOverrun(s: State, g: string, a: Bytes, h: string, b: Bytes)
    requires Idle(s) && IsCanonical(g) && IsCanonical(h) && g !in s.denied && h !in s.denied
    requires g != h && g !in s.index && h !in s.index
    requires s.total + |a| <= s.max && s.total + |b| <= s.max < s.total + |a| + |b| <= U64_MAX
    ensures exists s' :: Reaches(s, s') && s'.total == s.total + |a| + |b| && s'.max == s.max
  {
    hide Solo, Reaches, IsCanonical;
    var t, u, env := s.nextId, s.nextId + 1, Working([]);
    ReachesBothChecked(s, g, a, h, b);
    var s3 := Goto(Goto(Entered(s, g, a, h, b), t, Put(g, a, PutCreate)), u, Put(h, b, PutCreate));
    PutStores(s3, t, g, a, env);
    ReachesSolo(s3, t, env, 5);
    var s4 := Solo(s3, t, env, 5);
    PutStores(s4, u, h, b, env);
    ReachesSolo(s4, u, env, 5);
    ReachesTransitive(s, s3, s4);
    ReachesTransitive(s, s4, Solo(s4, u, env, 5));
  }

  /** Two writers of the same verified bytes: one truncates the shared temporary just before the
      other renames it, and whatever was in it by then is in place. */
  lemma TwoWritersTear(s: State, h: string, b: Bytes, junk: Bytes)
    requires Idle(s) && IsCanonical(h) && h !in s.denied && Admits(Snapshot(s), h, |b|)
    ensures exists s' :: Reaches(s, s') && h in s'.disk.bins && s'.disk.bins[h] == junk
  {
    hide Solo, Reaches, IsCanonical;
    var t, u, env := s.nextId, s.nextId + 1, Working(junk);
    ReachesBothChecked(s, h, b, h, b);
    var s3 := Goto(Goto(Entered(s, h, b, h, b), t, Put(h, b, PutCreate)), u, Put(h, b, PutCreate));
    PutWrites(s3, t, h, b, env);
    ReachesSolo(s3, t, env, 2);
    var s4 := Solo(s3, t, env, 2);
    CreateBlobRuns(s4, u, h, b, env);
    ReachesSolo(s4, u, env, 1);
    var s5 := Solo(s4, u, env, 1);
    PutSteps(s5, t, h, b, PutRename, env);
    ReachesSolo(s5, t, env, 1);
    ReachesTransitive(s, s3, s4);
    ReachesTransitive(s, s4, s5);
    ReachesTransitive(s, s5, Solo(s5, t, env, 1));
  }

  // ---- the gateway checks for itself

  ghost predicate GatewayBodiesVerified(s: State) {
    forall u :: u in s.tasks ==>
      match s.tasks[u]
      case Serve(h, GatewayGet, Served(Body(b))) => Sha256Hex(b) == h
      case _ => true
  }

  lemma GatewayVerifiesStep(s: State, a: Action)
    requires LocksMatch(s) && GatewayBodiesVerified(s)
    ensures GatewayBodiesVerified(Next(s, a))
  {
    hide PutStep, ListStep, PurgeStep, Sha256Hex, IsCanonical;
    if a.Run? && a.task in s.tasks {
      StepMoves(s, a.task, a.choice);
      match s.tasks[a.task]
      case Put(_, _, _) => PutMoves(s, a.task, a.choice);
      case Relist(_, _, _) => ListMoves(s, a.task, a.choice);
      case Purge(_, _) => PurgeMoves(s, a.task, a.choice);
      case Ingest(_, _) =>
      case Detached(_) => JobMoves(s, a.task, a.choice);
      case Serve(_, _, pc) =>
        match pc {
          case ServeRead =>
          case _ =>
        }
    }
  }

  /** Whatever is on disk, and however many writers put it there unverified, a body the gateway
      answers with hashes to the key it was asked for. */
  lemma {:induction false} GatewayNeverServesUnverified(s: State, actions: seq<Action>)
    requires LocksMatch(s) && GatewayBodiesVerified(s)
    ensures GatewayBodiesVerified(Exec(s, actions))
    decreases |actions|
  {
    hide Next, GatewayBodiesVerified;
    if actions != [] {
      LocksMatchStep(s, actions[0]);
      GatewayVerifiesStep(s, actions[0]);
      GatewayNeverServesUnverified(Next(s, actions[0]), actions[1..]);
    }
  }
}
