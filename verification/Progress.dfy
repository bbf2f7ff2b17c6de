/** Nobody is stuck: from every state with its locks in order, every task can be brought to its end by
    ordinary steps, without a crash and without dropping anyone. */
module Progress {
  import opened Text
  import opened Hashes
  import opened Denylist
  import opened StoreSteps
  import opened Alone

  predicate Ended(task: Task) {
    Returned(task) || (task.Detached? && task.job.Finished?)
  }

  /** How many steps of its own a task has left at most. */
  function StepsLeft(task: Task): nat {
    match task
    case Put(_, _, pc) =>
      (match pc
       case PutCheck => 8
       case PutBudget => 7
       case PutHeld(_) => 6
       case PutCreate => 5
       case PutWrite => 4
       case PutRename => 3
       case PutInsert => 2
       case PutTotal(_) => 1
       case PutDone(_) => 0)
    case Ingest(_, pc) =>
      (match pc
       case IngestCheck => 11
       case IngestHas => 10
       case IngestFetch => 9
       case IngestSkip => 0)
    case Relist(_, _, pc) =>
      (match pc
       case ListStart => 8
       case ListCreate(_) => 7
       case ListWrite(_) => 6
       case ListRename => 5
       case ListRelease => 4
       case ListFailed => 0
       case Allowed(_) => 0)
    case Purge(_, pc) =>
      (match pc
       case PurgeRemove => 3
       case PurgeIndex => 2
       case PurgeTotal(_) => 1
       case PurgeDone(_) => 0)
    case Serve(_, _, pc) =>
      (match pc
       case ServeCheck => 3
       case ServeHas => 2
       case ServeLen => 1
       case ServeRead => 1
       case Served(_) => 0)
    case Detached(job) =>
      if job.CreateList? then 2 else if job.Finished? then 0 else 1
  }

  /** No other task holds a lock. */
  predicate Unhindered(s: State, t: nat) {
    s.indexLock in {None, Some(t)} && s.deniedLock in {None, Some(t)}
  }

  /** An order for the list that this step writes out, if it does. */
  ghost predicate OrderGiven(s: State, t: nat, c: Choice)
    requires t in s.tasks
  {
    s.tasks[t].Relist? && s.tasks[t].list.ListStart? ==>
      Enumerates(c.order, if s.tasks[t].adding then s.denied + {s.tasks[t].h} else s.denied - {s.tasks[t].h})
  }

  /** The step takes its task forward. */
  ghost predicate Forward(s: State, t: nat, c: Choice)
    requires t in s.tasks
  {
    t in Step(s, t, c).tasks && StepsLeft(Step(s, t, c).tasks[t]) < StepsLeft(s.tasks[t])
  }

  lemma PutForward(s: State, t: nat, c: Choice)
    requires t in s.tasks && s.tasks[t].Put? && !Ended(s.tasks[t]) && Unhindered(s, t) && OwnsOnly(s, t)
    ensures Forward(s, t, c)
  {
    hide ListStep, PurgeStep, IngestStep, ServeStep, JobStep;
    match s.tasks[t].put
    case PutCheck =>
    case PutBudget =>
    case PutHeld(_) =>
    case PutCreate =>
    case PutWrite =>
    case PutRename =>
    case PutInsert =>
    case PutTotal(_) =>
    case PutDone(_) =>
  }

  /** A lock that is not free is held by this task, at a point where it holds it. */
  predicate OwnsOnly(s: State, t: nat)
    requires t in s.tasks
  {
    && (s.indexLock == Some(t) ==> HoldsIndex(s.tasks[t]))
    && (s.deniedLock == Some(t) ==> HoldsDenied(s.tasks[t]))
  }

  lemma ListForward(s: State, t: nat, c: Choice)
    requires t in s.tasks && s.tasks[t].Relist? && !Ended(s.tasks[t]) && Unhindered(s, t) && OwnsOnly(s, t)
    requires OrderGiven(s, t, c)
    ensures Forward(s, t, c)
  {
    hide PutStep, PurgeStep, IngestStep, ServeStep, JobStep, PrintLines, Enumerates;
    match s.tasks[t].list
    case ListStart =>
    case ListCreate(_) =>
    case ListWrite(_) =>
    case ListRename =>
    case ListRelease =>
    case ListFailed =>
    case Allowed(_) =>
  }

  lemma PurgeForward(s: State, t: nat, c: Choice)
    requires t in s.tasks && s.tasks[t].Purge? && !Ended(s.tasks[t]) && Unhindered(s, t) && OwnsOnly(s, t)
    ensures Forward(s, t, c)
  {
    hide PutStep, ListStep, IngestStep, ServeStep, JobStep;
  }

  lemma IngestForward(s: State, t: nat, c: Choice)
    requires t in s.tasks && s.tasks[t].Ingest? && !Ended(s.tasks[t]) && Unhindered(s, t) && OwnsOnly(s, t)
    ensures Forward(s, t, c)
  {
    hide PutStep, ListStep, PurgeStep, ServeStep, JobStep, Sha256Hex;
  }

  lemma ServeForward(s: State, t: nat, c: Choice)
    requires t in s.tasks && s.tasks[t].Serve? && !Ended(s.tasks[t]) && Unhindered(s, t) && OwnsOnly(s, t)
    ensures Forward(s, t, c)
  {
    hide PutStep, ListStep, PurgeStep, IngestStep, JobStep, Sha256Hex, IsValidHash;
  }

  lemma JobForward(s: State, t: nat, c: Choice)
    requires t in s.tasks && s.tasks[t].Detached? && !Ended(s.tasks[t])
    ensures Forward(s, t, c)
  {
    hide PutStep, ListStep, PurgeStep, IngestStep, ServeStep;
  }

  lemma StepForward(s: State, t: nat, c: Choice)
    requires LocksMatch(s) && t in s.tasks && !Ended(s.tasks[t]) && Unhindered(s, t) && OrderGiven(s, t, c)
    ensures Forward(s, t, c)
  {
    assert OwnsOnly(s, t);
    hide Forward, LocksMatch, Ended, Unhindered, OwnsOnly, OrderGiven;
    match s.tasks[t]
    case Put(_, _, _) => PutForward(s, t, c);
    case Relist(_, _, _) => ListForward(s, t, c);
    case Purge(_, _) => PurgeForward(s, t, c);
    case Ingest(_, _) => IngestForward(s, t, c);
    case Serve(_, _, _) => ServeForward(s, t, c);
    case Detached(_) => JobForward(s, t, c);
  }

  lemma {:induction false} SetHasOrder(xs: set<string>) returns (order: seq<string>)
    ensures Enumerates(order, xs)
  {
    order := [];
    if xs != {} {
      var x :| x in xs;
      var rest := SetHasOrder(xs - {x});
      order := rest + [x];
    }
  }

  lemma ChoiceFor(s: State, t: nat) returns (c: Choice)
    requires t in s.tasks
    ensures OrderGiven(s, t, c)
  {
    var order := [];
    if s.tasks[t].Relist? {
      order := SetHasOrder(if s.tasks[t].adding then s.denied + {s.tasks[t].h} else s.denied - {s.tasks[t].h});
    }
    c := Choice(true, [], "", order, None);
  }

  /** A task that no other task hinders runs to its end, and lets go of whatever it holds. */
  lemma {:induction false} RunsToEnd(s: State, t: nat) returns (s': State)
    requires LocksMatch(s) && t in s.tasks && Unhindered(s, t)
    ensures Reaches(s, s') && LocksMatch(s') && t in s'.tasks && Ended(s'.tasks[t])
    ensures s'.indexLock.None? && s'.deniedLock.None?
    ensures s'.tasks == s.tasks[t := s'.tasks[t]]
    decreases StepsLeft(s.tasks[t])
  {
    hide Reaches, Step, Ended, StepsLeft;
    if Ended(s.tasks[t]) {
      s' := s;
      EndedHoldsNothing(s, t);
      ReachesItself(s);
      assert s.tasks[t := s.tasks[t]] == s.tasks;
    } else {
      var c := ChoiceFor(s, t);
      StepForward(s, t, c);
      LocksMatchStep(s, Run(t, c));
      StillUnhindered(s, t, c);
      ReachesNext(s, Run(t, c));
      var next := Next(s, Run(t, c));
      s' := RunsToEnd(next, t);
      ReachesTransitive(s, next, s');
    }
  }

  lemma ReachesItself(s: State)
    ensures Reaches(s, s)
  {
    assert Undisturbed([]) && Exec(s, []) == s;
  }

  lemma EndedHoldsNothing(s: State, t: nat)
    requires LocksMatch(s) && t in s.tasks && Ended(s.tasks[t]) && Unhindered(s, t)
    ensures s.indexLock.None? && s.deniedLock.None?
  {
  }

  lemma StillUnhindered(s: State, t: nat, c: Choice)
    requires LocksMatch(s) && t in s.tasks && Unhindered(s, t)
    ensures Unhindered(Next(s, Run(t, c)), t)
    ensures t in Next(s, Run(t, c)).tasks && Next(s, Run(t, c)).tasks == s.tasks[t := Next(s, Run(t, c)).tasks[t]]
  {
    StepMoves(s, t, c);
    hide Step, LocksMatch;
  }

  /** The steps a holder of the list lock has left before it lets go, which need no lock at all. */
  lemma {:induction false} ListLockComesFree(s: State) returns (s': State)
    requires LocksMatch(s) && s.deniedLock.Some?
    ensures Reaches(s, s') && LocksMatch(s') && s'.deniedLock.None? && s'.indexLock == s.indexLock
    ensures s'.tasks.Keys == s.tasks.Keys
    ensures forall u :: u in s.tasks && Some(u) != s.deniedLock ==> s'.tasks[u] == s.tasks[u]
    decreases StepsLeft(s.tasks[s.deniedLock.value])
  {
    var t := s.deniedLock.value;
    assert t in s.tasks && HoldsDenied(s.tasks[t]);
    var c := Choice(true, [], "", [], None);
    HolderForward(s, t, c);
    LocksMatchStep(s, Run(t, c));
    StepMoves(s, t, c);
    ReachesNext(s, Run(t, c));
    var next := Next(s, Run(t, c));
    hide Reaches, Step, StepsLeft;
    if next.deniedLock.None? {
      s' := next;
    } else {
      s' := ListLockComesFree(next);
      ReachesTransitive(s, next, s');
    }
  }

  lemma HolderForward(s: State, t: nat, c: Choice)
    requires t in s.tasks && HoldsDenied(s.tasks[t]) && s.deniedLock == Some(t)
    ensures Forward(s, t, c) && Step(s, t, c).indexLock == s.indexLock
  {
    hide PutStep, PurgeStep, IngestStep, ServeStep, JobStep;
    match s.tasks[t].list
    case ListCreate(_) =>
    case ListWrite(_) =>
    case ListRename =>
    case ListRelease =>
  }

  /** The holder of the index lock is one step from letting go. */
  lemma IndexLockComesFree(s: State, c: Choice)
    requires LocksMatch(s) && s.indexLock.Some?
    ensures var s' := Next(s, Run(s.indexLock.value, c));
            && Reaches(s, s') && LocksMatch(s') && s'.indexLock.None? && s'.deniedLock == s.deniedLock
            && s'.tasks.Keys == s.tasks.Keys
            && forall u :: u in s.tasks && Some(u) != s.indexLock ==> s'.tasks[u] == s.tasks[u]
  {
    var t := s.indexLock.value;
    assert t in s.tasks && HoldsIndex(s.tasks[t]);
    LocksMatchStep(s, Run(t, c));
    StepMoves(s, t, c);
    ReachesNext(s, Run(t, c));
    IndexHolderLetsGo(s, t, c);
    hide Reaches, Step;
  }

  lemma IndexHolderLetsGo(s: State, t: nat, c: Choice)
    requires t in s.tasks && HoldsIndex(s.tasks[t])
    ensures t in Step(s, t, c).tasks && !HoldsIndex(Step(s, t, c).tasks[t])
    ensures Step(s, t, c).indexLock.None? && Step(s, t, c).deniedLock == s.deniedLock
  {
    hide ListStep, IngestStep, ServeStep, JobStep;
  }

  /** No deadlock, no task left waiting for good: whoever holds a lock can let go of it, and then any
      task can run to its end. */
  lemma EveryTaskCanEnd(s: State, t: nat) returns (s': State)
    requires LocksMatch(s) && t in s.tasks
    ensures Reaches(s, s') && t in s'.tasks && Ended(s'.tasks[t])
  {
    hide Reaches, Next, LocksMatch;
    var s1 := s;
    ReachesItself(s);
    if s.indexLock.Some? {
      var c := Choice(true, [], "", [], None);
      IndexLockComesFree(s, c);
      s1 := Next(s, Run(s.indexLock.value, c));
    }
    var s2 := s1;
    ReachesItself(s1);
    if s1.deniedLock.Some? {
      s2 := ListLockComesFree(s1);
    }
    ReachesTransitive(s, s1, s2);
    s' := RunsToEnd(s2, t);
    ReachesTransitive(s, s2, s');
  }
}
