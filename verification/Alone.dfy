/** A task that nobody disturbs does what the whole operation does: the relations of `Operations`,
    which `Stores.Store` computes, however the environment resolves its steps. */
module Alone {
  import opened Text
  import opened Hashes
  import opened Denylist
  import opened Totals
  import opened Operations
  import opened StoreSteps

  function Snapshot(s: State): Image {
    Image(s.disk, s.index, s.total, s.denied, s.max)
  }

  /** How the environment resolves the step of a task, wherever that task has got to. */
  type Env = Task -> Choice

  /** `n` steps of one task. */
  ghost function Solo(s: State, t: nat, env: Env, n: nat): State
    decreases n
  {
    if n == 0 || t !in s.tasks then s else Solo(Next(s, Run(t, env(s.tasks[t]))), t, env, n - 1)
  }

  lemma {:induction false} SoloAppend(s: State, t: nat, env: Env, m: nat, n: nat)
    ensures Solo(s, t, env, m + n) == Solo(Solo(s, t, env, m), t, env, n)
    decreases m
  {
    hide Next;
    if m > 0 && t in s.tasks {
      SoloAppend(Next(s, Run(t, env(s.tasks[t]))), t, env, m - 1, n);
    }
  }

  /** The actions of such a run. */
  ghost function SoloActions(s: State, t: nat, env: Env, n: nat): seq<Action>
    decreases n
  {
    if n == 0 || t !in s.tasks then []
    else [Run(t, env(s.tasks[t]))] + SoloActions(Next(s, Run(t, env(s.tasks[t]))), t, env, n - 1)
  }

  lemma {:induction false} SoloIsRun(s: State, t: nat, env: Env, n: nat)
    ensures Exec(s, SoloActions(s, t, env, n)) == Solo(s, t, env, n)
    ensures forall a :: a in SoloActions(s, t, env, n) ==> a.Run? && a.task == t
    decreases n
  {
    hide Next;
    if n > 0 && t in s.tasks {
      var s' := Next(s, Run(t, env(s.tasks[t])));
      SoloIsRun(s', t, env, n - 1);
      assert SoloActions(s, t, env, n)[1..] == SoloActions(s', t, env, n - 1);
    }
  }

  /** `s'` can come about from `s` with neither a crash nor a dropped handler. */
  ghost predicate Reaches(s: State, s': State) {
    exists actions :: Undisturbed(actions) && Exec(s, actions) == s'
  }

  ghost predicate Undisturbed(actions: seq<Action>) {
    forall a :: a in actions ==> !a.CrashAndOpen? && !a.Drop?
  }

  lemma ReachesNext(s: State, a: Action)
    requires !a.CrashAndOpen? && !a.Drop?
    ensures Reaches(s, Next(s, a))
  {
    hide Next;
    assert [a][1..] == [] && Exec(s, [a]) == Next(s, a);
    assert forall x :: x in [a] ==> x == a;
    assert Undisturbed([a]);
  }

  lemma ReachesSolo(s: State, t: nat, env: Env, n: nat)
    ensures Reaches(s, Solo(s, t, env, n))
  {
    hide Exec, Solo;
    SoloIsRun(s, t, env, n);
    assert Undisturbed(SoloActions(s, t, env, n));
  }

  lemma ReachesTransitive(a: State, b: State, c: State)
    requires Reaches(a, b) && Reaches(b, c)
    ensures Reaches(a, c)
  {
    hide Exec;
    var xs :| Undisturbed(xs) && Exec(a, xs) == b;
    var ys :| Undisturbed(ys) && Exec(b, ys) == c;
    ExecAppend(a, xs, ys);
    assert Undisturbed(xs + ys);
  }

  predicate Returned(task: Task) {
    match task
    case Put(_, _, pc) => pc.PutDone?
    case Relist(_, _, pc) => pc.ListFailed? || pc.Allowed?
    case Purge(_, pc) => pc.PurgeDone?
    case Serve(_, _, pc) => pc.Served?
    case Ingest(_, pc) => pc.IngestSkip?
    case _ => false
  }

  lemma PutIdles(s: State, t: nat, c: Choice)
    requires t in s.tasks && s.tasks[t].Put? && Returned(s.tasks[t])
    ensures Step(s, t, c) == s
  {
    hide ListStep, PurgeStep, ServeStep, IngestStep, JobStep;
  }

  lemma RelistIdles(s: State, t: nat, c: Choice)
    requires t in s.tasks && s.tasks[t].Relist? && Returned(s.tasks[t])
    ensures Step(s, t, c) == s
  {
    hide PutStep, PurgeStep, ServeStep, IngestStep, JobStep;
  }

  lemma PurgeIdles(s: State, t: nat, c: Choice)
    requires t in s.tasks && s.tasks[t].Purge? && Returned(s.tasks[t])
    ensures Step(s, t, c) == s
  {
    hide PutStep, ListStep, ServeStep, IngestStep, JobStep;
  }

  lemma ServeIdles(s: State, t: nat, c: Choice)
    requires t in s.tasks && s.tasks[t].Serve? && Returned(s.tasks[t])
    ensures Step(s, t, c) == s
  {
    hide PutStep, ListStep, PurgeStep, IngestStep, JobStep;
  }

  lemma IngestIdles(s: State, t: nat, c: Choice)
    requires t in s.tasks && s.tasks[t].Ingest? && Returned(s.tasks[t])
    ensures Step(s, t, c) == s
  {
    hide PutStep, ListStep, PurgeStep, ServeStep, JobStep;
  }

  lemma ReturnedIdles(s: State, t: nat, c: Choice)
    requires t in s.tasks && Returned(s.tasks[t])
    ensures Step(s, t, c) == s
  {
    hide Step;
    match s.tasks[t]
    case Put(_, _, _) => PutIdles(s, t, c);
    case Relist(_, _, _) => RelistIdles(s, t, c);
    case Purge(_, _) => PurgeIdles(s, t, c);
    case Serve(_, _, _) => ServeIdles(s, t, c);
    case Ingest(_, _) => IngestIdles(s, t, c);
  }

  lemma {:induction false} ReturnedStays(s: State, t: nat, env: Env, n: nat)
    requires t in s.tasks && Returned(s.tasks[t])
    ensures Solo(s, t, env, n) == s
    decreases n
  {
    hide Step, Returned;
    if n > 0 {
      ReturnedIdles(s, t, env(s.tasks[t]));
      ReturnedStays(s, t, env, n - 1);
    }
  }

  lemma Unfold(s: State, t: nat, env: Env)
    requires t in s.tasks
    ensures Solo(s, t, env, 1) == Step(s, t, env(s.tasks[t]))
  {
    hide Step;
  }

  // One step of each kind of task.

  lemma PutSteps(s: State, t: nat, h: string, b: Bytes, pc: PutPc, env: Env)
    requires t in s.tasks && s.tasks[t] == Put(h, b, pc)
    ensures Solo(s, t, env, 1) == PutStep(s, t, h, b, pc, env(Put(h, b, pc)))
  {
    hide PutStep, ListStep, PurgeStep, IngestStep, ServeStep, JobStep, Solo;
    Unfold(s, t, env);
  }

  lemma ListSteps(s: State, t: nat, h: string, adding: bool, pc: ListPc, env: Env)
    requires t in s.tasks && s.tasks[t] == Relist(h, adding, pc)
    ensures Solo(s, t, env, 1) == ListStep(s, t, h, adding, pc, env(Relist(h, adding, pc)))
  {
    hide PutStep, ListStep, PurgeStep, IngestStep, ServeStep, JobStep, Solo;
    Unfold(s, t, env);
  }

  lemma PurgeSteps(s: State, t: nat, h: string, pc: PurgePc, env: Env)
    requires t in s.tasks && s.tasks[t] == Purge(h, pc)
    ensures Solo(s, t, env, 1) == PurgeStep(s, t, h, pc, env(Purge(h, pc)))
  {
    hide PutStep, ListStep, PurgeStep, IngestStep, ServeStep, JobStep, Solo;
    Unfold(s, t, env);
  }

  // ---- put

  function PutIo(env: Env, h: string, b: Bytes): Io {
    var create, write, rename := env(Put(h, b, PutCreate)), env(Put(h, b, PutWrite)), env(Put(h, b, PutRename));
    Io(true, create.ok && write.ok, rename.ok, true, if create.ok then Some(write.junk) else None, None)
  }

  function Verdict(s: State, h: string, b: Bytes): PutPc {
    if h !in s.denied && Admits(Snapshot(s), h, |b|) then PutCreate else PutDone(false)
  }

  function CheckSteps(s: State, h: string): nat {
    if s.max == 0 || h in s.denied then 1 else 3
  }

  lemma CheckRuns(s: State, t: nat, h: string, b: Bytes, env: Env)
    requires t in s.tasks && s.tasks[t] == Put(h, b, PutCheck) && s.deniedLock.None?
    ensures Solo(s, t, env, 1)
            == Goto(s, t, Put(h, b, if h in s.denied then PutDone(false) else if s.max > 0 then PutBudget else PutCreate))
  {
    hide Solo;
    PutSteps(s, t, h, b, PutCheck, env);
  }

  lemma BudgetRuns(s: State, t: nat, h: string, b: Bytes, env: Env)
    requires t in s.tasks && s.tasks[t] == Put(h, b, PutBudget) && s.indexLock.None? && s.max > 0
    ensures Solo(s, t, env, 2)
            == Goto(s, t, Put(h, b, if Admits(Snapshot(s), h, |b|) then PutCreate else PutDone(false)))
  {
    hide Solo;
    PutSteps(s, t, h, b, PutBudget, env);
    SoloAppend(s, t, env, 1, 1);
    var s1 := Solo(s, t, env, 1);
    PutSteps(s1, t, h, b, PutHeld(s.total), env);
  }

  /** Its checks let a put through exactly when the hash is not denied and the budget admits it. */
  lemma PutDecides(s: State, t: nat, h: string, b: Bytes, env: Env)
    requires t in s.tasks && s.tasks[t] == Put(h, b, PutCheck) && s.deniedLock.None? && s.indexLock.None?
    ensures Solo(s, t, env, CheckSteps(s, h)) == Goto(s, t, Put(h, b, Verdict(s, h, b)))
  {
    hide Solo;
    CheckRuns(s, t, h, b, env);
    if s.max > 0 && h !in s.denied {
      SoloAppend(s, t, env, 1, 2);
      BudgetRuns(Solo(s, t, env, 1), t, h, b, env);
    }
  }

  lemma CreateBlobRuns(s: State, t: nat, h: string, b: Bytes, env: Env)
    requires t in s.tasks && s.tasks[t] == Put(h, b, PutCreate)
    ensures var c := env(Put(h, b, PutCreate));
            Solo(s, t, env, 1) == if c.ok then Goto(s, t, Put(h, b, PutWrite)).(disk := s.disk.(tmps := s.disk.tmps[h := c.junk]))
                                  else Goto(s, t, Put(h, b, PutDone(false)))
  {
    hide Solo;
    PutSteps(s, t, h, b, PutCreate, env);
  }

  lemma FillBlobRuns(s: State, t: nat, h: string, b: Bytes, env: Env)
    requires t in s.tasks && s.tasks[t] == Put(h, b, PutWrite)
    ensures var c := env(Put(h, b, PutWrite));
            Solo(s, t, env, 1) == Goto(s, t, Put(h, b, if c.ok then PutRename else PutDone(false)))
                                    .(disk := s.disk.(tmps := s.disk.tmps[h := if c.ok then b else c.junk]))
  {
    hide Solo;
    PutSteps(s, t, h, b, PutWrite, env);
  }

  lemma PutWrites(s: State, t: nat, h: string, b: Bytes, env: Env)
    requires t in s.tasks && s.tasks[t] == Put(h, b, PutCreate)
    ensures var io := PutIo(env, h, b);
            Solo(s, t, env, 2)
            == if io.write then Goto(s, t, Put(h, b, PutRename)).(disk := s.disk.(tmps := s.disk.tmps[h := b]))
               else Goto(s, t, Put(h, b, PutDone(false))).(disk := Placed(s.disk, h, b, io))
  {
    hide Solo;
    CreateBlobRuns(s, t, h, b, env);
    SoloAppend(s, t, env, 1, 1);
    var s1 := Solo(s, t, env, 1);
    if env(Put(h, b, PutCreate)).ok {
      FillBlobRuns(s1, t, h, b, env);
      var junk := env(Put(h, b, PutCreate)).junk;
      var now := if env(Put(h, b, PutWrite)).ok then b else env(Put(h, b, PutWrite)).junk;
      assert s.disk.tmps[h := junk][h := now] == s.disk.tmps[h := now];
    } else {
      ReturnedStays(s1, t, env, 1);
    }
  }

  /** The disk part of a put, whatever fails in it. */
  lemma PutPlaces(s: State, t: nat, h: string, b: Bytes, env: Env)
    requires t in s.tasks && s.tasks[t] == Put(h, b, PutCreate)
    ensures var io := PutIo(env, h, b);
            Solo(s, t, env, 3) == Goto(s, t, Put(h, b, if io.write && io.rename then PutInsert else PutDone(false)))
                                    .(disk := Placed(s.disk, h, b, io))
  {
    hide Solo;
    PutWrites(s, t, h, b, env);
    SoloAppend(s, t, env, 2, 1);
    var s2 := Solo(s, t, env, 2);
    if PutIo(env, h, b).write {
      PutSteps(s2, t, h, b, PutRename, env);
      assert s.disk.tmps[h := b] - {h} == s.disk.tmps - {h};
    } else {
      ReturnedStays(s2, t, env, 1);
    }
  }

  lemma PutRegisters(s: State, t: nat, h: string, b: Bytes, env: Env)
    requires t in s.tasks && s.tasks[t] == Put(h, b, PutInsert) && s.indexLock.None?
    ensures Solo(s, t, env, 2)
            == Goto(s, t, Put(h, b, PutDone(true)))
                 .(index := s.index[h := |b|], total := SatAdd(SatSub(s.total, if h in s.index then s.index[h] else 0), |b|))
  {
    hide Solo;
    PutSteps(s, t, h, b, PutInsert, env);
    SoloAppend(s, t, env, 1, 1);
    var s1 := Solo(s, t, env, 1);
    PutSteps(s1, t, h, b, s1.tasks[t].put, env);
  }

  lemma PutStores(s: State, t: nat, h: string, b: Bytes, env: Env)
    requires t in s.tasks && s.tasks[t] == Put(h, b, PutCreate) && s.indexLock.None?
    ensures var io := PutIo(env, h, b);
            var placed := s.(disk := Placed(s.disk, h, b, io));
            Solo(s, t, env, 5)
            == if io.write && io.rename then
                 Goto(placed, t, Put(h, b, PutDone(true)))
                   .(index := s.index[h := |b|], total := SatAdd(SatSub(s.total, if h in s.index then s.index[h] else 0), |b|))
               else Goto(placed, t, Put(h, b, PutDone(false)))
  {
    hide Solo, PutIo, Placed;
    PutPlaces(s, t, h, b, env);
    SoloAppend(s, t, env, 3, 2);
    var s3 := Solo(s, t, env, 3);
    if s3.tasks[t].put.PutInsert? {
      PutRegisters(s3, t, h, b, env);
    } else {
      ReturnedStays(s3, t, env, 2);
    }
  }

  /** From its first disk action on. */
  lemma PutCompletes(s: State, t: nat, h: string, b: Bytes, env: Env)
    requires t in s.tasks && s.tasks[t] == Put(h, b, PutCreate) && s.indexLock.None? && IsValidHash(h)
    requires h !in s.denied && Admits(Snapshot(s), h, |b|)
    ensures var end := Solo(s, t, env, 5);
            && end == s.(disk := end.disk, index := end.index, total := end.total, tasks := end.tasks)
            && Snapshot(end) == AfterPut(Snapshot(s), h, b, PutIo(env, h, b))
            && end.tasks == s.tasks[t := Put(h, b, PutDone(PutResult(Snapshot(s), h, |b|, PutIo(env, h, b)).Ok?))]
  {
    hide Solo, IsValidHash, Placed, PutIo;
    PutStores(s, t, h, b, env);
  }

  /** A put from its call to its return, whatever the budget says, whatever is held, whatever fails. */
  lemma PutAlone(s: State, t: nat, h: string, b: Bytes, env: Env)
    requires t in s.tasks && s.tasks[t] == Put(h, b, PutCheck) && s.deniedLock.None? && s.indexLock.None?
    requires IsValidHash(h)
    ensures var io := PutIo(env, h, b);
            var end := Solo(s, t, env, 8);
            && Snapshot(end) == AfterPut(Snapshot(s), h, b, io)
            && end.tasks == s.tasks[t := Put(h, b, PutDone(PutResult(Snapshot(s), h, |b|, io).Ok?))]
            && end.deniedLock.None? && end.indexLock.None?
  {
    hide Solo, IsValidHash, PutIo, Placed;
    var k := CheckSteps(s, h);
    PutDecides(s, t, h, b, env);
    var s1 := Solo(s, t, env, k);
    SoloAppend(s, t, env, k, 8 - k);
    if s1.tasks[t].put.PutCreate? {
      PutCompletes(s1, t, h, b, env);
      SoloAppend(s1, t, env, 5, 3 - k);
      ReturnedStays(Solo(s1, t, env, 5), t, env, 3 - k);
    } else {
      ReturnedStays(s1, t, env, 8 - k);
    }
  }

  // ---- deny, allow and purge

  function ListIo(env: Env, h: string, adding: bool): Io {
    var body := Body(env, h, adding);
    var create, write, rename :=
      env(Relist(h, adding, ListCreate(body))), env(Relist(h, adding, ListWrite(body))), env(Relist(h, adding, ListRename));
    Io(true, create.ok && write.ok, rename.ok, env(Purge(h, PurgeRemove)).ok, None,
       if create.ok then Some(write.text) else None)
  }

  function Body(env: Env, h: string, adding: bool): string {
    PrintLines(env(Relist(h, adding, ListStart)).order)
  }

  lemma CreateRuns(s: State, t: nat, h: string, adding: bool, body: string, env: Env)
    requires t in s.tasks && s.tasks[t] == Relist(h, adding, ListCreate(body))
    ensures var c := env(Relist(h, adding, ListCreate(body)));
            Solo(s, t, env, 1) == if c.ok then Goto(s, t, Relist(h, adding, ListWrite(body))).(disk := s.disk.(denyTmp := Some(c.text)))
                                  else RollBack(s, t, h, adding)
  {
    hide Solo;
    ListSteps(s, t, h, adding, ListCreate(body), env);
  }

  lemma FillRuns(s: State, t: nat, h: string, adding: bool, body: string, env: Env)
    requires t in s.tasks && s.tasks[t] == Relist(h, adding, ListWrite(body))
    ensures var c := env(Relist(h, adding, ListWrite(body)));
            Solo(s, t, env, 1) == if c.ok then Goto(s, t, Relist(h, adding, ListRename)).(disk := s.disk.(denyTmp := Some(body)))
                                  else RollBack(s, t, h, adding).(disk := s.disk.(denyTmp := Some(c.text)))
  {
    hide Solo;
    ListSteps(s, t, h, adding, ListWrite(body), env);
  }

  lemma WriteRuns(s: State, t: nat, h: string, adding: bool, env: Env)
    requires t in s.tasks && s.tasks[t] == Relist(h, adding, ListCreate(Body(env, h, adding)))
    ensures var io := ListIo(env, h, adding);
            Solo(s, t, env, 2)
            == if io.write then Goto(s, t, Relist(h, adding, ListRename)).(disk := s.disk.(denyTmp := Some(Body(env, h, adding))))
               else if io.leftText.Some? then RollBack(s, t, h, adding).(disk := s.disk.(denyTmp := io.leftText))
               else RollBack(s, t, h, adding)
  {
    hide Solo, Body;
    var body := Body(env, h, adding);
    CreateRuns(s, t, h, adding, body, env);
    SoloAppend(s, t, env, 1, 1);
    var s1 := Solo(s, t, env, 1);
    if env(Relist(h, adding, ListCreate(body))).ok {
      FillRuns(s1, t, h, adding, body, env);
    } else {
      ReturnedStays(s1, t, env, 1);
    }
  }

  lemma RewriteRuns(s: State, t: nat, h: string, adding: bool, env: Env)
    requires t in s.tasks && s.tasks[t] == Relist(h, adding, ListCreate(Body(env, h, adding)))
    ensures var io := ListIo(env, h, adding);
            Solo(s, t, env, 3) == if io.write && io.rename then
                                    Goto(s, t, Relist(h, adding, ListRelease)).(disk := Written(s.disk, Body(env, h, adding), true))
                                  else
                                    RollBack(s, t, h, adding)
                                      .(disk := if io.write then Written(s.disk, Body(env, h, adding), false)
                                                else if io.leftText.Some? then s.disk.(denyTmp := io.leftText) else s.disk)
  {
    hide Solo, Body;
    WriteRuns(s, t, h, adding, env);
    SoloAppend(s, t, env, 2, 1);
    var s2 := Solo(s, t, env, 2);
    if ListIo(env, h, adding).write {
      ListSteps(s2, t, h, adding, ListRename, env);
    } else {
      ReturnedStays(s2, t, env, 1);
    }
  }

  /** A purge, whether or not the file goes away. */
  lemma PurgeAlone(s: State, t: nat, h: string, env: Env)
    requires t in s.tasks && s.tasks[t] == Purge(h, PurgeRemove) && s.indexLock.None?
    ensures var end := Solo(s, t, env, 3);
            && Snapshot(end) == AfterPurge(Snapshot(s), h, env(Purge(h, PurgeRemove)).ok)
            && end.tasks == s.tasks[t := Purge(h, PurgeDone(h in s.index))]
            && end.deniedLock == s.deniedLock && end.indexLock.None?
  {
    hide Solo;
    var s1 := Solo(s, t, env, 1);
    PurgeSteps(s, t, h, PurgeRemove, env);
    SoloAppend(s, t, env, 1, 2);
    PurgeSteps(s1, t, h, PurgeIndex, env);
    SoloAppend(s1, t, env, 1, 1);
    var s2 := Solo(s1, t, env, 1);
    if h in s.index {
      PurgeSteps(s2, t, h, PurgeTotal(s.index[h]), env);
    } else {
      assert s.index - {h} == s.index;
      ReturnedStays(s2, t, env, 1);
    }
  }

  lemma ChangeBegins(s: State, t: nat, h: string, adding: bool, env: Env)
    requires t in s.tasks && s.tasks[t] == Relist(h, adding, ListStart) && s.deniedLock.None?
    requires adding != (h in s.denied)
    requires Enumerates(env(Relist(h, adding, ListStart)).order, if adding then s.denied + {h} else s.denied - {h})
    ensures Solo(s, t, env, 1)
            == Goto(s, t, Relist(h, adding, ListCreate(Body(env, h, adding))))
                 .(denied := if adding then s.denied + {h} else s.denied - {h}, deniedLock := Some(t))
  {
    hide Solo, PrintLines, Enumerates;
    ListSteps(s, t, h, adding, ListStart, env);
  }

  lemma ReleaseRuns(s: State, t: nat, h: string, adding: bool, env: Env)
    requires t in s.tasks && s.tasks[t] == Relist(h, adding, ListRelease)
    ensures Solo(s, t, env, 1)
            == Goto(s, t, if adding then Purge(h, PurgeRemove) else Relist(h, adding, Allowed(true))).(deniedLock := None)
  {
    hide Solo;
    ListSteps(s, t, h, adding, ListRelease, env);
  }

  /** The list stage of a deny or allow that has something to change. */
  lemma ChangeRuns(s: State, t: nat, h: string, adding: bool, env: Env)
    requires t in s.tasks && s.tasks[t] == Relist(h, adding, ListStart) && s.deniedLock.None?
    requires adding != (h in s.denied)
    requires Enumerates(env(Relist(h, adding, ListStart)).order, if adding then s.denied + {h} else s.denied - {h})
    ensures var io := ListIo(env, h, adding);
            var denied := if adding then s.denied + {h} else s.denied - {h};
            var end := Solo(s, t, env, 5);
            && Rewritten(s.disk, denied, io, end.disk)
            && end == s.(disk := end.disk, tasks := end.tasks, denied := if io.write && io.rename then denied else s.denied)
            && end.tasks == s.tasks[t := if !io.write || !io.rename then Relist(h, adding, ListFailed)
                                         else if adding then Purge(h, PurgeRemove) else Relist(h, adding, Allowed(true))]
  {
    hide Solo, PrintLines, Enumerates;
    var denied := if adding then s.denied + {h} else s.denied - {h};
    ChangeBegins(s, t, h, adding, env);
    var s1 := Solo(s, t, env, 1);
    SoloAppend(s, t, env, 1, 4);
    RewriteRuns(s1, t, h, adding, env);
    SoloAppend(s1, t, env, 3, 1);
    var s4 := Solo(s1, t, env, 3);
    if s4.tasks[t].list.ListRelease? {
      ReleaseRuns(s4, t, h, adding, env);
    } else {
      assert (if adding then denied - {h} else denied + {h}) == s.denied;
      ReturnedStays(s4, t, env, 1);
    }
  }

  lemma DenyAgain(s: State, t: nat, h: string, env: Env)
    requires t in s.tasks && s.tasks[t] == Relist(h, true, ListStart) && s.deniedLock.None? && s.indexLock.None?
    requires h in s.denied
    ensures var end := Solo(s, t, env, 8);
            && Snapshot(end) == AfterPurge(Snapshot(s), h, ListIo(env, h, true).remove)
            && end.tasks == s.tasks[t := Purge(h, PurgeDone(h in s.index))]
            && end.deniedLock.None? && end.indexLock.None?
  {
    hide Solo;
    ListSteps(s, t, h, true, ListStart, env);
    SoloAppend(s, t, env, 1, 7);
    var s1 := Goto(s, t, Purge(h, PurgeRemove));
    assert Solo(s, t, env, 1) == s1;
    hide ListStep;
    PurgeAlone(s1, t, h, env);
    SoloAppend(s1, t, env, 3, 4);
    ReturnedStays(Solo(s1, t, env, 3), t, env, 4);
  }

  lemma DenyAnew(s: State, t: nat, h: string, env: Env)
    requires t in s.tasks && s.tasks[t] == Relist(h, true, ListStart) && s.deniedLock.None? && s.indexLock.None?
    requires h !in s.denied && Enumerates(env(Relist(h, true, ListStart)).order, s.denied + {h})
    ensures var io := ListIo(env, h, true);
            var end := Solo(s, t, env, 8);
            && end.deniedLock.None? && end.indexLock.None?
            && if io.write && io.rename then
                 && end.tasks == s.tasks[t := Purge(h, PurgeDone(h in s.index))]
                 && exists d :: Rewritten(s.disk, s.denied + {h}, io, d)
                                && Snapshot(end) == AfterPurge(Snapshot(s).(disk := d, denied := s.denied + {h}), h, io.remove)
               else
                 && end.tasks == s.tasks[t := Relist(h, true, ListFailed)]
                 && Snapshot(end) == Snapshot(s).(disk := end.disk) && Rewritten(s.disk, s.denied + {h}, io, end.disk)
  {
    hide Solo, Enumerates, Rewritten, Next, Body, AfterPurge;
    ChangeRuns(s, t, h, true, env);
    SoloAppend(s, t, env, 5, 3);
    var s5 := Solo(s, t, env, 5);
    if s5.tasks[t].Purge? {
      PurgeAlone(s5, t, h, env);
    } else {
      ReturnedStays(s5, t, env, 3);
    }
  }

  /** A deny from its call to its return: already denied or not, rolled back or not, removed or not. */
  lemma DenyAlone(s: State, t: nat, h: string, env: Env)
    requires t in s.tasks && s.tasks[t] == Relist(h, true, ListStart) && s.deniedLock.None? && s.indexLock.None?
    requires IsValidHash(h)
    requires h !in s.denied ==> Enumerates(env(Relist(h, true, ListStart)).order, s.denied + {h})
    ensures var io := ListIo(env, h, true);
            var r := if h in s.denied || (io.write && io.rename) then Ok(h in s.index) else Err(DenyFailed);
            var end := Solo(s, t, env, 8);
            && DenyDoes(Snapshot(s), h, io, r, Snapshot(end))
            && end.tasks == s.tasks[t := if r.Ok? then Purge(h, PurgeDone(r.value)) else Relist(h, true, ListFailed)]
            && end.deniedLock.None? && end.indexLock.None?
  {
    hide Solo, IsValidHash, Enumerates, Rewritten, AfterPurge, ListIo;
    if h in s.denied {
      DenyAgain(s, t, h, env);
    } else {
      DenyAnew(s, t, h, env);
    }
  }

  /** An allow from its call to its return. */
  lemma AllowAlone(s: State, t: nat, h: string, env: Env)
    requires t in s.tasks && s.tasks[t] == Relist(h, false, ListStart) && s.deniedLock.None?
    requires h in s.denied ==> Enumerates(env(Relist(h, false, ListStart)).order, s.denied - {h})
    ensures var io := ListIo(env, h, false);
            var r := if h !in s.denied then Ok(false) else if io.write && io.rename then Ok(true) else Err(DenyFailed);
            var end := Solo(s, t, env, 5);
            && AllowDoes(Snapshot(s), h, io, r, Snapshot(end))
            && end.tasks == s.tasks[t := Relist(h, false, if r.Ok? then Allowed(r.value) else ListFailed)]
            && end.deniedLock.None? && end.indexLock == s.indexLock
  {
    hide Solo, Enumerates, Rewritten;
    if h !in s.denied {
      ListSteps(s, t, h, false, ListStart, env);
      SoloAppend(s, t, env, 1, 4);
      ReturnedStays(Solo(s, t, env, 1), t, env, 4);
    } else {
      ChangeRuns(s, t, h, false, env);
    }
  }

  // ---- ingest

  lemma IngestSteps(s: State, t: nat, h: string, pc: IngestPc, env: Env)
    requires t in s.tasks && s.tasks[t] == Ingest(h, pc)
    ensures Solo(s, t, env, 1) == IngestStep(s, t, h, pc, env(Ingest(h, pc)))
  {
    hide PutStep, ListStep, PurgeStep, IngestStep, ServeStep, JobStep, Solo;
    Unfold(s, t, env);
  }

  /** The ingest task fetches exactly what is neither denied nor held, and hands what it gets to a put
      exactly when it hashes to what was wanted. */
  lemma IngestDecides(s: State, t: nat, h: string, env: Env)
    requires t in s.tasks && s.tasks[t] == Ingest(h, IngestCheck) && s.deniedLock.None? && s.indexLock.None?
    ensures var fetched := env(Ingest(h, IngestFetch)).fetched;
            Solo(s, t, env, 3)
            == Goto(s, t, if h !in s.denied && h !in s.index && fetched.Some? && Sha256Hex(fetched.value) == h
                          then Put(h, fetched.value, PutCheck)
                          else Ingest(h, IngestSkip))
  {
    hide Solo, Sha256Hex;
    IngestSteps(s, t, h, IngestCheck, env);
    SoloAppend(s, t, env, 1, 2);
    var s1 := Solo(s, t, env, 1);
    if h in s.denied {
      ReturnedStays(s1, t, env, 2);
    } else {
      IngestSteps(s1, t, h, IngestHas, env);
      SoloAppend(s1, t, env, 1, 1);
      var s2 := Solo(s1, t, env, 1);
      if h in s.index {
        ReturnedStays(s2, t, env, 1);
      } else {
        IngestSteps(s2, t, h, IngestFetch, env);
      }
    }
  }

  /** An ingest from the pin to its end: nothing happens if the hash is denied or held, or no verified
      bytes came; otherwise the bytes that came are put, with whatever a put makes of them. */
  lemma IngestAlone(s: State, t: nat, h: string, env: Env)
    requires t in s.tasks && s.tasks[t] == Ingest(h, IngestCheck) && s.deniedLock.None? && s.indexLock.None?
    requires IsValidHash(h)
    ensures var fetched := env(Ingest(h, IngestFetch)).fetched;
            var end := Solo(s, t, env, 11);
            && end.deniedLock.None? && end.indexLock.None?
            && if h in s.denied || h in s.index || fetched.None? || Sha256Hex(fetched.value) != h then
                 Snapshot(end) == Snapshot(s) && end.tasks == s.tasks[t := Ingest(h, IngestSkip)]
               else
                 var b, io := fetched.value, PutIo(env, h, fetched.value);
                 && Snapshot(end) == AfterPut(Snapshot(s), h, b, io)
                 && end.tasks == s.tasks[t := Put(h, b, PutDone(PutResult(Snapshot(s), h, |b|, io).Ok?))]
  {
    hide Solo, IsValidHash, PutIo, Sha256Hex, AfterPut, PutResult;
    IngestDecides(s, t, h, env);
    SoloAppend(s, t, env, 3, 8);
    var s3 := Solo(s, t, env, 3);
    if s3.tasks[t].Put? {
      PutAlone(s3, t, h, s3.tasks[t].b, env);
    } else {
      ReturnedStays(s3, t, env, 8);
    }
  }

  // ---- serving

  lemma ServeSteps(s: State, t: nat, h: string, q: Query, pc: ServePc, env: Env)
    requires t in s.tasks && s.tasks[t] == Serve(h, q, pc)
    ensures Solo(s, t, env, 1) == ServeStep(s, t, h, q, pc, env(Serve(h, q, pc)))
  {
    hide PutStep, ListStep, PurgeStep, IngestStep, ServeStep, JobStep, Solo;
    Unfold(s, t, env);
  }

  /** How a query stands after its two checks. */
  lemma ServeDecides(s: State, t: nat, h: string, q: Query, env: Env)
    requires t in s.tasks && s.tasks[t] == Serve(h, q, ServeCheck) && s.deniedLock.None? && s.indexLock.None?
    ensures var end := Solo(s, t, env, 2);
            && end == Goto(s, t, end.tasks[t])
            && (h in s.denied ==> end.tasks[t] == Serve(h, q, Served(Refused)))
            && (h !in s.denied && h !in s.index ==> end.tasks[t] == Serve(h, q, Served(Missing)))
            && (h !in s.denied && h in s.index ==>
                  end.tasks[t] == Serve(h, q, match q
                                              case GatewayHead => Served(Length(s.index[h]))
                                              case PeerHave => ServeLen
                                              case _ => if IsValidHash(h) then ServeRead else Served(Missing)))
  {
    hide Solo, Sha256Hex, IsValidHash;
    ServeSteps(s, t, h, q, ServeCheck, env);
    SoloAppend(s, t, env, 1, 1);
    var s1 := Solo(s, t, env, 1);
    if h in s.denied {
      ReturnedStays(s1, t, env, 1);
    } else {
      ServeSteps(s1, t, h, q, ServeHas, env);
    }
  }

  /** A query from its check to its answer. A denied hash is refused. One that is not held is missing.
      HEAD and Have are told the length of what is held; GET and Get are given its file if it is there
      and can be read, except that GET is given no file with another hash. */
  lemma ServeAlone(s: State, t: nat, h: string, q: Query, env: Env) returns (reply: Reply)
    requires t in s.tasks && s.tasks[t] == Serve(h, q, ServeCheck) && s.deniedLock.None? && s.indexLock.None?
    ensures Solo(s, t, env, 3) == Goto(s, t, Serve(h, q, Served(reply)))
    ensures reply == Refused <==> h in s.denied
    ensures reply.Length? <==> h !in s.denied && h in s.index && q in {GatewayHead, PeerHave}
    ensures reply.Length? ==> reply.len == s.index[h]
    ensures var readable := env(Serve(h, q, ServeRead)).ok && h in s.disk.bins && IsValidHash(h);
            && (reply.Body? <==>
                  && h !in s.denied && h in s.index && q in {GatewayGet, PeerGet} && readable
                  && (q == GatewayGet ==> Sha256Hex(s.disk.bins[h]) == h))
            && (reply == Corrupt <==>
                  h !in s.denied && h in s.index && q == GatewayGet && readable && Sha256Hex(s.disk.bins[h]) != h)
    ensures reply.Body? ==> h in s.disk.bins && reply.bytes == s.disk.bins[h]
  {
    hide Solo, Sha256Hex, IsValidHash;
    ServeDecides(s, t, h, q, env);
    SoloAppend(s, t, env, 2, 1);
    var s2 := Solo(s, t, env, 2);
    if s2.tasks[t].serve.Served? {
      ReturnedStays(s2, t, env, 1);
    } else {
      ServeSteps(s2, t, h, q, s2.tasks[t].serve, env);
    }
    reply := Solo(s, t, env, 3).tasks[t].serve.reply;
  }

  /** A peer's Get while the disk can be read: it is given what the lookup finds, and else nothing. */
  lemma PeerGetIsLookup(s: State, t: nat, h: string, env: Env)
    requires t in s.tasks && s.tasks[t] == Serve(h, PeerGet, ServeCheck) && s.deniedLock.None? && s.indexLock.None?
    requires env(Serve(h, PeerGet, ServeRead)).ok
    ensures var found, end := Lookup(Snapshot(s), h), Solo(s, t, env, 3);
            && (found.Some? ==> end == Goto(s, t, Serve(h, PeerGet, Served(Reply.Body(found.value)))))
            && (found.None? ==> end in {Goto(s, t, Serve(h, PeerGet, Served(Missing))), Goto(s, t, Serve(h, PeerGet, Served(Refused)))})
  {
    hide Solo, IsValidHash;
    var reply := ServeAlone(s, t, h, PeerGet, env);
  }

  // ---- how tasks and states come in

  /** However a hash is written, the request starts the task that works on that hash. */
  lemma RequestsEnter(s: State, raw: string, h: string, b: Bytes, q: Query)
    requires IsCanonical(h) && Writes(raw, h)
    ensures Next(s, SpawnPut(raw, b)) == Spawn(s, Put(h, b, PutCheck))
    ensures Next(s, SpawnIngest(raw)) == Spawn(s, Ingest(h, IngestCheck))
    ensures Next(s, SpawnDeny(raw)) == Spawn(s, Relist(h, true, ListStart))
    ensures Next(s, SpawnAllow(raw)) == Spawn(s, Relist(h, false, ListStart))
    ensures Next(s, SpawnServe(raw, q)) == Spawn(s, Serve(h, q, ServeCheck))
  {
    NormIff(raw, h);
    NormOfCanonical(h);
    assert IsValidHash(h);
    hide Step, Dropped, Norm, Writes, Reopened, IsCanonical, IsValidHash;
  }

  /** And anything that writes no hash starts none that could change the store. */
  lemma OthersDoNotEnter(s: State, raw: string, b: Bytes, q: Query)
    requires forall h :: IsCanonical(h) ==> !Writes(raw, h)
    ensures Next(s, SpawnPut(raw, b)) == Next(s, SpawnIngest(raw)) == Next(s, SpawnDeny(raw)) == s
    ensures q in {GatewayGet, GatewayHead} ==> Next(s, SpawnServe(raw, q)) == s
  {
    if IsValidHash(Norm(raw)) {
      ValidNormIsCanonical(raw);
      NormIff(raw, Norm(raw));
    }
    hide Step, Dropped, Norm, Writes, Reopened;
  }

  /** A crash and reopen leaves what opening the directory makes of it, and no task. */
  lemma ReopenedIsOpened(s: State, readable: bool, unsized: set<string>, stuck: set<string>)
    ensures var s' := Next(s, CrashAndOpen(readable, unsized, stuck));
            && Snapshot(s') == Opened(s.disk, s.max, OpenIo(true, readable, unsized, stuck, None))
            && s'.tasks == map[] && s'.indexLock.None? && s'.deniedLock.None?
  {
    hide Step, Dropped;
  }
}
