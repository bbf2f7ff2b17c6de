/** Index entries without a file: when they come about, what they look like from outside, and how one
    can stay. */
module Orphans {
  import opened Text
  import opened Hashes
  import opened Totals
  import opened Disks
  import opened Operations
  import opened StoreSteps
  import opened Alone
  import opened Takedown

  predicate Orphan(s: State, h: string) {
    h in s.index && h !in s.disk.bins
  }

  /** A removal of the blob that works, by a purge or by the call a dropped one has left behind. */
  ghost predicate Removes(s: State, a: Action, h: string) {
    && a.Run? && a.task in s.tasks && a.choice.ok
    && (s.tasks[a.task] == Purge(h, PurgeRemove) || s.tasks[a.task] == Detached(RemoveBlob(h)))
  }

  lemma PurgeOrphansIff(s: State, t: nat, c: Choice, h: string)
    requires t in s.tasks && s.tasks[t].Purge? && !Orphan(s, h)
    ensures Orphan(Step(s, t, c), h) <==> h in s.index && Removes(s, Run(t, c), h)
  {
    hide PutStep, ListStep, IngestStep, ServeStep, JobStep;
    match s.tasks[t].purge
    case PurgeRemove =>
    case PurgeIndex =>
    case PurgeTotal(_) =>
    case PurgeDone(_) =>
  }

  lemma JobOrphansIff(s: State, t: nat, c: Choice, h: string)
    requires t in s.tasks && s.tasks[t].Detached? && !Orphan(s, h)
    ensures Orphan(Step(s, t, c), h) <==> h in s.index && Removes(s, Run(t, c), h)
  {
    hide PutStep, ListStep, PurgeStep, IngestStep, ServeStep;
  }

  lemma PutOrphansIff(s: State, t: nat, c: Choice, h: string)
    requires t in s.tasks && OwnsItsLocks(s, t) && s.tasks[t].Put? && !Orphan(s, h)
    ensures Orphan(Step(s, t, c), h) <==> h !in s.disk.bins && Inserts(s, Run(t, c), h)
  {
    hide ListStep, PurgeStep, IngestStep, ServeStep, JobStep;
    match s.tasks[t].put
    case PutRename =>
    case PutInsert =>
    case PutTotal(_) =>
    case _ => PutMoves(s, t, c);
  }

  /** Exactly two kinds of step part an entry from its file: a removal while the entry is there, and
      the insertion of a put whose file has been removed since it was renamed into place. An open
      never does. */
  lemma OrphanArisesIff(s: State, a: Action, h: string)
    requires LocksMatch(s) && !Orphan(s, h)
    ensures Orphan(Next(s, a), h) <==> (h in s.index && Removes(s, a, h)) || (h !in s.disk.bins && Inserts(s, a, h))
  {
    hide PutStep, ListStep, PurgeStep, IngestStep, ServeStep, JobStep, IsValidHash;
    match a
    case Run(t, c) =>
      if t in s.tasks {
        match s.tasks[t]
        case Put(_, _, _) => PutOrphansIff(s, t, c, h);
        case Relist(_, _, _) => ListMoves(s, t, c);
        case Purge(_, _) => PurgeOrphansIff(s, t, c, h);
        case Detached(_) => JobOrphansIff(s, t, c, h);
        case _ => ReaderMoves(s, t, c);
      }
    case _ =>
  }

  /** A purge dropped while it removes the file: its removal goes on, and the entry is left behind. */
  lemma DroppedPurgeOrphans(s: State, t: nat, h: string, c: Choice)
    requires t in s.tasks && s.tasks[t] == Purge(h, PurgeRemove) && h in s.index && c.ok
    ensures var s' := Next(Next(s, Drop(t)), Run(t, c));
            Orphan(s', h) && s'.tasks == s.tasks[t := Detached(Finished)]
  {
    hide PutStep, ListStep, PurgeStep, IngestStep, ServeStep;
  }

  /** Opening the directory again clears them all. */
  lemma ReopenLeavesNone(s: State, readable: bool, unsized: set<string>, stuck: set<string>, h: string)
    ensures !Orphan(Next(s, CrashAndOpen(readable, unsized, stuck)), h)
  {
  }

  /** The first kind passes with the purge that did it. The second can stay: a purge that comes between
      a put's rename and its insert finds no entry to remove, and when both have returned the entry is
      there, with nobody left to take it out. */
  lemma OrphanStays(s: State, t: nat, u: nat, h: string, b: Bytes, env: Env)
    requires t in s.tasks && s.tasks[t] == Put(h, b, PutInsert)
    requires u in s.tasks && s.tasks[u] == Purge(h, PurgeRemove)
    requires s.indexLock.None? && h !in s.index && env(Purge(h, PurgeRemove)).ok
    ensures var end := Solo(Solo(s, u, env, 3), t, env, 2);
            && Orphan(end, h) && end.indexLock.None? && end.denied == s.denied
            && end.tasks == s.tasks[u := Purge(h, PurgeDone(false))][t := Put(h, b, PutDone(true))]
  {
    hide Solo;
    PurgeAlone(s, u, h, env);
    PutRegisters(Solo(s, u, env, 3), t, h, b, env);
  }

  /** An undenied orphan is announced and cannot be had: HEAD answers with its length, GET that it is
      missing, however the disk behaves. */
  lemma OrphanIsShownNotServed(s: State, t: nat, h: string, env: Env)
    requires Orphan(s, h) && h !in s.denied && s.deniedLock.None? && s.indexLock.None? && IsValidHash(h)
    requires t in s.tasks
    ensures s.tasks[t] == Serve(h, GatewayHead, ServeCheck) ==>
              Solo(s, t, env, 2) == Goto(s, t, Serve(h, GatewayHead, Served(Length(s.index[h]))))
    ensures s.tasks[t] == Serve(h, GatewayGet, ServeCheck) ==>
              Solo(s, t, env, 3) == Goto(s, t, Serve(h, GatewayGet, Served(Missing)))
  {
    hide Solo, IsValidHash, Sha256Hex;
    SoloAppend(s, t, env, 1, 1);
    SoloAppend(s, t, env, 2, 1);
    if s.tasks[t] == Serve(h, GatewayHead, ServeCheck) {
      ServeSteps(s, t, h, GatewayHead, ServeCheck, env);
      ServeSteps(Goto(s, t, Serve(h, GatewayHead, ServeHas)), t, h, GatewayHead, ServeHas, env);
    } else if s.tasks[t] == Serve(h, GatewayGet, ServeCheck) {
      var s1, s2 := Goto(s, t, Serve(h, GatewayGet, ServeHas)), Goto(s, t, Serve(h, GatewayGet, ServeRead));
      ServeSteps(s, t, h, GatewayGet, ServeCheck, env);
      ServeSteps(s1, t, h, GatewayGet, ServeHas, env);
      ServeSteps(s2, t, h, GatewayGet, ServeRead, env);
      assert Solo(s, t, env, 2) == s2;
    }
  }
}
