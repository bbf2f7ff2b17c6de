/** A handler dropped in the middle of a denylist rewrite, as a server does when its client has gone
    away: the lock is free again and nothing is rolled back, while the disk call it was waiting for
    goes on by itself. What a single drop does to the denylist, what the call left behind can do to the
    next rewrite, and what puts things right. (Which runs stay in order is `DenylistInOrderIff`.) */
module Cancellation {
  import opened Text
  import opened Hashes
  import opened Denylist
  import opened Disks
  import opened Operations
  import opened StoreSteps
  import opened StoreInvariants
  import opened Alone
  import opened Takedown

  /** After dropping a handler the free list and its file still agree exactly when the handler was not
      in the middle of a rewrite. */
  lemma DropKeepsOrderIff(s: State, t: nat)
    requires LocksMatch(s) && FileFollowsSet(s, Equal) && t in s.tasks
    ensures OrderNow(Dropped(s, t)) <==> !MidRewrite(s.tasks[t])
  {
    hide Persisted, IsCanonical, Parse;
    if MidRewrite(s.tasks[t]) {
      DropLeavesChangeBehind(s, t);
    } else {
      DropKeepsFile(s, t, Equal);
    }
  }

  /** The two steps the call left behind can still take. */
  ghost function Leftover(s: State, t: nat, c1: Choice, c2: Choice): State {
    Next(Next(s, Run(t, c1)), Run(t, c2))
  }

  lemma LeftoverOf(s: State, t: nat, job: Job, c1: Choice, c2: Choice)
    requires t in s.tasks && s.tasks[t] == Detached(job) && ListJob(s.tasks[t])
    ensures var s' := Leftover(s, t, c1, c2);
            && s'.denied == s.denied && s'.deniedLock == s.deniedLock
            && s'.disk.denyFile == if job.RenameList? && c1.ok && s.disk.denyTmp.Some? then s.disk.denyTmp else s.disk.denyFile
  {
    hide PutStep, ListStep, PurgeStep, IngestStep, ServeStep;
  }

  /** Left to itself, the call makes up for the drop exactly when it was the rename, and works. */
  lemma LeftoverHealsIff(s: State, t: nat, c1: Choice, c2: Choice)
    requires LocksMatch(s) && FileFollowsSet(s, Equal) && t in s.tasks && MidRewrite(s.tasks[t])
    ensures var s' := Leftover(Dropped(s, t), t, c1, c2);
            Persisted(s'.disk) == s'.denied <==> s.tasks[t].list.ListRename? && c1.ok
  {
    DropLeavesChangeBehind(s, t);
    HolderKnows(s, t, Equal);
    LeftoverOf(Dropped(s, t), t, InFlight(s.tasks[t]).value, c1, c2);
    hide Leftover, Parse, IsCanonical, LocksMatch, FileFollowsSet, BeforeChange;
  }

  lemma RetryCommits(s: State, t: nat, u: nat, h: string, c: Choice)
    requires t in s.tasks && s.tasks[t].Detached? && u in s.tasks && s.tasks[u] == Relist(h, true, ListStart)
    requires s.deniedLock.None? && h in s.denied
    ensures Commits(s, u, c, h) && Step(s, u, c) == Goto(s, u, Purge(h, PurgeRemove))
  {
    RelistSteps(s, u, c);
  }

  /** A deny dropped in the middle of its rewrite, then asked for again: the second one finds the hash
      in the set, writes nothing and reports success. At that moment the file does not have the hash,
      and if the process ends the next open does not know it. Once the leftover call is through, the
      file has the hash exactly when that call was the rename, and worked. */
  lemma RetriedDenyIsPersistedIff(s: State, t: nat, u: nat, c: Choice, c1: Choice, c2: Choice,
                                  unsized: set<string>, stuck: set<string>)
    requires LocksMatch(s) && FileFollowsSet(s, Equal) && t != u
    requires t in s.tasks && MidRewrite(s.tasks[t]) && s.tasks[t].adding
    requires u in s.tasks && s.tasks[u] == Relist(s.tasks[t].h, true, ListStart)
    ensures var h, dropped := s.tasks[t].h, Dropped(s, t);
            var retried := Step(dropped, u, c);
            && Commits(dropped, u, c, h) && h in retried.denied
            && h !in Reopened(retried, true, unsized, stuck).denied
            && (h in Persisted(Leftover(retried, t, c1, c2).disk) <==> s.tasks[t].list.ListRename? && c1.ok)
  {
    var h, dropped := s.tasks[t].h, Dropped(s, t);
    DropLeavesChangeBehind(s, t);
    HolderKnows(s, t, Equal);
    RetryCommits(dropped, t, u, h, c);
    LeftoverOf(Goto(dropped, u, Purge(h, PurgeRemove)), t, InFlight(s.tasks[t]).value, c1, c2);
    hide Leftover, Parse, IsCanonical, LocksMatch, FileFollowsSet, BeforeChange, Step, Commits;
  }

  /** What is installed is what the temporary holds by then. */
  lemma RenameOver(s: State, t: nat, u: nat, c: Choice, d: Choice)
    requires t in s.tasks && s.tasks[t] == Detached(RenameList) && c.ok && d.ok
    requires u in s.tasks && s.tasks[u].Relist? && s.tasks[u].list.ListCreate?
    ensures Persisted(Next(Next(s, Run(u, c)), Run(t, d)).disk) == Parse(c.text)
  {
    RelistSteps(s, u, c);
    hide PutStep, PurgeStep, IngestStep, ServeStep, Parse;
  }

  lemma NextRewriteBegins(s: State, u: nat, c: Choice)
    requires u in s.tasks && s.tasks[u].Relist? && s.tasks[u].list.ListStart? && Begins(s, u, c)
    ensures var s' := Next(s, Run(u, c));
            && s'.tasks == s.tasks[u := Relist(s.tasks[u].h, s.tasks[u].adding, ListCreate(PrintLines(c.order)))]
            && s'.disk == s.disk
  {
    RelistSteps(s, u, c);
    hide Step, Enumerates, PrintLines;
  }

  /** A rename left behind does not wait for the lock. A handler is dropped at its rename, the next
      deny or allow starts its own rewrite on the shared temporary, and what gets installed is whatever
      that has put there so far: any text, so any set. */
  lemma LeftoverRenameTears(s: State, t: nat, u: nat, start: Choice, create: Choice, rename: Choice)
    requires LocksMatch(s) && t in s.tasks && s.tasks[t].Relist? && s.tasks[t].list.ListRename?
    requires u in s.tasks && s.tasks[u].Relist? && s.tasks[u].list.ListStart? && Begins(Dropped(s, t), u, start)
    requires create.ok && rename.ok
    ensures var dropped := Next(s, Drop(t));
            var end := Next(Next(Next(dropped, Run(u, start)), Run(u, create)), Run(t, rename));
            Persisted(end.disk) == Parse(create.text)
  {
    NextRewriteBegins(Dropped(s, t), u, start);
    var begun := Next(Dropped(s, t), Run(u, start));
    RenameOver(begun, t, u, create, rename);
    assert Next(s, Drop(t)) == Dropped(s, t);
    hide Dropped, Parse, LocksMatch, Step;
  }

  // ---- a deny that nobody dropped

  /** The leftover of a handler dropped while it wrote the temporary. */
  ghost predicate LateWrite(s: State, t: nat, u: nat, body: string, g: string) {
    && t in s.tasks && s.tasks[t] == Detached(FillList(body))
    && u in s.tasks && s.tasks[u] == Relist(g, true, ListRename)
    && s.deniedLock == Some(u) && g in s.denied
  }

  lemma LateWriteReached(s: State, t: nat, u: nat, g: string, start: Choice, create: Choice, write: Choice)
    requires LocksMatch(s) && t in s.tasks && s.tasks[t].Relist? && s.tasks[t].list.ListWrite?
    requires u in s.tasks && s.tasks[u] == Relist(g, true, ListStart) && g !in s.denied
    requires Enumerates(start.order, s.denied + {g}) && create.ok && write.ok
    ensures var s' := Next(Next(Next(Next(s, Drop(t)), Run(u, start)), Run(u, create)), Run(u, write));
            LateWrite(s', t, u, s.tasks[t].list.body, g) && s'.denied == s.denied + {g}
  {
    assert s.deniedLock == Some(t);
    var body := PrintLines(start.order);
    var s1 := Next(s, Drop(t));
    assert s1 == Dropped(s, t) && s1.tasks[t] == Detached(FillList(s.tasks[t].list.body)) && s1.deniedLock.None?;
    hide LocksMatch, Dropped, PutStep, PurgeStep, IngestStep, ServeStep, JobStep, PrintLines, Enumerates;
    RelistSteps(s1, u, start);
    var s2 := Goto(s1, u, Relist(g, true, ListCreate(body))).(denied := s.denied + {g}, deniedLock := Some(u));
    assert Next(s1, Run(u, start)) == s2;
    RelistSteps(s2, u, create);
    var s3 := Goto(s2, u, Relist(g, true, ListWrite(body))).(disk := s2.disk.(denyTmp := Some(create.text)));
    assert Next(s2, Run(u, create)) == s3;
    RelistSteps(s3, u, write);
  }

  lemma LateWriteErases(s: State, t: nat, u: nat, body: string, g: string, fill: Choice, rename: Choice, c: Choice)
    requires LateWrite(s, t, u, body, g) && fill.ok && rename.ok
    ensures var s' := Next(Next(s, Run(t, fill)), Run(u, rename));
            Commits(s', u, c, g) && s'.denied == s.denied && Persisted(s'.disk) == Parse(body)
  {
    hide PutStep, PurgeStep, IngestStep, ServeStep, Parse;
    var s1 := Goto(s, t, Detached(Finished)).(disk := s.disk.(denyTmp := Some(body)));
    assert Next(s, Run(t, fill)) == s1;
    hide JobStep;
    RelistSteps(s1, u, rename);
    var s2 := Goto(s1, u, Relist(g, true, ListRelease)).(disk := s1.disk.(denyFile := Some(body), denyTmp := None));
    assert Next(s1, Run(u, rename)) == s2;
    RelistSteps(s2, u, c);
  }

  /** A deny that nobody dropped can succeed without being persisted. Another handler is dropped while
      it writes the temporary; the deny writes and is about to rename; the late write lands in between;
      the rename installs that. The deny reports success, and its hash is in the set but not in the
      file, so the next open does not know it. */
  lemma LateWriteUndoesDeny(s: State, t: nat, u: nat, g: string, start: Choice, create: Choice, write: Choice,
                            fill: Choice, rename: Choice, c: Choice)
    requires LocksMatch(s) && FileFollowsSet(s, Equal)
    requires t in s.tasks && s.tasks[t].Relist? && s.tasks[t].list.ListWrite?
    requires u in s.tasks && s.tasks[u] == Relist(g, true, ListStart) && g !in s.denied
    requires Enumerates(start.order, s.denied + {g}) && create.ok && write.ok && fill.ok && rename.ok
    ensures var written := Next(Next(Next(Next(s, Drop(t)), Run(u, start)), Run(u, create)), Run(u, write));
            var renamed := Next(Next(written, Run(t, fill)), Run(u, rename));
            Commits(renamed, u, c, g) && g in renamed.denied && g !in Persisted(renamed.disk)
  {
    HolderKnows(s, t, Equal);
    LateWriteReached(s, t, u, g, start, create, write);
    var written := Next(Next(Next(Next(s, Drop(t)), Run(u, start)), Run(u, create)), Run(u, write));
    hide Next, Parse, LocksMatch, FileFollowsSet, LateWrite, Commits, IsCanonical, Enumerates;
    assert written.denied == s.denied + {g};
    LateWriteErases(written, t, u, s.tasks[t].list.body, g, fill, rename, c);
  }

  // ---- putting it right

  /** The next undisturbed deny of another hash writes out everything that is in the set, whatever the
      file said before and whatever calls are left behind. */
  lemma NextDenyWritesAll(s: State, t: nat, g: string, env: Env)
    requires t in s.tasks && s.tasks[t] == Relist(g, true, ListStart) && s.deniedLock.None? && s.indexLock.None?
    requires g !in s.denied && forall h :: h in s.denied + {g} ==> IsCanonical(h)
    requires Enumerates(env(Relist(g, true, ListStart)).order, s.denied + {g})
    requires ListIo(env, g, true).write && ListIo(env, g, true).rename
    ensures var end := Solo(s, t, env, 8);
            Persisted(end.disk) == end.denied == s.denied + {g}
  {
    hide Parse, Enumerates, ListIo, Solo, Rewritten;
    DenyAlone(s, t, g, env);
    var io, end := ListIo(env, g, true), Solo(s, t, env, 8);
    var d :| Rewritten(s.disk, s.denied + {g}, io, d)
             && Snapshot(end) == AfterPurge(Snapshot(s).(disk := d, denied := s.denied + {g}), g, io.remove);
    RewriteKeepsFiles(s.disk, s.denied + {g}, io, d);
    SameFile(d, end.disk);
    hide IsCanonical, Persisted;
  }
}
