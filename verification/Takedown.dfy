/** A takedown holds. Once deny(h) has committed, and until an allow(h) takes the lock, nobody who
    checks the denylist is told about h or given its bytes, whatever else runs, fails or is dropped.
    Across crashes it holds as long as the denylist file can be read back and no rewrite of it was
    torn off. */
module Takedown {
  import opened Text
  import opened Hashes
  import opened Denylist
  import opened Disks
  import opened Operations
  import opened StoreSteps
  import opened StoreInvariants
  import opened Alone

  /** `h` is denied and no task is about to change that. */
  ghost predicate Withheld(s: State, h: string) {
    h in s.denied && forall t :: t in s.tasks && MidRewrite(s.tasks[t]) ==> s.tasks[t].h != h
  }

  /** `h` is denied in memory and in the file. */
  ghost predicate Banned(s: State, h: string) {
    Withheld(s, h) && h in Persisted(s.disk)
  }

  /** The step at which a task of deny(h) leaves the denylist stage with success. */
  ghost predicate Commits(s: State, t: nat, c: Choice, h: string) {
    && t in s.tasks && s.tasks[t].Relist? && s.tasks[t].h == h && s.tasks[t].adding
    && Step(s, t, c).tasks[t].Purge?
  }

  ghost predicate AllowTakesLock(s: State, a: Action, h: string) {
    && a.Run? && a.task in s.tasks && s.deniedLock.None?
    && s.tasks[a.task] == Relist(h, false, ListStart)
  }

  /** No allow(h) gets under way during these actions. */
  ghost predicate NeverAllowed(s: State, actions: seq<Action>, h: string)
    decreases |actions|
  {
    actions == [] || (!AllowTakesLock(s, actions[0], h) && NeverAllowed(Next(s, actions[0]), actions[1..], h))
  }

  // ---- in memory alone

  /** Whoever holds the list lock has made its change to the set. */
  ghost predicate ChangeMade(s: State) {
    forall t :: t in s.tasks && HoldsDenied(s.tasks[t]) ==> (s.tasks[t].adding <==> s.tasks[t].h in s.denied)
  }

  lemma HolderMoves(s: State, t: nat, c: Choice)
    requires t in s.tasks && s.tasks[t].Relist?
    ensures var before, s' := s.tasks[t], Step(s, t, c);
            && t in s'.tasks
            && (var after := s'.tasks[t];
                && (HoldsDenied(after) ==> HoldsDenied(before) || (before.list.ListStart? && MidRewrite(after)))
                && (before.list.ListStart? && MidRewrite(after) ==> s.deniedLock.None? && before.adding != (before.h in s.denied))
                && (HoldsDenied(before) && !HoldsDenied(after) ==>
                      before.list.ListRelease? || (after.Relist? && after.list.ListFailed?)))
  {
    RelistSteps(s, t, c);
    hide Step, Enumerates, PrintLines;
    match s.tasks[t].list
    case ListStart =>
    case ListCreate(_) =>
    case ListWrite(_) =>
    case ListRename =>
    case ListRelease =>
    case ListFailed =>
    case Allowed(_) =>
  }

  lemma CommitsFrom(s: State, t: nat, c: Choice)
    requires t in s.tasks && s.tasks[t].Relist? && s.tasks[t].adding
    requires t in Step(s, t, c).tasks && Step(s, t, c).tasks[t].Purge?
    ensures s.tasks[t].list.ListRelease? || (s.tasks[t].list.ListStart? && s.deniedLock.None? && s.tasks[t].h in s.denied)
  {
    RelistSteps(s, t, c);
    hide Step, Enumerates, PrintLines;
    match s.tasks[t].list
    case ListStart =>
    case ListCreate(_) =>
    case ListWrite(_) =>
    case ListRename =>
    case ListRelease =>
    case ListFailed =>
    case Allowed(_) =>
  }

  lemma ListKeepsChangeMade(s: State, t: nat, c: Choice)
    requires LocksMatch(s) && ChangeMade(s) && t in s.tasks && s.tasks[t].Relist?
    ensures ChangeMade(Step(s, t, c))
  {
    ListMoves(s, t, c);
    ListChanges(s, t, c);
    assert HoldsDenied(s.tasks[t]) ==> s.deniedLock == Some(t);
    assert forall u :: u in s.tasks && HoldsDenied(s.tasks[u]) ==> s.deniedLock == Some(u);
    HolderMoves(s, t, c);
    hide Step, LocksMatch;
  }

  lemma ChangeMadeStep(s: State, a: Action)
    requires LocksMatch(s) && ChangeMade(s)
    ensures ChangeMade(Next(s, a))
  {
    hide PutStep, ListStep, PurgeStep, IngestStep, ServeStep, JobStep;
    match a
    case Run(t, c) =>
      if t in s.tasks {
        match s.tasks[t]
        case Relist(_, _, _) => ListKeepsChangeMade(s, t, c);
        case Put(_, _, _) => PutMoves(s, t, c);
        case Purge(_, _) => PurgeMoves(s, t, c);
        case Detached(_) => JobMoves(s, t, c);
        case _ => ReaderMoves(s, t, c);
      }
    case _ =>
  }

  lemma {:induction false} ChangeMadeAlways(s: State, actions: seq<Action>)
    requires LocksMatch(s) && ChangeMade(s)
    ensures LocksMatch(Exec(s, actions)) && ChangeMade(Exec(s, actions))
    decreases |actions|
  {
    hide Next, LocksMatch, ChangeMade;
    if actions != [] {
      LocksMatchStep(s, actions[0]);
      ChangeMadeStep(s, actions[0]);
      ChangeMadeAlways(Next(s, actions[0]), actions[1..]);
    }
  }

  lemma CommitWithholds(s: State, t: nat, c: Choice, h: string)
    requires LocksMatch(s) && ChangeMade(s) && Commits(s, t, c, h)
    ensures Withheld(Step(s, t, c), h)
  {
    ListMoves(s, t, c);
    ListChanges(s, t, c);
    CommitsFrom(s, t, c);
    assert forall u :: u in s.tasks && MidRewrite(s.tasks[u]) ==> s.deniedLock == Some(u);
    assert s.tasks[t].list.ListRelease? ==> s.deniedLock == Some(t);
    hide Step, LocksMatch;
  }

  lemma ListWithholds(s: State, t: nat, c: Choice, h: string)
    requires LocksMatch(s) && Withheld(s, h) && t in s.tasks && s.tasks[t].Relist?
    requires !AllowTakesLock(s, Run(t, c), h)
    ensures Withheld(Step(s, t, c), h)
  {
    ListMoves(s, t, c);
    ListChanges(s, t, c);
    HolderMoves(s, t, c);
    hide Step, LocksMatch;
  }

  lemma WithheldStep(s: State, a: Action, h: string)
    requires LocksMatch(s) && Withheld(s, h) && !AllowTakesLock(s, a, h) && !a.CrashAndOpen?
    ensures Withheld(Next(s, a), h)
  {
    hide PutStep, ListStep, PurgeStep, IngestStep, ServeStep, JobStep;
    match a
    case Run(t, c) =>
      if t in s.tasks {
        match s.tasks[t]
        case Relist(_, _, _) => ListWithholds(s, t, c, h);
        case Put(_, _, _) => PutMoves(s, t, c);
        case Purge(_, _) => PurgeMoves(s, t, c);
        case Detached(_) => JobMoves(s, t, c);
        case _ => ReaderMoves(s, t, c);
      }
    case _ =>
  }

  ghost predicate NoCrash(actions: seq<Action>) {
    forall a :: a in actions ==> !a.CrashAndOpen?
  }

  /** Within one life of the process, neither dropped handlers nor a lost file can undo a takedown. */
  lemma {:induction false} WithheldPersists(s: State, actions: seq<Action>, h: string)
    requires LocksMatch(s) && Withheld(s, h) && NeverAllowed(s, actions, h) && NoCrash(actions)
    ensures LocksMatch(Exec(s, actions)) && h in Exec(s, actions).denied
    decreases |actions|
  {
    hide Next, LocksMatch;
    if actions != [] {
      assert actions[0] in actions;
      LocksMatchStep(s, actions[0]);
      WithheldStep(s, actions[0], h);
      WithheldPersists(Next(s, actions[0]), actions[1..], h);
    }
  }

  // ---- in memory and on disk

  lemma CommitBans(s: State, t: nat, c: Choice, h: string)
    requires LocksMatch(s) && ChangeMade(s) && FileFollowsSet(s, Covers) && Commits(s, t, c, h)
    ensures Banned(Step(s, t, c), h)
  {
    CommitWithholds(s, t, c, h);
    hide Parse, IsCanonical, AddersCanonical, NoListJobs, Withheld;
    RelistSteps(s, t, c);
    if HoldsDenied(s.tasks[t]) {
      HolderKnows(s, t, Covers);
    }
    hide Step, LocksMatch, PrintLines, Enumerates;
  }

  /** The file changes when a rewrite is renamed into place, and says what the set says then. */
  lemma ListKeepsEntry(s: State, t: nat, c: Choice, h: string)
    requires LocksMatch(s) && FileFollowsSet(s, Covers) && t in s.tasks && s.tasks[t].Relist?
    requires h in s.denied && h in Persisted(s.disk)
    ensures h in Persisted(Step(s, t, c).disk)
  {
    if s.tasks[t].list.ListRename? && c.ok {
      RenameKeepsFile(s, t, c, Covers);
    } else {
      RelistSteps(s, t, c);
      hide Step, LocksMatch, FileFollowsSet, PrintLines, Enumerates, Parse;
    }
  }

  lemma EntryStep(s: State, a: Action, h: string)
    requires LocksMatch(s) && FileFollowsSet(s, Covers) && h in s.denied && h in Persisted(s.disk)
    ensures h in Persisted(Next(s, a).disk)
  {
    hide PutStep, ListStep, PurgeStep, IngestStep, ServeStep, JobStep, Parse;
    match a
    case Run(t, c) =>
      if t in s.tasks {
        match s.tasks[t]
        case Relist(_, _, _) => ListKeepsEntry(s, t, c, h);
        case Put(_, _, _) => PutMoves(s, t, c);
        case Purge(_, _) => PurgeMoves(s, t, c);
        case Detached(_) => JobMoves(s, t, c);
        case _ => ReaderMoves(s, t, c);
      }
    case _ =>
  }

  lemma BanStep(s: State, a: Action, h: string)
    requires LocksMatch(s) && FileFollowsSet(s, Covers) && Banned(s, h)
    requires !AllowTakesLock(s, a, h) && (a.CrashAndOpen? ==> a.readable)
    ensures Banned(Next(s, a), h)
  {
    assert h in s.denied;
    hide Next, Withheld, LocksMatch, FileFollowsSet, Persisted;
    EntryStep(s, a, h);
    if a.CrashAndOpen? {
      ReopenWithholds(s, a, h);
    } else {
      WithheldStep(s, a, h);
    }
  }

  lemma ReopenWithholds(s: State, a: Action, h: string)
    requires a.CrashAndOpen? && a.readable && h in Persisted(s.disk)
    ensures Withheld(Next(s, a), h)
  {
    hide Step, Persisted;
  }

  lemma {:induction false} BanPersists(s: State, actions: seq<Action>, h: string)
    requires LocksMatch(s) && FileFollowsSet(s, Covers) && Banned(s, h)
    requires NeverAllowed(s, actions, h) && AllReadable(actions) && NoTornRewrite(s, actions)
    ensures Banned(Exec(s, actions), h)
    ensures LocksMatch(Exec(s, actions)) && FileFollowsSet(Exec(s, actions), Covers)
    decreases |actions|
  {
    hide Next, LocksMatch, FileFollowsSet, Banned;
    if actions != [] {
      assert actions[0] in actions;
      LocksMatchStep(s, actions[0]);
      FileFollowsSetStep(s, actions[0], Covers);
      BanStep(s, actions[0], h);
      BanPersists(Next(s, actions[0]), actions[1..], h);
    }
  }

  /** `h` is banned at every moment of a run. */
  ghost predicate StaysBanned(s: State, actions: seq<Action>, h: string)
    decreases |actions|
  {
    Banned(s, h) && (actions != [] ==> StaysBanned(Next(s, actions[0]), actions[1..], h))
  }

  /** A ban holds at every moment of a run exactly when every reopen in it can read the file. */
  lemma {:induction false} BanHoldsIff(s: State, actions: seq<Action>, h: string)
    requires LocksMatch(s) && FileFollowsSet(s, Covers) && Banned(s, h)
    requires NeverAllowed(s, actions, h) && NoTornRewrite(s, actions)
    ensures StaysBanned(s, actions, h) <==> AllReadable(actions)
    decreases |actions|
  {
    hide Next, LocksMatch, FileFollowsSet, Banned;
    if actions != [] {
      var a, rest := actions[0], actions[1..];
      assert forall x :: x in actions <==> x == a || x in rest;
      if a.CrashAndOpen? && !a.readable {
        UnreadableForgets(s, a, h);
        assert a in actions;
        assert !StaysBanned(Next(s, a), rest, h);
      } else {
        LocksMatchStep(s, a);
        FileFollowsSetStep(s, a, Covers);
        BanStep(s, a, h);
        BanHoldsIff(Next(s, a), rest, h);
      }
    }
  }

  lemma UnreadableForgets(s: State, a: Action, h: string)
    requires a.CrashAndOpen? && !a.readable
    ensures Next(s, a).denied == {} && !Banned(Next(s, a), h)
  {
  }

  // ---- what is answered

  lemma AnswerStep(s: State, u: nat, a: Action)
    requires LocksMatch(s) && u in s.tasks && s.tasks[u].Serve? && s.tasks[u].serve.Served?
    ensures !a.CrashAndOpen? ==> u in Next(s, a).tasks && Next(s, a).tasks[u] == s.tasks[u]
    ensures a.CrashAndOpen? ==> Next(s, a).tasks == map[] && Next(s, a).nextId == s.nextId
  {
    hide PutStep, ListStep, PurgeStep, IngestStep, JobStep;
    match a
    case Run(t, c) =>
      if t in s.tasks && t != u {
        hide Step;
        StepMoves(s, t, c);
      }
    case _ =>
  }

  /** An answered query stays answered the same way. */
  lemma {:induction false} AnswerIsFinal(s: State, u: nat, actions: seq<Action>)
    requires LocksMatch(s) && u in s.tasks && s.tasks[u].Serve? && s.tasks[u].serve.Served?
    ensures u in Exec(s, actions).tasks ==> Exec(s, actions).tasks[u] == s.tasks[u]
    decreases |actions|
  {
    hide Next;
    if actions != [] {
      LocksMatchStep(s, actions[0]);
      AnswerStep(s, u, actions[0]);
      if actions[0].CrashAndOpen? {
        GoneStaysGone(Next(s, actions[0]), u, actions[1..]);
      } else {
        AnswerIsFinal(Next(s, actions[0]), u, actions[1..]);
      }
    }
  }

  lemma {:induction false} GoneStaysGone(s: State, u: nat, actions: seq<Action>)
    requires LocksMatch(s) && u < s.nextId && u !in s.tasks
    ensures u !in Exec(s, actions).tasks
    decreases |actions|
  {
    hide Step;
    if actions != [] {
      LocksMatchStep(s, actions[0]);
      if actions[0].Run? && actions[0].task in s.tasks {
        StepMoves(s, actions[0].task, actions[0].choice);
      }
      GoneStaysGone(Next(s, actions[0]), u, actions[1..]);
    }
  }

  lemma CheckRefuses(s: State, u: nat, c: Choice, h: string)
    requires h in s.denied
    requires u in s.tasks && s.tasks[u].Serve? && s.tasks[u].h == h && s.tasks[u].serve.ServeCheck?
    ensures Step(s, u, c) == if s.deniedLock.Some? then s else Goto(s, u, Serve(h, s.tasks[u].query, Served(Refused)))
    ensures Step(s, u, c) == Next(s, Run(u, c))
  {
    hide PutStep, ListStep, PurgeStep, IngestStep;
  }

  /** The takedown theorem. `before` leads to the step at which deny(h) commits, `window` contains
      no allow(h), the check of query `u` falls at its end, and `after` is whatever comes later. The
      check can only refuse (or still be waiting for the lock), and the refusal is the final answer:
      no bytes and no length of h come back. If the window spans a crash, its reopens must be able to
      read the file and no handler may have been dropped in the middle of a rewrite. */
  lemma TakedownHolds(s0: State, readable: bool, before: seq<Action>, t: nat, c: Choice, h: string,
                      window: seq<Action>, u: nat, cu: Choice, after: seq<Action>)
    requires JustOpened(s0, readable)
    requires Commits(Exec(s0, before), t, c, h)
    requires NeverAllowed(Step(Exec(s0, before), t, c), window, h)
    requires NoCrash(window) || (&& AllReadable(window) && NoTornRewrite(s0, before)
                                 && NoTornRewrite(Step(Exec(s0, before), t, c), window))
    requires var s := Exec(Step(Exec(s0, before), t, c), window);
             u in s.tasks && s.tasks[u].Serve? && s.tasks[u].h == h && s.tasks[u].serve.ServeCheck?
    ensures var s := Exec(Step(Exec(s0, before), t, c), window);
            var checked := Step(s, u, cu);
            && (s.deniedLock.None? ==> checked.tasks[u] == Serve(h, s.tasks[u].query, Served(Refused)))
            && (s.deniedLock.Some? ==> checked == s)
            && (s.deniedLock.None? && u in Exec(checked, after).tasks ==>
                  Exec(checked, after).tasks[u] == Serve(h, s.tasks[u].query, Served(Refused)))
  {
    hide Exec, Step, LocksMatch, FileFollowsSet, Withheld, ChangeMade, NeverAllowed, NoTornRewrite;
    OpenedIsConsistent(s0, readable);
    var s1 := Exec(s0, before);
    var s2 := Step(s1, t, c);
    assert s2 == Next(s1, Run(t, c));
    DeniedAtCheck(s0, readable, before, t, c, h, window);
    var s := Exec(s2, window);
    CheckRefuses(s, u, cu, h);
    if s.deniedLock.None? {
      LocksMatchStep(s, Run(u, cu));
      AnswerIsFinal(Step(s, u, cu), u, after);
    }
  }

  lemma DeniedAtCheck(s0: State, readable: bool, before: seq<Action>, t: nat, c: Choice, h: string, window: seq<Action>)
    requires JustOpened(s0, readable)
    requires Commits(Exec(s0, before), t, c, h)
    requires NeverAllowed(Step(Exec(s0, before), t, c), window, h)
    requires NoCrash(window) || (&& AllReadable(window) && NoTornRewrite(s0, before)
                                 && NoTornRewrite(Step(Exec(s0, before), t, c), window))
    ensures LocksMatch(Exec(Step(Exec(s0, before), t, c), window))
    ensures h in Exec(Step(Exec(s0, before), t, c), window).denied
  {
    OpenedIsConsistent(s0, readable);
    assert ChangeMade(s0);
    hide Exec, Step, LocksMatch, FileFollowsSet, Withheld, ChangeMade, NeverAllowed, NoTornRewrite, JustOpened;
    var s1 := Exec(s0, before);
    ChangeMadeAlways(s0, before);
    var s2 := Step(s1, t, c);
    assert s2 == Next(s1, Run(t, c));
    LocksMatchStep(s1, Run(t, c));
    if NoCrash(window) {
      CommitWithholds(s1, t, c, h);
      WithheldPersists(s2, window, h);
    } else {
      if readable {
        ExactIsEnough(s0, Covers);
      }
      FileFollowsSetAlways(s0, before, Covers);
      CommitBans(s1, t, c, h);
      FileFollowsSetStep(s1, Run(t, c), Covers);
      BanPersists(s2, window, h);
    }
  }

  /** The gateway and the peers look a request up under the same key, whichever way it was written. */
  lemma QueriesReachTheKey(raw: string, h: string)
    requires IsCanonical(h)
    ensures IsValidHash(Norm(raw)) ==> QueryKey(raw) == Norm(raw)
    ensures QueryKey(h) == h && QueryKey("0x" + h) == h
  {
    if IsValidHash(Norm(raw)) {
      NormTwiceOnValid(raw);
    }
    NormOfCanonical(h);
  }

  // ---- where the guarantee ends

  /** A crash keeps the ban exactly when the reopened process can read the denylist file; the load
      treats a file it cannot read as an empty one. */
  lemma ReopenKeepsBanIff(s: State, h: string, readable: bool, unsized: set<string>, stuck: set<string>)
    requires Banned(s, h)
    ensures Banned(Reopened(s, readable, unsized, stuck), h) <==> readable
  {
  }

  /** After an open that could not read the file, or a dropped handler, the next completed rewrite
      makes it say what the set says: a takedown is in the file then exactly when it is in memory. */
  lemma RewriteKeepsIff(s: State, t: nat, c: Choice, h: string, claim: Claim)
    requires LocksMatch(s) && FileFollowsSet(s, claim)
    requires t in s.tasks && s.tasks[t].Relist? && s.tasks[t].list.ListRename? && c.ok
    ensures h in Persisted(Step(s, t, c).disk) <==> h in s.denied
  {
    RenameKeepsFile(s, t, c, claim);
  }

  /** One unreadable open and one deny of another hash: every earlier takedown is gone from the file,
      and an open that can read it again does not bring them back. */
  lemma UnreadableOpenErases(s: State, g: string, env: Env, unsized: set<string>, stuck: set<string>)
    requires IsCanonical(g) && Enumerates(env(Relist(g, true, ListStart)).order, {g})
    requires ListIo(env, g, true).write && ListIo(env, g, true).rename
    ensures var reopened := Next(s, CrashAndOpen(false, unsized, stuck));
            var end := Solo(Next(reopened, SpawnDeny(g)), reopened.nextId, env, 8);
            Persisted(end.disk) == {g} == Reopened(end, true, {}, {}).denied
  {
    hide Parse, Enumerates, ListIo, Solo, Rewritten;
    NormOfCanonical(g);
    var reopened := Next(s, CrashAndOpen(false, unsized, stuck));
    var asked := Next(reopened, SpawnDeny(g));
    var t := reopened.nextId;
    var end := Solo(asked, t, env, 8);
    assert asked.tasks[t] == Relist(g, true, ListStart) && asked.denied == {};
    assert {} + {g} == {g};
    DenyAlone(asked, t, g, env);
    var d :| Rewritten(asked.disk, {} + {g}, ListIo(env, g, true), d)
             && Snapshot(end) == AfterPurge(Snapshot(asked).(disk := d, denied := {} + {g}), g, ListIo(env, g, true).remove);
    RewriteKeepsFiles(asked.disk, {g}, ListIo(env, g, true), d);
  }

  /** A file that could not be read at open and a blob whose removal had failed: the gateway hands
      out the banned bytes again. */
  lemma UnreadableDenylistServesAgain(s: State, h: string, c: Choice)
    requires Banned(s, h) && IsCanonical(h)
    requires h in s.disk.bins && Sha256Hex(s.disk.bins[h]) == h && c.ok
    ensures var u := s.nextId;
            var end := Exec(s, [CrashAndOpen(false, {}, {}), SpawnServe(h, GatewayGet), Run(u, c), Run(u, c), Run(u, c)]);
            u in end.tasks && end.tasks[u] == Serve(h, GatewayGet, Served(Body(s.disk.bins[h])))
  {
    hide Next;
    var r := Run(s.nextId, c);
    RevivedIsServed(s, h, c);
    ExecFive(s, CrashAndOpen(false, {}, {}), SpawnServe(h, GatewayGet), r, r, r);
  }

  lemma RevivedIsServed(s: State, h: string, c: Choice)
    requires IsCanonical(h) && h in s.disk.bins && Sha256Hex(s.disk.bins[h]) == h && c.ok
    ensures var r := Run(s.nextId, c);
            var end := Next(Next(Next(Next(Next(s, CrashAndOpen(false, {}, {})), SpawnServe(h, GatewayGet)), r), r), r);
            s.nextId in end.tasks && end.tasks[s.nextId] == Serve(h, GatewayGet, Served(Body(s.disk.bins[h])))
  {
    hide Next;
    ReopenRevives(s, h);
    var s1 := Next(s, CrashAndOpen(false, {}, {}));
    QuerySpawns(s1, h);
    ServeRuns(Next(s1, SpawnServe(h, GatewayGet)), s.nextId, h, c);
  }

  lemma QuerySpawns(s: State, h: string)
    requires IsCanonical(h)
    ensures Next(s, SpawnServe(h, GatewayGet)) == Spawn(s, Serve(h, GatewayGet, ServeCheck))
  {
    NormOfCanonical(h);
  }

  lemma ReopenRevives(s: State, h: string)
    requires IsCanonical(h) && h in s.disk.bins
    ensures var s' := Next(s, CrashAndOpen(false, {}, {}));
            && h in s'.index && h !in s'.denied && h in s'.disk.bins && s'.disk.bins[h] == s.disk.bins[h]
            && s'.deniedLock.None? && s'.indexLock.None? && s'.nextId == s.nextId
  {
  }

  /** An undisturbed GET of an indexed, undenied blob returns it in three steps. */
  lemma ServeRuns(s: State, u: nat, h: string, c: Choice)
    requires u in s.tasks && s.tasks[u] == Serve(h, GatewayGet, ServeCheck) && c.ok
    requires s.deniedLock.None? && s.indexLock.None? && h !in s.denied && h in s.index && IsValidHash(h)
    requires h in s.disk.bins && Sha256Hex(s.disk.bins[h]) == h
    ensures var r := Run(u, c);
            var end := Next(Next(Next(s, r), r), r);
            u in end.tasks && end.tasks[u] == Serve(h, GatewayGet, Served(Body(s.disk.bins[h])))
  {
    hide PutStep, ListStep, PurgeStep, IngestStep, JobStep, Sha256Hex, IsValidHash;
    var r := Run(u, c);
    assert Next(s, r) == Goto(s, u, Serve(h, GatewayGet, ServeHas));
    assert Next(Next(s, r), r) == Goto(s, u, Serve(h, GatewayGet, ServeRead));
  }

  // ---- storing denied content

  /** A put of `h` that has already passed its own denylist check. */
  predicate PastCheck(task: Task, h: string) {
    task.Put? && task.h == h && !task.put.PutCheck? && !task.put.PutDone?
  }

  ghost predicate NonePastCheck(s: State, h: string) {
    forall t :: t in s.tasks ==> !PastCheck(s.tasks[t], h)
  }

  lemma CleanRun(s: State, t: nat, c: Choice, h: string)
    requires LocksMatch(s) && h in s.denied && NonePastCheck(s, h) && t in s.tasks
    ensures NonePastCheck(Step(s, t, c), h)
    ensures h !in s.index ==> h !in Step(s, t, c).index
    ensures h !in s.disk.bins ==> h !in Step(s, t, c).disk.bins
  {
    hide PutStep, ListStep, PurgeStep, IngestStep, ServeStep, JobStep;
    StepMoves(s, t, c);
    match s.tasks[t]
    case Put(_, _, _) => CleanPut(s, t, c, h);
    case Relist(_, _, _) => ListMoves(s, t, c);
    case Purge(_, _) => PurgeMoves(s, t, c);
    case Detached(_) => JobMoves(s, t, c);
    case _ => ReaderMoves(s, t, c);
  }

  lemma CleanPut(s: State, t: nat, c: Choice, h: string)
    requires t in s.tasks && s.tasks[t].Put? && h in s.denied && !PastCheck(s.tasks[t], h)
    requires OwnsItsLocks(s, t)
    ensures t in Step(s, t, c).tasks && !PastCheck(Step(s, t, c).tasks[t], h)
    ensures h !in s.index ==> h !in Step(s, t, c).index
    ensures h !in s.disk.bins ==> h !in Step(s, t, c).disk.bins
  {
    hide ListStep, PurgeStep, IngestStep, ServeStep, JobStep;
    match s.tasks[t].put
    case PutCheck =>
    case PutRename =>
    case PutInsert =>
    case PutDone(_) =>
    case _ => PutMoves(s, t, c);
  }

  /** With no such put in flight, a banned hash is neither indexed again nor written to disk again. */
  lemma CleanStep(s: State, a: Action, h: string)
    requires LocksMatch(s) && Banned(s, h) && NonePastCheck(s, h)
    requires a.CrashAndOpen? ==> a.readable
    ensures NonePastCheck(Next(s, a), h)
    ensures h !in s.index ==> h !in Next(s, a).index
    ensures h !in s.disk.bins ==> h !in Next(s, a).disk.bins
  {
    hide Step;
    match a
    case Run(t, c) =>
      if t in s.tasks {
        CleanRun(s, t, c, h);
      }
    case _ =>
  }

  lemma {:induction false} DeniedStaysOut(s: State, actions: seq<Action>, h: string)
    requires LocksMatch(s) && FileFollowsSet(s, Covers) && Banned(s, h) && NonePastCheck(s, h)
    requires NeverAllowed(s, actions, h) && AllReadable(actions) && NoTornRewrite(s, actions)
    ensures h !in s.index ==> h !in Exec(s, actions).index
    ensures h !in s.disk.bins ==> h !in Exec(s, actions).disk.bins
    decreases |actions|
  {
    hide Next;
    if actions != [] {
      assert actions[0] in actions;
      LocksMatchStep(s, actions[0]);
      FileFollowsSetStep(s, actions[0], Covers);
      BanStep(s, actions[0], h);
      CleanStep(s, actions[0], h);
      DeniedStaysOut(Next(s, actions[0]), actions[1..], h);
    }
  }

  /** A step brings a banned hash into the index exactly when it is the insertion of a put that had
      passed its check before the deny. */
  lemma IndexGainsBannedIff(s: State, a: Action, h: string)
    requires LocksMatch(s) && Banned(s, h) && h !in s.index
    requires a.CrashAndOpen? ==> a.readable
    ensures h in Next(s, a).index <==> Inserts(s, a, h)
  {
    hide PutStep, ListStep, PurgeStep, IngestStep, ServeStep, JobStep;
    match a
    case Run(t, c) =>
      if t in s.tasks {
        match s.tasks[t]
        case Put(_, _, _) => PutIndexes(s, t, c, h);
        case Relist(_, _, _) => ListMoves(s, t, c);
        case Purge(_, _) => PurgeMoves(s, t, c);
        case Detached(_) => JobMoves(s, t, c);
        case _ => ReaderMoves(s, t, c);
      }
    case _ =>
  }

  ghost predicate Inserts(s: State, a: Action, h: string) {
    && a.Run? && a.task in s.tasks && s.tasks[a.task].Put? && s.tasks[a.task].h == h
    && s.tasks[a.task].put.PutInsert? && s.indexLock.None?
  }

  lemma PutIndexes(s: State, t: nat, c: Choice, h: string)
    requires t in s.tasks && OwnsItsLocks(s, t) && s.tasks[t].Put? && h !in s.index
    ensures h in Step(s, t, c).index <==> Inserts(s, Run(t, c), h)
  {
    hide ListStep, PurgeStep, IngestStep, ServeStep, JobStep;
    match s.tasks[t].put
    case PutInsert =>
    case PutTotal(_) =>
    case _ => PutMoves(s, t, c);
  }

  /** And it brings a blob to disk exactly when it is the rename of such a put's temporary. */
  lemma DiskGainsIff(s: State, a: Action, h: string)
    requires LocksMatch(s) && h !in s.disk.bins
    ensures h in Next(s, a).disk.bins <==> Renames(s, a, h)
  {
    hide PutStep, ListStep, PurgeStep, IngestStep, ServeStep, JobStep;
    match a
    case Run(t, c) =>
      if t in s.tasks {
        match s.tasks[t]
        case Put(_, _, _) => PutReachesDisk(s, t, c, h);
        case Relist(_, _, _) => ListMoves(s, t, c);
        case Purge(_, _) => PurgeMoves(s, t, c);
        case Detached(_) => JobMoves(s, t, c);
        case _ => ReaderMoves(s, t, c);
      }
    case _ =>
  }

  ghost predicate Renames(s: State, a: Action, h: string) {
    && a.Run? && a.task in s.tasks && s.tasks[a.task].Put? && s.tasks[a.task].h == h
    && s.tasks[a.task].put.PutRename? && a.choice.ok && h in s.disk.tmps
  }

  lemma PutReachesDisk(s: State, t: nat, c: Choice, h: string)
    requires t in s.tasks && OwnsItsLocks(s, t) && s.tasks[t].Put? && h !in s.disk.bins
    ensures h in Step(s, t, c).disk.bins <==> Renames(s, Run(t, c), h)
  {
    hide ListStep, PurgeStep, IngestStep, ServeStep, JobStep;
    match s.tasks[t].put
    case PutRename =>
    case _ => PutMoves(s, t, c);
  }

  /** And such a put does land, on disk and in the index, however long ago the hash was banned. (It
      is never served, by `TakedownHolds`.) */
  lemma LatePutStillLands(s: State, t: nat, h: string, b: Bytes, env: Env)
    requires Banned(s, h) && s.indexLock.None?
    requires t in s.tasks && s.tasks[t] == Put(h, b, PutCreate)
    requires PutIo(env, h, b).write && PutIo(env, h, b).rename
    ensures var end := Solo(s, t, env, 5);
            && Banned(end, h) && end.index == s.index[h := |b|] && end.disk.bins == s.disk.bins[h := b]
            && end.tasks == s.tasks[t := Put(h, b, PutDone(true))]
  {
    hide Solo, PutIo;
    PutStores(s, t, h, b, env);
  }
}
