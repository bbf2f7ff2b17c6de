/** What every interleaving keeps: the denylist file agrees with the set, the cached total with the
    index. Both are stated for any number of tasks, any I/O failures and any crashes. */
module StoreInvariants {
  import opened Text
  import opened Hashes
  import opened Denylist
  import opened Totals
  import opened Disks
  import opened StoreSteps

  // ---- the denylist file

  /** What is claimed of the file against a set: that it is equal to it; that it contains it, as after
      an open that could not read the file; or nothing, as after a dropped handler. */
  datatype Claim = Equal | Covers | Nothing

  ghost predicate Agrees(file: set<string>, denied: set<string>, claim: Claim) {
    match claim
    case Equal => file == denied
    case Covers => denied <= file
    case Nothing => true
  }

  /** The file lags the set by the one change its rewriter is making, and by nothing else. */
  ghost predicate FileFollowsSet(s: State, claim: Claim) {
    && (forall h :: h in s.denied ==> IsCanonical(h))
    && AddersCanonical(s) && NoListJobs(s)
    && match s.deniedLock
       case None => Agrees(Persisted(s.disk), s.denied, claim)
       case Some(t) =>
         && t in s.tasks && s.tasks[t].Relist?
         && RewriteInProgress(Persisted(s.disk), s.disk.denyTmp, s.denied, s.tasks[t], claim)
  }

  ghost predicate AddersCanonical(s: State) {
    forall t :: t in s.tasks && s.tasks[t].Relist? && s.tasks[t].adding ==> IsCanonical(s.tasks[t].h)
  }

  /** No dropped handler has left a call on the denylist behind. */
  ghost predicate NoListJobs(s: State) {
    forall t :: t in s.tasks ==> !ListJob(s.tasks[t])
  }

  lemma ListKeepsOthers(s: State, t: nat, c: Choice)
    requires LocksMatch(s) && AddersCanonical(s) && NoListJobs(s) && t in s.tasks && s.tasks[t].Relist?
    ensures AddersCanonical(Step(s, t, c)) && NoListJobs(Step(s, t, c))
  {
    hide PutStep, ListStep, PurgeStep, IngestStep, ServeStep, JobStep, IsCanonical;
    ListMoves(s, t, c);
  }

  ghost predicate RewriteInProgress(file: set<string>, tmp: Option<string>, denied: set<string>, task: Task, claim: Claim)
    requires task.Relist?
  {
    var h := task.h;
    && IsCanonical(h) && task.adding == (h in denied)
    && match task.list
       case ListRelease => file == denied
       case ListCreate(body) => Agrees(file, BeforeChange(denied, h, task.adding), claim) && Parse(body) == denied
       case ListWrite(body) => Agrees(file, BeforeChange(denied, h, task.adding), claim) && Parse(body) == denied
       case ListRename =>
         && Agrees(file, BeforeChange(denied, h, task.adding), claim)
         && tmp.Some? && Parse(tmp.value) == denied
       case _ => false
  }

  ghost function BeforeChange(denied: set<string>, h: string, adding: bool): set<string> {
    if adding then denied - {h} else denied + {h}
  }

  /** Between changing the set and having the file renamed into place. */
  predicate MidRewrite(task: Task) {
    task.Relist? && (task.list.ListCreate? || task.list.ListWrite? || task.list.ListRename?)
  }

  ghost predicate AllReadable(actions: seq<Action>) {
    forall a :: a in actions && a.CrashAndOpen? ==> a.readable
  }

  predicate TearsRewrite(s: State, a: Action) {
    a.Drop? && a.task in s.tasks && MidRewrite(s.tasks[a.task])
  }

  /** No handler is dropped in the middle of a rewrite. */
  ghost predicate NoTornRewrite(s: State, actions: seq<Action>)
    decreases |actions|
  {
    actions == [] || (!TearsRewrite(s, actions[0]) && NoTornRewrite(Next(s, actions[0]), actions[1..]))
  }

  /** The step by which a deny or allow takes the lock and changes the set. */
  ghost predicate Begins(s: State, t: nat, c: Choice)
    requires t in s.tasks && s.tasks[t].Relist?
  {
    s.deniedLock.None? && s.tasks[t].adding != (s.tasks[t].h in s.denied) && Enumerates(c.order, Changed(s, t))
  }

  function Changed(s: State, t: nat): set<string>
    requires t in s.tasks && s.tasks[t].Relist?
  {
    if s.tasks[t].adding then s.denied + {s.tasks[t].h} else s.denied - {s.tasks[t].h}
  }

  lemma RelistSteps(s: State, t: nat, c: Choice)
    requires t in s.tasks && s.tasks[t].Relist?
    ensures Step(s, t, c) == ListStep(s, t, s.tasks[t].h, s.tasks[t].adding, s.tasks[t].list, c)
  {
    hide PutStep, ListStep, PurgeStep, IngestStep, ServeStep, JobStep;
  }

  /** A deny or allow changes the set when it begins, and undoes that when it fails. */
  lemma ListChanges(s: State, t: nat, c: Choice)
    requires t in s.tasks && s.tasks[t].Relist?
    ensures var before, s' := s.tasks[t], Step(s, t, c);
            && t in s'.tasks
            && (var after := s'.tasks[t];
                && (MidRewrite(after) ==> MidRewrite(before) || before.list.ListStart?)
                && s'.denied == if before.list.ListStart? && MidRewrite(after) then Changed(s, t)
                                else if MidRewrite(before) && after.Relist? && after.list.ListFailed? then
                                  BeforeChange(s.denied, before.h, before.adding)
                                else s.denied)
  {
    RelistSteps(s, t, c);
    hide Step, Enumerates, PrintLines;
    match s.tasks[t].list
    case ListStart =>
    case ListCreate(_) =>
    case ListWrite(_) =>
    case ListRename =>
    case ListRelease =>
    case ListFailed =>
    case Allowed(_) =>
  }

  /** A state in which `t` holds the list lock and whose rewrite is in order. */
  lemma HolderFollows(s: State, t: nat, claim: Claim)
    requires s.deniedLock == Some(t) && t in s.tasks && s.tasks[t].Relist? && AddersCanonical(s) && NoListJobs(s)
    requires forall h :: h in s.denied ==> IsCanonical(h)
    requires RewriteInProgress(Persisted(s.disk), s.disk.denyTmp, s.denied, s.tasks[t], claim)
    ensures FileFollowsSet(s, claim)
  {
    hide RewriteInProgress, Persisted, IsCanonical, AddersCanonical, NoListJobs;
  }

  lemma FreeFollows(s: State, claim: Claim)
    requires s.deniedLock.None? && AddersCanonical(s) && NoListJobs(s)
    requires forall h :: h in s.denied ==> IsCanonical(h)
    requires Agrees(Persisted(s.disk), s.denied, claim)
    ensures FileFollowsSet(s, claim)
  {
    hide Agrees, Persisted, IsCanonical, AddersCanonical, NoListJobs;
  }

  lemma HolderKnows(s: State, t: nat, claim: Claim)
    requires LocksMatch(s) && FileFollowsSet(s, claim) && t in s.tasks && HoldsDenied(s.tasks[t])
    ensures s.deniedLock == Some(t) && IsCanonical(s.tasks[t].h) && (forall h :: h in s.denied ==> IsCanonical(h))
    ensures RewriteInProgress(Persisted(s.disk), s.disk.denyTmp, s.denied, s.tasks[t], claim)
  {
    assert s.deniedLock == Some(t);
    hide Agrees, Persisted, IsCanonical, AddersCanonical, NoListJobs, Parse, BeforeChange, LocksMatch;
  }

  lemma BeginKeepsFile(s: State, t: nat, c: Choice, claim: Claim)
    requires LocksMatch(s) && FileFollowsSet(s, claim) && t in s.tasks
    requires s.tasks[t].Relist? && s.tasks[t].list.ListStart? && Begins(s, t, c)
    requires IsCanonical(s.tasks[t].h)
    ensures FileFollowsSet(Step(s, t, c), claim)
  {
    ListKeepsOthers(s, t, c);
    RelistSteps(s, t, c);
    hide Step, Persisted, Parse, PrintLines, IsCanonical, LocksMatch, AddersCanonical, NoListJobs;
    assert BeforeChange(Changed(s, t), s.tasks[t].h, s.tasks[t].adding) == s.denied;
    ParseOfPrint(c.order, Changed(s, t));
    hide Enumerates, BeforeChange, Agrees;
    SameFile(s.disk, Step(s, t, c).disk);
    HolderFollows(Step(s, t, c), t, claim);
  }

  lemma StartKeepsFile(s: State, t: nat, c: Choice, claim: Claim)
    requires LocksMatch(s) && FileFollowsSet(s, claim) && t in s.tasks
    requires s.tasks[t].Relist? && s.tasks[t].list.ListStart?
    ensures FileFollowsSet(Step(s, t, c), claim)
  {
    hide Persisted, PutStep, PurgeStep, IngestStep, ServeStep, JobStep, Parse, PrintLines, IsCanonical;
    hide AddersCanonical, NoListJobs, Enumerates, BeforeChange, Agrees;
    if Begins(s, t, c) {
      ListKeepsOthers(s, t, c);
      assert IsCanonical(s.tasks[t].h) by {
        StarterIsCanonical(s, t, claim);
      }
      BeginKeepsFile(s, t, c, claim);
    } else {
      ListKeepsOthers(s, t, c);
      SameFile(s.disk, Step(s, t, c).disk);
    }
  }

  lemma StarterIsCanonical(s: State, t: nat, claim: Claim)
    requires FileFollowsSet(s, claim) && t in s.tasks && s.tasks[t].Relist?
    requires s.tasks[t].adding != (s.tasks[t].h in s.denied)
    ensures IsCanonical(s.tasks[t].h)
  {
    hide IsCanonical;
  }

  lemma SameFile(d: Disk, d': Disk)
    ensures d'.denyFile == d.denyFile ==> Persisted(d') == Persisted(d)
  {
  }

  lemma CreateKeepsFile(s: State, t: nat, c: Choice, claim: Claim)
    requires LocksMatch(s) && FileFollowsSet(s, claim) && t in s.tasks
    requires s.tasks[t].Relist? && s.tasks[t].list.ListCreate?
    ensures FileFollowsSet(Step(s, t, c), claim)
  {
    ListKeepsOthers(s, t, c);
    HolderKnows(s, t, claim);
    RelistSteps(s, t, c);
    var s' := Step(s, t, c);
    SameFile(s.disk, s'.disk);
    hide Step, LocksMatch, FileFollowsSet, Parse, Persisted, IsCanonical, AddersCanonical, NoListJobs;
    if c.ok {
      HolderFollows(s', t, claim);
    } else {
      FreeFollows(s', claim);
    }
  }

  lemma WriteKeepsFile(s: State, t: nat, c: Choice, claim: Claim)
    requires LocksMatch(s) && FileFollowsSet(s, claim) && t in s.tasks
    requires s.tasks[t].Relist? && s.tasks[t].list.ListWrite?
    ensures FileFollowsSet(Step(s, t, c), claim)
  {
    ListKeepsOthers(s, t, c);
    HolderKnows(s, t, claim);
    RelistSteps(s, t, c);
    var s' := Step(s, t, c);
    SameFile(s.disk, s'.disk);
    hide Step, LocksMatch, FileFollowsSet, Parse, Persisted, IsCanonical, AddersCanonical, NoListJobs;
    if c.ok {
      HolderFollows(s', t, claim);
    } else {
      FreeFollows(s', claim);
    }
  }

  lemma FailedRenameKeepsFile(s: State, t: nat, c: Choice, claim: Claim)
    requires LocksMatch(s) && FileFollowsSet(s, claim) && t in s.tasks && !c.ok
    requires s.tasks[t].Relist? && s.tasks[t].list.ListRename?
    ensures FileFollowsSet(Step(s, t, c), claim)
  {
    ListKeepsOthers(s, t, c);
    HolderKnows(s, t, claim);
    RelistSteps(s, t, c);
    var s' := Step(s, t, c);
    SameFile(s.disk, s'.disk);
    hide Step, LocksMatch, FileFollowsSet, Parse, Persisted, IsCanonical, AddersCanonical, NoListJobs;
    FreeFollows(s', claim);
  }

  /** The rename installs exactly the set in memory, even where an open had missed older entries. */
  lemma RenameKeepsFile(s: State, t: nat, c: Choice, claim: Claim)
    requires LocksMatch(s) && FileFollowsSet(s, claim) && t in s.tasks && c.ok
    requires s.tasks[t].Relist? && s.tasks[t].list.ListRename?
    ensures FileFollowsSet(Step(s, t, c), Equal) && Persisted(Step(s, t, c).disk) == s.denied == Step(s, t, c).denied
  {
    ListKeepsOthers(s, t, c);
    HolderKnows(s, t, claim);
    RelistSteps(s, t, c);
    hide Step, LocksMatch, FileFollowsSet, Parse, IsCanonical, AddersCanonical, NoListJobs, BeforeChange;
    HolderFollows(Step(s, t, c), t, Equal);
  }

  lemma ExactIsEnough(s: State, claim: Claim)
    requires FileFollowsSet(s, Equal)
    ensures FileFollowsSet(s, claim)
  {
    hide Persisted, Parse, IsCanonical, BeforeChange, AddersCanonical, NoListJobs;
  }

  lemma ReleaseKeepsFile(s: State, t: nat, c: Choice, claim: Claim)
    requires LocksMatch(s) && FileFollowsSet(s, claim) && t in s.tasks
    requires s.tasks[t].Relist? && (s.tasks[t].list.ListRelease? || s.tasks[t].list.ListFailed? || s.tasks[t].list.Allowed?)
    ensures FileFollowsSet(Step(s, t, c), claim)
  {
    ListKeepsOthers(s, t, c);
    SameFile(s.disk, Step(s, t, c).disk);
    assert s.tasks[t].list.ListRelease? ==> s.deniedLock == Some(t);
    hide Persisted, PutStep, PurgeStep, IngestStep, ServeStep, JobStep, Parse, IsCanonical, LocksMatch;
    hide AddersCanonical, NoListJobs, Enumerates, BeforeChange;
  }

  lemma ListKeepsFile(s: State, t: nat, c: Choice, claim: Claim)
    requires LocksMatch(s) && FileFollowsSet(s, claim) && t in s.tasks && s.tasks[t].Relist?
    ensures FileFollowsSet(Step(s, t, c), claim)
  {
    hide FileFollowsSet, LocksMatch, Step;
    match s.tasks[t].list
    case ListStart => StartKeepsFile(s, t, c, claim);
    case ListCreate(_) => CreateKeepsFile(s, t, c, claim);
    case ListWrite(_) => WriteKeepsFile(s, t, c, claim);
    case ListRename =>
      if c.ok {
        RenameKeepsFile(s, t, c, claim);
        ExactIsEnough(Step(s, t, c), claim);
      } else {
        FailedRenameKeepsFile(s, t, c, claim);
      }
    case _ => ReleaseKeepsFile(s, t, c, claim);
  }

  lemma OthersKeepFile(s: State, t: nat, c: Choice, claim: Claim)
    requires LocksMatch(s) && FileFollowsSet(s, claim) && t in s.tasks && !s.tasks[t].Relist?
    ensures FileFollowsSet(Step(s, t, c), claim)
  {
    hide PutStep, ListStep, PurgeStep, IngestStep, ServeStep, JobStep, Parse, IsCanonical, BeforeChange;
    match s.tasks[t]
    case Put(_, _, _) => PutMoves(s, t, c);
    case Purge(_, _) => PurgeMoves(s, t, c);
    case Detached(_) => JobMoves(s, t, c);
    case _ => ReaderMoves(s, t, c);
  }

  lemma DropKeepsFile(s: State, t: nat, claim: Claim)
    requires LocksMatch(s) && FileFollowsSet(s, claim) && t in s.tasks && !MidRewrite(s.tasks[t])
    ensures FileFollowsSet(Dropped(s, t), claim)
  {
    hide Persisted, Parse, IsCanonical, BeforeChange;
    assert HoldsDenied(s.tasks[t]) ==> s.deniedLock == Some(t);
  }

  lemma FileFollowsSetStep(s: State, a: Action, claim: Claim)
    requires LocksMatch(s) && FileFollowsSet(s, claim) && !TearsRewrite(s, a)
    requires claim.Equal? && a.CrashAndOpen? ==> a.readable
    ensures FileFollowsSet(Next(s, a), claim)
  {
    hide Step, Dropped;
    match a
    case Run(t, c) =>
      if t in s.tasks {
        if s.tasks[t].Relist? {
          ListKeepsFile(s, t, c, claim);
        } else {
          OthersKeepFile(s, t, c, claim);
        }
      }
    case Drop(t) =>
      if t in s.tasks {
        DropKeepsFile(s, t, claim);
      }
    case CrashAndOpen(_, _, _) => PersistedIsCanonical(s.disk);
    case SpawnDeny(raw) =>
      if IsValidHash(Norm(raw)) {
        ValidNormIsCanonical(raw);
      }
    case _ =>
  }

  lemma {:induction false} FileFollowsSetAlways(s: State, actions: seq<Action>, claim: Claim)
    requires LocksMatch(s) && FileFollowsSet(s, claim) && NoTornRewrite(s, actions)
    requires claim.Equal? ==> AllReadable(actions)
    ensures LocksMatch(Exec(s, actions)) && FileFollowsSet(Exec(s, actions), claim)
    decreases |actions|
  {
    hide Next, FileFollowsSet, LocksMatch;
    if actions != [] {
      assert actions[0] in actions;
      LocksMatchStep(s, actions[0]);
      FileFollowsSetStep(s, actions[0], claim);
      FileFollowsSetAlways(Next(s, actions[0]), actions[1..], claim);
    }
  }

  lemma OpenedIsConsistent(s: State, readable: bool)
    requires JustOpened(s, readable)
    ensures LocksMatch(s) && FileFollowsSet(s, if readable then Equal else Covers) && TotalFollowsIndex(s)
  {
    PersistedIsCanonical(s.disk);
  }

  /** Lock discipline of the denylist: whenever the lock is free the file on disk parses to exactly
      the set in memory, and at every other moment to that set with at most the one change in
      flight not yet applied. A crash therefore reloads the set from before or from after that
      change, and no other takedown is lost. Where some open could not read the file, it still
      contains everything the set does. */
  lemma DenylistNeverLosesATakedown(s0: State, readable: bool, actions: seq<Action>)
    requires JustOpened(s0, readable) && NoTornRewrite(s0, actions)
    ensures var s := Exec(s0, actions);
            && (s.deniedLock.None? ==> s.denied <= Persisted(s.disk))
            && (s.deniedLock.Some? ==>
                  var t := s.deniedLock.value;
                  && t in s.tasks && s.tasks[t].Relist?
                  && BeforeChange(s.denied, s.tasks[t].h, s.tasks[t].adding) - {s.tasks[t].h} <= Persisted(s.disk))
    ensures var s := Exec(s0, actions);
            readable && AllReadable(actions) ==>
              && (s.deniedLock.None? ==> Persisted(s.disk) == s.denied)
              && (s.deniedLock.Some? ==>
                    var t := s.deniedLock.value;
                    && t in s.tasks && s.tasks[t].Relist?
                    && (|| Persisted(s.disk) == s.denied
                        || Persisted(s.disk) == BeforeChange(s.denied, s.tasks[t].h, s.tasks[t].adding)))
  {
    hide Exec, Persisted, JustOpened, NoTornRewrite, LocksMatch, IsCanonical, Parse;
    OpenedIsConsistent(s0, readable);
    if readable {
      ExactIsEnough(s0, Covers);
    }
    FileFollowsSetAlways(s0, actions, Covers);
    if readable && AllReadable(actions) {
      FileFollowsSetAlways(s0, actions, Equal);
    }
  }

  // ---- when it stays in order

  /** If nobody is changing the list, the file says what the set says. */
  ghost predicate OrderNow(s: State) {
    s.deniedLock.None? ==> Persisted(s.disk) == s.denied
  }

  ghost predicate InOrder(s: State, actions: seq<Action>)
    decreases |actions|
  {
    OrderNow(s) && (actions != [] ==> InOrder(Next(s, actions[0]), actions[1..]))
  }

  /** A handler dropped in the middle of a rewrite, or an open that cannot read a file with entries. */
  ghost predicate Upsets(s: State, a: Action) {
    TearsRewrite(s, a) || (a.CrashAndOpen? && !a.readable && Persisted(s.disk) != {})
  }

  ghost predicate NeverUpset(s: State, actions: seq<Action>)
    decreases |actions|
  {
    actions == [] || (!Upsets(s, actions[0]) && NeverUpset(Next(s, actions[0]), actions[1..]))
  }

  /** A dropped rewrite leaves its change in the set and not in the file. */
  lemma DropLeavesChangeBehind(s: State, t: nat)
    requires LocksMatch(s) && FileFollowsSet(s, Equal) && t in s.tasks && MidRewrite(s.tasks[t])
    ensures var h, s' := s.tasks[t].h, Dropped(s, t);
            && s'.deniedLock.None? && s'.denied == s.denied
            && Persisted(s'.disk) == BeforeChange(s.denied, h, s.tasks[t].adding)
            && (h in s'.denied <==> h !in Persisted(s'.disk))
  {
    HolderKnows(s, t, Equal);
    hide Parse, IsCanonical, LocksMatch;
  }

  lemma UnreadableOpen(s: State, a: Action)
    requires a.CrashAndOpen? && !a.readable
    ensures OrderNow(Next(s, a)) <==> Persisted(s.disk) == {}
    ensures Persisted(s.disk) == {} ==> FileFollowsSet(Next(s, a), Equal)
  {
    SameFile(s.disk, Next(s, a).disk);
    hide Parse;
  }

  lemma FollowingIsOrder(s: State)
    requires FileFollowsSet(s, Equal)
    ensures OrderNow(s)
  {
    hide Parse, IsCanonical, AddersCanonical, NoListJobs;
  }

  lemma OrderStepIff(s: State, a: Action)
    requires LocksMatch(s) && FileFollowsSet(s, Equal)
    ensures Upsets(s, a) ==> !OrderNow(Next(s, a))
    ensures !Upsets(s, a) ==> FileFollowsSet(Next(s, a), Equal)
  {
    hide Step, LocksMatch, FileFollowsSet, Persisted, BeforeChange, Reopened;
    if TearsRewrite(s, a) {
      DropLeavesChangeBehind(s, a.task);
    } else if a.CrashAndOpen? && !a.readable {
      UnreadableOpen(s, a);
    } else {
      FileFollowsSetStep(s, a, Equal);
    }
  }

  /** The denylist over whole runs, exactly: file and set agree at every moment at which nobody is
      changing the list, if and only if no handler is ever dropped in the middle of a rewrite and no
      open fails to read a file that has entries. */
  lemma {:induction false} DenylistInOrderIff(s: State, actions: seq<Action>)
    requires LocksMatch(s) && FileFollowsSet(s, Equal)
    ensures InOrder(s, actions) <==> NeverUpset(s, actions)
    decreases |actions|
  {
    hide Next, LocksMatch, FileFollowsSet, Upsets, OrderNow;
    FollowingIsOrder(s);
    if actions != [] {
      OrderStepIff(s, actions[0]);
      LocksMatchStep(s, actions[0]);
      if !Upsets(s, actions[0]) {
        DenylistInOrderIff(Next(s, actions[0]), actions[1..]);
      }
    }
  }

  // ---- how it comes back in order

  ghost predicate AllCanonical(s: State) {
    (forall h :: h in s.denied ==> IsCanonical(h)) && AddersCanonical(s)
  }

  lemma ListKeepsCanonical(s: State, t: nat, c: Choice)
    requires LocksMatch(s) && AllCanonical(s) && t in s.tasks && s.tasks[t].Relist?
    requires s.tasks[t].h in s.denied || HoldsDenied(s.tasks[t]) ==> IsCanonical(s.tasks[t].h)
    ensures AllCanonical(Step(s, t, c))
  {
    ListMoves(s, t, c);
    ListChanges(s, t, c);
    hide Step, IsCanonical, LocksMatch;
  }

  /** Whoever has begun to change the list is changing a canonical hash. */
  ghost predicate HoldersCanonical(s: State) {
    forall t :: t in s.tasks && HoldsDenied(s.tasks[t]) ==> IsCanonical(s.tasks[t].h)
  }

  lemma ListKeepsHolders(s: State, t: nat, c: Choice)
    requires LocksMatch(s) && AllCanonical(s) && HoldersCanonical(s) && t in s.tasks && s.tasks[t].Relist?
    ensures HoldersCanonical(Step(s, t, c))
  {
    ListMoves(s, t, c);
    ListChanges(s, t, c);
    ListBegins(s, t, c);
    hide Step, IsCanonical, LocksMatch;
  }

  lemma ListBegins(s: State, t: nat, c: Choice)
    requires t in s.tasks && s.tasks[t].Relist?
    ensures var before, s' := s.tasks[t], Step(s, t, c);
            t in s'.tasks && HoldsDenied(s'.tasks[t]) && !HoldsDenied(before) ==> before.adding != (before.h in s.denied)
  {
    RelistSteps(s, t, c);
    hide Step, Enumerates, PrintLines;
    match s.tasks[t].list
    case ListStart =>
    case ListCreate(_) =>
    case ListWrite(_) =>
    case ListRename =>
    case ListRelease =>
    case ListFailed =>
    case Allowed(_) =>
  }

  lemma CanonicalStep(s: State, a: Action)
    requires LocksMatch(s) && AllCanonical(s) && HoldersCanonical(s)
    ensures AllCanonical(Next(s, a)) && HoldersCanonical(Next(s, a))
  {
    hide PutStep, ListStep, PurgeStep, IngestStep, ServeStep, JobStep, IsCanonical, Parse;
    match a
    case Run(t, c) =>
      if t in s.tasks {
        match s.tasks[t]
        case Relist(_, _, _) =>
          ListKeepsCanonical(s, t, c);
          ListKeepsHolders(s, t, c);
        case Put(_, _, _) => PutMoves(s, t, c);
        case Purge(_, _) => PurgeMoves(s, t, c);
        case Detached(_) => JobMoves(s, t, c);
        case _ => ReaderMoves(s, t, c);
      }
    case CrashAndOpen(_, _, _) => PersistedIsCanonical(s.disk);
    case SpawnDeny(raw) =>
      if IsValidHash(Norm(raw)) {
        ValidNormIsCanonical(raw);
      }
    case _ =>
  }

  lemma {:induction false} CanonicalAlways(s: State, actions: seq<Action>)
    requires LocksMatch(s) && AllCanonical(s) && HoldersCanonical(s)
    ensures LocksMatch(Exec(s, actions)) && AllCanonical(Exec(s, actions)) && HoldersCanonical(Exec(s, actions))
    decreases |actions|
  {
    hide Next, LocksMatch, AllCanonical, HoldersCanonical;
    if actions != [] {
      LocksMatchStep(s, actions[0]);
      CanonicalStep(s, actions[0]);
      CanonicalAlways(Next(s, actions[0]), actions[1..]);
    }
  }

  /** Recovery. Whatever was dropped or unreadable before: once nobody holds the list and no call of a
      dropped handler is left on it, the next rewrite that completes brings file and set together
      again, and from then on they stay in order exactly as `DenylistInOrderIff` says. */
  lemma DenylistRecovers(s0: State, readable: bool, before: seq<Action>, calm: seq<Action>,
                         t: nat, c: Choice, after: seq<Action>)
    requires JustOpened(s0, readable)
    requires var s1 := Exec(s0, before);
             s1.deniedLock.None? && NoListJobs(s1) && NoTornRewrite(s1, calm)
    requires var s2 := Exec(Exec(s0, before), calm);
             t in s2.tasks && s2.tasks[t].Relist? && s2.tasks[t].list.ListRename? && c.ok
    ensures var s3 := Step(Exec(Exec(s0, before), calm), t, c);
            && Persisted(s3.disk) == s3.denied
            && (InOrder(s3, after) <==> NeverUpset(s3, after))
  {
    OpenedIsConsistent(s0, readable);
    assert AllCanonical(s0) && HoldersCanonical(s0);
    hide Exec, Step, LocksMatch, JustOpened, NoTornRewrite, InOrder, NeverUpset, HoldersCanonical, NoListJobs, AddersCanonical;
    CanonicalAlways(s0, before);
    var s1 := Exec(s0, before);
    assert FileFollowsSet(s1, Nothing);
    FileFollowsSetAlways(s1, calm, Nothing);
    var s2 := Exec(s1, calm);
    RenameKeepsFile(s2, t, c, Nothing);
    assert Step(s2, t, c) == Next(s2, Run(t, c));
    LocksMatchStep(s2, Run(t, c));
    DenylistInOrderIff(Step(s2, t, c), after);
  }

  // ---- the cached total

  /** The total lags the index by the one entry the lock holder has just changed. */
  ghost predicate TotalFollowsIndex(s: State) {
    match s.indexLock
    case None => s.total == Sum(s.index)
    case Some(t) =>
      && t in s.tasks
      && match s.tasks[t]
         case Put(h, b, PutTotal(prev)) =>
           h in s.index && s.index[h] == |b| && s.total == Sum(s.index) - |b| + prev
         case Purge(_, PurgeTotal(len)) => s.total == Sum(s.index) + len
         case _ => false
  }

  ghost predicate Fits(s: State) {
    Sum(s.index) <= U64_MAX
  }

  ghost predicate AlwaysFits(s: State, actions: seq<Action>)
    decreases |actions|
  {
    Fits(s) && (actions != [] ==> AlwaysFits(Next(s, actions[0]), actions[1..]))
  }

  /** The length by which the total is off while this task holds the index lock. */
  function Owed(task: Task): int {
    match task
    case Put(_, b, PutTotal(prev)) => |b| as int - prev as int
    case Purge(_, PurgeTotal(len)) => -(len as int)
    case _ => 0
  }

  predicate LeavesDebt(s: State, a: Action) {
    a.Drop? && a.task in s.tasks && Droppable(s.tasks[a.task]) && Owed(s.tasks[a.task]) != 0
  }

  /** No handler is dropped while the total still has to be adjusted for what it did. */
  ghost predicate NoDebtLeft(s: State, actions: seq<Action>)
    decreases |actions|
  {
    actions == [] || (!LeavesDebt(s, actions[0]) && NoDebtLeft(Next(s, actions[0]), actions[1..]))
  }

  /** Dropping a task keeps the total exact exactly when the task owed it nothing. */
  lemma DropKeepsTotalIff(s: State, t: nat)
    requires LocksMatch(s) && TotalFollowsIndex(s) && t in s.tasks
    ensures TotalFollowsIndex(Dropped(s, t)) <==> Owed(s.tasks[t]) == 0
  {
    assert HoldsIndex(s.tasks[t]) ==> s.indexLock == Some(t);
  }

  lemma StepKeepsTotal(s: State, t: nat, c: Choice)
    requires LocksMatch(s) && TotalFollowsIndex(s) && Fits(s) && t in s.tasks
    ensures TotalFollowsIndex(Step(s, t, c))
  {
    hide ListStep, IngestStep, ServeStep, JobStep;
    match s.tasks[t]
    case Put(h, b, PutInsert) => SumUpdate(s.index, h, |b|);
    case Put(h, b, PutTotal(prev)) => SumRemove(s.index, h);
    case Put(_, _, _) => PutMoves(s, t, c);
    case Purge(h, PurgeIndex) =>
      if h in s.index {
        SumRemove(s.index, h);
      }
    case Purge(_, PurgeTotal(_)) =>
    case Purge(_, _) => PurgeMoves(s, t, c);
    case Relist(_, _, _) => ListMoves(s, t, c);
    case Detached(_) => JobMoves(s, t, c);
    case _ => ReaderMoves(s, t, c);
  }

  lemma TotalFollowsIndexStep(s: State, a: Action)
    requires LocksMatch(s) && TotalFollowsIndex(s) && Fits(s) && Fits(Next(s, a)) && !LeavesDebt(s, a)
    ensures TotalFollowsIndex(Next(s, a))
  {
    hide Step, Dropped;
    match a
    case Run(t, c) =>
      if t in s.tasks {
        StepKeepsTotal(s, t, c);
      }
    case Drop(t) =>
      if t in s.tasks {
        DropKeepsTotalIff(s, t);
      }
    case CrashAndOpen(_, _, _) =>
    case SpawnPut(_, _) =>
    case SpawnIngest(_) =>
    case SpawnDeny(_) =>
    case SpawnAllow(_) =>
    case SpawnServe(_, _) =>
  }

  /** The cached total is exact under every interleaving: with any number of concurrent puts and
      denies, whenever the index lock is free the total is the sum of the index, provided that sum
      has always fitted 64 bits and no handler was dropped owing the total. */
  lemma {:induction false} TotalIsExact(s: State, actions: seq<Action>)
    requires LocksMatch(s) && TotalFollowsIndex(s) && AlwaysFits(s, actions) && NoDebtLeft(s, actions)
    ensures LocksMatch(Exec(s, actions)) && TotalFollowsIndex(Exec(s, actions))
    ensures Exec(s, actions).indexLock.None? ==> Exec(s, actions).total == Sum(Exec(s, actions).index)
    decreases |actions|
  {
    hide Next;
    if actions != [] {
      LocksMatchStep(s, actions[0]);
      TotalFollowsIndexStep(s, actions[0]);
      TotalIsExact(Next(s, actions[0]), actions[1..]);
    }
  }

  // ---- when the total stays exact

  ghost predicate TotalNow(s: State) {
    s.indexLock.None? ==> s.total == Sum(s.index)
  }

  ghost predicate TotalStaysExact(s: State, actions: seq<Action>)
    decreases |actions|
  {
    TotalNow(s) && (actions != [] ==> TotalStaysExact(Next(s, actions[0]), actions[1..]))
  }

  lemma DebtShows(s: State, a: Action)
    requires LocksMatch(s) && TotalFollowsIndex(s) && LeavesDebt(s, a)
    ensures !TotalNow(Next(s, a))
  {
    assert s.indexLock == Some(a.task);
  }

  /** The total over whole runs, exactly: as long as the sum fits 64 bits, the total is the sum of the
      index at every moment at which the index lock is free, if and only if no handler is ever dropped
      while it owes the total its change. */
  lemma {:induction false} TotalStaysExactIff(s: State, actions: seq<Action>)
    requires LocksMatch(s) && TotalFollowsIndex(s) && AlwaysFits(s, actions)
    ensures TotalStaysExact(s, actions) <==> NoDebtLeft(s, actions)
    decreases |actions|
  {
    hide Next, LocksMatch, LeavesDebt, Fits;
    if actions != [] {
      LocksMatchStep(s, actions[0]);
      if LeavesDebt(s, actions[0]) {
        DebtShows(s, actions[0]);
      } else {
        TotalFollowsIndexStep(s, actions[0]);
        TotalStaysExactIff(Next(s, actions[0]), actions[1..]);
      }
    }
  }
}
