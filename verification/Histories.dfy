/** Sequences of whole operations, and what opening the directory again makes of them. */
module Histories {
  import opened Hashes
  import opened Denylist
  import opened Totals
  import opened Disks
  import opened Operations

  datatype Op =
    | PutOp(hash: string, bytes: Bytes, io: Io)
    | DenyOp(hash: string, io: Io)
    | AllowOp(hash: string, io: Io)
    | PurgeOp(hash: string, io: Io)

  ghost predicate OpDoes(s: Image, op: Op, s': Image) {
    var h := Norm(op.hash);
    match op
    case PutOp(_, bytes, io) => s' == AfterPut(s, h, bytes, io)
    case DenyOp(_, io) => exists r :: DenyDoes(s, h, io, r, s')
    case AllowOp(_, io) => exists r :: AllowDoes(s, h, io, r, s')
    case PurgeOp(_, io) => s' == if IsValidHash(h) then AfterPurge(s, h, io.remove) else s
  }

  /** The states a sequence of operations goes through. */
  ghost predicate History(trace: seq<Image>, ops: seq<Op>) {
    |trace| == |ops| + 1 && forall i :: 0 <= i < |ops| ==> OpDoes(trace[i], ops[i], trace[i + 1])
  }

  lemma HistoryGrows(trace: seq<Image>, ops: seq<Op>, i: nat, s: Image)
    requires i < |ops| && History(trace, ops[..i]) && OpDoes(trace[i], ops[i], s)
    ensures History(trace + [s], ops[..i + 1])
  {
    hide OpDoes;
    var trace', ops' := trace + [s], ops[..i + 1];
    forall k | 0 <= k < |ops'| ensures OpDoes(trace'[k], ops'[k], trace'[k + 1]) {
      if k < i {
        assert OpDoes(trace[k], ops[..i][k], trace[k + 1]);
      }
    }
  }

  ghost predicate AllFit(trace: seq<Image>) {
    forall s :: s in trace ==> Sum(s.index) <= U64_MAX
  }

  /** An open that goes through, with every file read, sized and removed as it should be. */
  predicate Clean(io: OpenIo) {
    io.creates && io.breaksAfter.None? && io.readable && io.unsized == {} && io.stuck == {}
  }

  /** Memory and directory say the same, in every respect but the total. */
  ghost predicate Matched(s: Image) {
    && (forall h :: h in s.denied ==> IsCanonical(h))
    && Persisted(s.disk) == s.denied && s.index.Keys !! s.denied
    && (forall h :: h in s.index ==> h in s.disk.bins && IsValidHash(h) && s.index[h] == |s.disk.bins[h]|)
    && (forall h :: h in s.disk.bins && IsValidHash(h) ==> h in s.index)
  }

  lemma OpenedIsMatched(d: Disk, max: nat, io: OpenIo)
    requires Clean(io)
    ensures Matched(Opened(d, max, io))
    ensures Sum(Opened(d, max, io).index) <= U64_MAX ==> Opened(d, max, io).total == Sum(Opened(d, max, io).index)
  {
    PersistedIsCanonical(d);
  }

  /** Opening a matched directory gives back what is in memory. */
  lemma MatchedReopens(s: Image, io: OpenIo)
    requires Matched(s) && Clean(io)
    ensures Opened(s.disk, s.max, io) == s.(total := Wrap(Sum(s.index)))
  {
    hide Sum, Wrap, IsCanonical, IsValidHash;
    assert OpenedIndex(s.disk, s.denied, {}) == s.index;
    assert OpenedBins(s.disk, s.denied, {}) == s.disk.bins;
  }

  lemma PutKeepsMatched(s: Image, h: string, bytes: Bytes, io: Io)
    requires Matched(s)
    ensures Matched(AfterPut(s, h, bytes, io))
    ensures s.total == Sum(s.index) && Sum(AfterPut(s, h, bytes, io).index) <= U64_MAX ==>
              AfterPut(s, h, bytes, io).total == Sum(AfterPut(s, h, bytes, io).index)
  {
    hide IsCanonical, IsValidHash, Parse;
    if s.total == Sum(s.index) {
      SaturatingUpdateExactIff(s.index, s.total, h, |bytes|);
    }
    hide Sum;
  }

  lemma PurgeKeepsMatched(s: Image, h: string)
    requires Matched(s)
    ensures Matched(AfterPurge(s, h, true))
    ensures s.total == Sum(s.index) ==> AfterPurge(s, h, true).total == Sum(AfterPurge(s, h, true).index)
  {
    hide IsCanonical, IsValidHash, Parse;
    if h in s.index {
      SumRemove(s.index, h);
    } else {
      assert s.index - {h} == s.index;
    }
    hide Sum;
  }

  lemma DenyKeepsMatched(s: Image, hash: string, io: Io, r: Result<bool, DenyError>, s': Image)
    requires Matched(s) && io.remove && DenyDoes(s, Norm(hash), io, r, s')
    ensures Matched(s') && (s.total == Sum(s.index) ==> s'.total == Sum(s'.index))
  {
    var h := Norm(hash);
    if IsValidHash(h) {
      ValidNormIsCanonical(hash);
    }
    hide IsCanonical, IsValidHash, Norm, Parse, Persisted, Rewritten, AfterPurge, Sum;
    PurgeKeepsMatched(s, h);
    if h !in s.denied && IsValidHash(h) {
      if io.write && io.rename {
        var d :| Rewritten(s.disk, s.denied + {h}, io, d)
                 && s' == AfterPurge(s.(disk := d, denied := s.denied + {h}), h, io.remove);
        RewriteKeepsFiles(s.disk, s.denied + {h}, io, d);
        DenyCommutes(s, d, h);
      } else {
        RewriteKeepsFiles(s.disk, s.denied + {h}, io, s'.disk);
      }
    }
  }

  /** Once its hash is listed, the purge of a deny brings index and list apart again. */
  lemma DenyCommutes(s: Image, d: Disk, h: string)
    requires Matched(s) && IsCanonical(h) && d.bins == s.disk.bins && Persisted(d) == s.denied + {h}
    ensures var s' := AfterPurge(s.(disk := d, denied := s.denied + {h}), h, true);
            Matched(s') && (s.total == Sum(s.index) ==> s'.total == Sum(s'.index))
  {
    PurgeKeepsMatched(s, h);
    var purged, s' := AfterPurge(s, h, true), AfterPurge(s.(disk := d, denied := s.denied + {h}), h, true);
    assert purged.index == s'.index && purged.total == s'.total && purged.disk.bins == s'.disk.bins;
    assert h !in s'.index && s'.disk.denyFile == d.denyFile && s'.denied == s.denied + {h};
    hide IsCanonical, IsValidHash, Parse, Sum, AfterPurge;
  }

  lemma AllowKeepsMatched(s: Image, h: string, io: Io, r: Result<bool, DenyError>, s': Image)
    requires Matched(s) && AllowDoes(s, h, io, r, s')
    ensures Matched(s') && (s.total == Sum(s.index) ==> s'.total == Sum(s'.index))
  {
    hide IsCanonical, IsValidHash, Parse, Persisted, Rewritten, Sum;
    if h in s.denied {
      RewriteKeepsFiles(s.disk, s.denied - {h}, io, s'.disk);
    }
  }

  lemma OpKeepsMatched(s: Image, op: Op, s': Image)
    requires Matched(s) && OpDoes(s, op, s') && op.io.remove
    ensures Matched(s') && s'.max == s.max
    ensures s.total == Sum(s.index) && Sum(s'.index) <= U64_MAX ==> s'.total == Sum(s'.index)
  {
    hide Matched, Norm, Sum, IsValidHash;
    var h := Norm(op.hash);
    match op
    case PutOp(_, bytes, io) => PutKeepsMatched(s, h, bytes, io);
    case DenyOp(_, io) =>
      var r :| DenyDoes(s, h, io, r, s');
      DenyKeepsMatched(s, op.hash, io, r, s');
    case AllowOp(_, io) =>
      var r :| AllowDoes(s, h, io, r, s');
      AllowKeepsMatched(s, h, io, r, s');
    case PurgeOp(_, io) => PurgeKeepsMatched(s, h);
  }

  lemma {:induction false} HistoryKeepsMatched(trace: seq<Image>, ops: seq<Op>, n: nat)
    requires History(trace, ops) && n <= |ops| && Matched(trace[0])
    requires forall op :: op in ops ==> op.io.remove
    ensures Matched(trace[n]) && trace[n].max == trace[0].max
    ensures AllFit(trace) && trace[0].total == Sum(trace[0].index) ==> trace[n].total == Sum(trace[n].index)
  {
    hide Matched, OpDoes, Sum;
    if n > 0 {
      HistoryKeepsMatched(trace, ops, n - 1);
      assert OpDoes(trace[n - 1], ops[n - 1], trace[n - 1 + 1]);
      OpKeepsMatched(trace[n - 1], ops[n - 1], trace[n]);
      assert trace[n] in trace;
    }
  }

  /** Reopen round trip. After any sequence of puts, denies, allows and purges whose removals worked,
      with any other disk actions failing, opening the directory again gives back the same files,
      index, denylist and budget, and the same total if the lengths always summed to less than 2^64. */
  lemma ReopenRestores(d: Disk, max: nat, io: OpenIo, ops: seq<Op>, trace: seq<Image>, io': OpenIo)
    requires Clean(io) && Clean(io') && forall op :: op in ops ==> op.io.remove
    requires History(trace, ops) && trace[0] == Opened(d, max, io)
    ensures Opened(trace[|ops|].disk, max, io') == trace[|ops|].(total := Wrap(Sum(trace[|ops|].index)))
    ensures AllFit(trace) ==> Opened(trace[|ops|].disk, max, io') == trace[|ops|]
  {
    OpenedIsMatched(d, max, io);
    HistoryKeepsMatched(trace, ops, |ops|);
    MatchedReopens(trace[|ops|], io');
    assert trace[0] in trace && trace[|ops|] in trace;
    hide Opened, History, OpDoes, Matched, Sum;
  }
}
