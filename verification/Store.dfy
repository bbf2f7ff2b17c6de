/** The store as its callers use it, one whole operation at a time. How the disk actions of a call
    turn out is a parameter of the call; the contracts say what results in every case. */
module Stores {
  import opened Text
  import opened Hashes
  import opened Denylist
  import opened Totals
  import opened Disks
  import opened Operations
  import opened Histories

  /** The store directory. A failed rename or removal leaves everything as it was. */
  class Directory {
    var disk: Disk

    constructor (disk: Disk)
      ensures this.disk == disk
    {
      this.disk := disk;
    }

    method WriteTmp(stem: string, bytes: Bytes, io: Io) returns (ok: bool)
      modifies this
      ensures ok == io.write
      ensures ok ==> disk == old(disk).(tmps := old(disk.tmps)[stem := bytes])
      ensures !ok ==> disk == if io.left.Some? then old(disk).(tmps := old(disk.tmps)[stem := io.left.value]) else old(disk)
    {
      ok := io.write;
      if ok || io.left.Some? {
        disk := disk.(tmps := disk.tmps[stem := if ok then bytes else io.left.value]);
      }
    }

    method RenameTmp(stem: string, io: Io) returns (ok: bool)
      modifies this
      ensures ok <==> io.rename && stem in old(disk.tmps)
      ensures ok ==> disk == old(disk).(bins := old(disk.bins[stem := disk.tmps[stem]]), tmps := old(disk.tmps) - {stem})
      ensures !ok ==> disk == old(disk)
    {
      ok := io.rename && stem in disk.tmps;
      if ok {
        disk := disk.(bins := disk.bins[stem := disk.tmps[stem]], tmps := disk.tmps - {stem});
      }
    }

    method Remove(stem: string, ok: bool)
      modifies this
      ensures disk == old(disk).(bins := if ok then old(disk.bins) - {stem} else old(disk.bins))
    {
      if ok {
        disk := disk.(bins := disk.bins - {stem});
      }
    }

    method Read(stem: string, io: Io) returns (r: Option<Bytes>)
      ensures r == if io.read && stem in disk.bins then Some(disk.bins[stem]) else None
    {
      r := if io.read && stem in disk.bins then Some(disk.bins[stem]) else None;
    }

    method WriteDenyTmp(body: string, io: Io) returns (ok: bool)
      modifies this
      ensures ok == io.write
      ensures ok ==> disk == old(disk).(denyTmp := Some(body))
      ensures !ok ==> disk == if io.leftText.Some? then old(disk).(denyTmp := io.leftText) else old(disk)
    {
      ok := io.write;
      if ok || io.leftText.Some? {
        disk := disk.(denyTmp := if ok then Some(body) else io.leftText);
      }
    }

    method RenameDenyTmp(io: Io) returns (ok: bool)
      modifies this
      ensures ok == io.rename
      ensures disk == if ok then old(disk).(denyFile := old(disk.denyTmp), denyTmp := None) else old(disk)
    {
      ok := io.rename;
      if ok {
        disk := disk.(denyFile := disk.denyTmp, denyTmp := None);
      }
    }
  }

  /** What a caller can observe: the blobs held and the hashes refused. */
  datatype View = View(held: map<string, Bytes>, denied: set<string>)

  class Store {
    const dir: Directory
    var index: map<string, nat>
    var total: nat
    var denied: set<string>
    const max: nat

    /** Every denied hash is canonical and in the file, and every indexed blob is on disk. */
    ghost predicate Consistent()
      reads this, dir
    {
      && (forall h :: h in denied ==> IsCanonical(h))
      && denied <= Persisted(dir.disk)
      && (forall h :: h in index ==> IsValidHash(h) && h in dir.disk.bins)
    }

    /** Between operations, moreover, nothing denied is held. */
    ghost predicate Valid()
      reads this, dir
    {
      Consistent() && index.Keys !! denied
    }

    ghost function Held(): map<string, Bytes>
      requires Consistent()
      reads this, dir
    {
      map h | h in index :: dir.disk.bins[h]
    }

    ghost function Contents(): View
      requires Consistent()
      reads this, dir
    {
      View(Held(), denied)
    }

    /** The index lists exactly the blobs on disk, with their lengths. */
    ghost predicate Exact()
      reads this, dir
    {
      && (forall h :: h in index ==> h in dir.disk.bins && index[h] == |dir.disk.bins[h]|)
      && (forall h :: h in dir.disk.bins && IsValidHash(h) ==> h in index)
    }

    /** The file says just what the set says. It need not after an open that could not read it. */
    ghost predicate InSync()
      reads this, dir
    {
      Persisted(dir.disk) == denied
    }

    ghost function Snapshot(): Image
      reads this, dir
    {
      Image(dir.disk, index, total, denied, max)
    }

    ghost predicate TotalExact()
      reads this
    {
      total == Sum(index)
    }

    constructor (dir: Directory, index: map<string, nat>, total: nat, denied: set<string>, max: nat)
      ensures this.dir == dir && this.index == index && this.total == total && this.denied == denied && this.max == max
    {
      this.dir, this.index, this.total, this.denied, this.max := dir, index, total, denied, max;
    }

    /** The scan of open: remove what is denied, index the rest. */
    static method Scan(dir: Directory, denied: set<string>, io: OpenIo) returns (ok: bool, index: map<string, nat>, total: nat)
      modifies dir
      ensures ok <==> (io.breaksAfter.Some? ==> io.breaksAfter.value >= |old(dir.disk).bins.Keys|)
      ensures ok ==>
                && index == OpenedIndex(old(dir.disk), denied, io.unsized) && total == Wrap(Sum(index))
                && dir.disk == old(dir.disk).(bins := OpenedBins(old(dir.disk), denied, io.stuck))
      ensures !ok ==> BrokenOff(old(dir.disk), dir.disk, denied)
    {
      hide BrokenOff, OpenedIndex, OpenedBins, IsValidHash, Sum, Wrap;
      ghost var d0 := dir.disk;
      index, total := map[], 0;
      var todo, seen := dir.disk.bins.Keys, 0;
      ScanStarts(d0, denied, io);
      while todo != {}
        invariant todo <= d0.bins.Keys && seen + |todo| == |d0.bins.Keys|
        invariant io.breaksAfter.Some? ==> seen <= io.breaksAfter.value
        invariant index == OpenedIndex(d0, denied, io.unsized) - todo
        invariant dir.disk == d0.(bins := OpenedBins(d0, denied, io.stuck + todo))
        invariant total == Wrap(Sum(index))
        decreases todo
      {
        if io.breaksAfter == Some(seen) {
          BreaksOff(d0, denied, io.stuck + todo);
          return false, index, total;
        }
        var h :| h in todo;
        ghost var before := todo;
        todo, seen := todo - {h}, seen + 1;
        assert before == todo + {h};
        if !IsValidHash(h) {
          ScanSkips(d0, denied, io, todo, h);
          continue;
        }
        if h in denied {
          ScanSkips(d0, denied, io, todo, h);
          dir.Remove(h, h !in io.stuck);
          continue;
        }
        ScanIndexes(d0, denied, io, todo, h);
        var len := if h in io.unsized then 0 else |dir.disk.bins[h]|;
        SumUpdate(index, h, len);
        WrapAdd(Sum(index), len);
        index := index[h := len];
        total := Wrap(total + len);
      }
      ScanEnds(d0, denied, io);
      ok := true;
    }

    /** Open a directory: load the denylist, drop denied blobs, index the rest. */
    static method Open(dir: Directory, max: nat, io: OpenIo) returns (r: Option<Store>)
      modifies dir
      ensures r.Some? <==> io.creates && (io.breaksAfter.Some? ==> io.breaksAfter.value >= |old(dir.disk).bins.Keys|)
      ensures r.Some? ==>
                var s := r.value;
                && fresh(s) && s.dir == dir && s.max == max
                && s.denied == LoadedDenylist(old(dir.disk), io.readable)
                && s.index == OpenedIndex(old(dir.disk), s.denied, io.unsized)
                && dir.disk == old(dir.disk).(bins := OpenedBins(old(dir.disk), s.denied, io.stuck))
                && s.total == Wrap(Sum(s.index))
                && s.Snapshot() == Opened(old(dir.disk), max, io)
                && s.Valid() && (io.readable ==> s.InSync())
                && ReadsIn(old(dir.disk), io, s.denied, s.index, dir.disk.bins)
                && (io.unsized == io.stuck == {} ==> s.Exact()) && (Sum(s.index) <= U64_MAX ==> s.TotalExact())
      ensures r.None? ==> dir.disk == old(dir.disk)
                          || BrokenOff(old(dir.disk), dir.disk, LoadedDenylist(old(dir.disk), io.readable))
    {
      hide BrokenOff, OpenedIndex, OpenedBins, IsValidHash, IsCanonical, Parse, Sum, Wrap, TextDenies, ReadsIn;
      OpenedExactly(dir.disk, LoadedDenylist(dir.disk, io.readable));
      OpenedMeans(dir.disk, io);
      if !io.creates {
        return None;
      }
      ghost var d0 := dir.disk;
      var denied := LoadDenylist(if io.readable then dir.disk.denyFile else None);
      var ok, index, total := Scan(dir, denied, io);
      if !ok {
        return None;
      }
      ScanEnds(d0, denied, io);
      PersistedIsCanonical(d0);
      var store := new Store(dir, index, total, denied, max);
      r := Some(store);
    }

    method IsDenied(hash: string) returns (r: bool)
      ensures r <==> Norm(hash) in denied
    {
      r := Norm(hash) in denied;
    }

    method Has(hash: string) returns (r: Option<nat>)
      ensures r == if Norm(hash) in index then Some(index[Norm(hash)]) else None
    {
      var h := Norm(hash);
      r := if h in index then Some(index[h]) else None;
    }

    method Get(hash: string, io: Io) returns (r: Option<Bytes>)
      requires Consistent()
      ensures r == if Norm(hash) in Held() && io.read then Some(Held()[Norm(hash)]) else None
    {
      var h := Norm(hash);
      if !IsValidHash(h) || h !in index {
        return None;
      }
      r := dir.Read(h, io);
    }

    /** Write a blob into place, through a temporary and a rename. */
    method Place(h: string, bytes: Bytes, io: Io) returns (ok: bool)
      modifies dir
      ensures ok == (io.write && io.rename)
      ensures dir.disk == Placed(old(dir.disk), h, bytes, io)
    {
      ok := dir.WriteTmp(h, bytes, io);
      if ok {
        ok := dir.RenameTmp(h, io);
      }
    }

    /** The section of put under the index lock. */
    method Insert(h: string, len: nat)
      modifies this
      ensures index == old(index)[h := len] && denied == old(denied)
      ensures total == SatAdd(SatSub(old(total), if h in old(index) then old(index)[h] else 0), len)
      ensures old(TotalExact()) && Sum(index) <= U64_MAX ==> TotalExact()
    {
      var prev := if h in index then index[h] else 0;
      if total == Sum(index) {
        SaturatingUpdateExactIff(index, total, h, len);
      }
      index := index[h := len];
      total := SatAdd(SatSub(total, prev), len);
    }

    /** Store bytes under their hash. */
    method Put(hash: string, bytes: Bytes, io: Io) returns (r: Result<(), PutError>)
      requires Valid()
      modifies this, dir
      ensures Valid() && dir.disk == old(dir.disk).(bins := dir.disk.bins, tmps := dir.disk.tmps)
      ensures r.Ok? ==> Contents() == old(Contents()).(held := old(Held())[Norm(hash) := bytes])
                        && index == old(index)[Norm(hash) := |bytes|]
      ensures r.Err? ==> Contents() == old(Contents()) && index == old(index) && total == old(total)
                         && dir.disk.bins == old(dir.disk.bins)
      ensures r == Err(BadKey) <==> !IsValidHash(Norm(hash))
      ensures r == Err(OnDenylist) <==> IsValidHash(Norm(hash)) && Norm(hash) in denied
      ensures r == Err(OverBudget) <==>
                IsValidHash(Norm(hash)) && Norm(hash) !in denied && !Admits(old(Snapshot()), Norm(hash), |bytes|)
      ensures r.Ok? <==> && IsValidHash(Norm(hash)) && Norm(hash) !in denied && Admits(old(Snapshot()), Norm(hash), |bytes|)
                         && io.write && io.rename
      ensures Snapshot() == AfterPut(old(Snapshot()), Norm(hash), bytes, io)
      ensures r == PutResult(old(Snapshot()), Norm(hash), |bytes|, io)
      ensures old(InSync()) ==> InSync()
      ensures old(Exact()) ==> Exact()
      ensures old(TotalExact()) && Sum(index) <= U64_MAX ==> TotalExact()
    {
      hide IsCanonical, IsValidHash, Parse, Norm, Sum;
      var h := Norm(hash);
      if !IsValidHash(h) {
        return Err(BadKey);
      }
      if h in denied {
        return Err(OnDenylist);
      }
      if max > 0 {
        var cur := total;
        var already := if h in index then index[h] else 0;
        if already == 0 && SatAdd(cur, |bytes|) > max {
          return Err(OverBudget);
        }
      }
      var ok := Place(h, bytes, io);
      if !ok {
        return Err(PutFailed);
      }
      Insert(h, |bytes|);
      r := Ok(());
    }

    /** Remove a blob from disk and index. The store does not look at whether the file went away. */
    method Purge(hash: string, io: Io) returns (r: bool)
      requires Consistent()
      modifies this, dir
      ensures Consistent() && denied == old(denied)
      ensures var gone := if IsValidHash(Norm(hash)) && io.remove then {Norm(hash)} else {};
              dir.disk == old(dir.disk).(bins := old(dir.disk.bins) - gone)
      ensures Held() == old(Held()) - {Norm(hash)} && index == old(index) - {Norm(hash)}
      ensures r <==> Norm(hash) in old(index)
      ensures total == if r then SatSub(old(total), old(index)[Norm(hash)]) else old(total)
      ensures IsValidHash(Norm(hash)) ==> Snapshot() == AfterPurge(old(Snapshot()), Norm(hash), io.remove)
      ensures old(InSync()) ==> InSync()
      ensures old(Exact()) && io.remove ==> Exact()
      ensures old(TotalExact()) ==> TotalExact()
    {
      hide IsCanonical, IsValidHash, Parse, Norm, Sum;
      var h := Norm(hash);
      if !IsValidHash(h) {
        assert h !in index;
        assert index - {h} == index && Held() - {h} == Held();
        return false;
      }
      dir.Remove(h, io.remove);
      if h in index {
        SumRemove(index, h);
        total := SatSub(total, index[h]);
        index := index - {h};
        r := true;
      } else {
        assert index - {h} == index;
        r := false;
      }
      assert Held() == old(Held()) - {h};
    }

    /** Rewrite the denylist file from the set, through a temporary and a rename. */
    method WriteDenylist(io: Io) returns (ok: bool)
      requires forall h :: h in denied ==> IsCanonical(h)
      modifies dir
      ensures ok == (io.write && io.rename)
      ensures dir.disk == old(dir.disk).(denyFile := dir.disk.denyFile, denyTmp := dir.disk.denyTmp)
      ensures ok ==> Persisted(dir.disk) == denied && dir.disk.denyTmp.None?
      ensures !ok ==> dir.disk.denyFile == old(dir.disk.denyFile)
      ensures Rewritten(old(dir.disk), denied, io, dir.disk)
    {
      var body, todo := "", denied;
      ghost var order: seq<string> := [];
      while todo != {}
        invariant todo <= denied && Enumerates(order, denied - todo)
        invariant body == PrintLines(order) && dir.disk == old(dir.disk)
        decreases todo
      {
        var x :| x in todo;
        PrintLinesSnoc(order, x);
        body, todo, order := body + (x + "\n"), todo - {x}, order + [x];
      }
      assert denied - {} == denied;
      ParseOfPrint(order, denied);
      ok := dir.WriteDenyTmp(body, io);
      if ok {
        ok := dir.RenameDenyTmp(io);
      }
    }

    /** Take a hash down for good: deny it, persist that, purge the blob. */
    method Deny(hash: string, io: Io) returns (r: Result<bool, DenyError>)
      requires Valid()
      modifies this, dir
      ensures Valid() && dir.disk.tmps == old(dir.disk.tmps)
      ensures r.Ok? ==> Contents() == View(old(Held()) - {Norm(hash)}, old(denied) + {Norm(hash)})
                        && index == old(index) - {Norm(hash)} && (r.value <==> Norm(hash) in old(index))
                        && dir.disk.bins == old(dir.disk.bins) - if io.remove then {Norm(hash)} else {}
      ensures r.Err? ==> Contents() == old(Contents()) && index == old(index) && total == old(total)
                         && dir.disk.bins == old(dir.disk.bins)
      ensures r == Err(NotAHash) <==> !IsValidHash(Norm(hash))
      ensures r.Ok? <==> IsValidHash(Norm(hash)) && (Norm(hash) in old(denied) || (io.write && io.rename))
      ensures DenyDoes(old(Snapshot()), Norm(hash), io, r, Snapshot())
      ensures Persisted(dir.disk) == if r.Ok? && Norm(hash) !in old(denied) then denied else old(Persisted(dir.disk))
      ensures old(InSync()) ==> InSync()
      ensures old(Exact()) && io.remove ==> Exact()
      ensures old(TotalExact()) ==> TotalExact()
    {
      hide IsCanonical, IsValidHash, Parse, Norm, Sum, Rewritten;
      var h := Norm(hash);
      if !IsValidHash(h) {
        return Err(NotAHash);
      }
      ValidNormIsCanonical(hash);
      NormTwiceOnValid(hash);
      if h !in denied {
        denied := denied + {h};
        var ok := WriteDenylist(io);
        if !ok {
          denied := denied - {h};
          return Err(DenyFailed);
        }
      }
      var purged := Purge(h, io);
      r := Ok(purged);
    }

    /** Take a hash off the denylist again. */
    method Allow(hash: string, io: Io) returns (r: Result<bool, DenyError>)
      requires Valid()
      modifies this, dir
      ensures Valid() && dir.disk == old(dir.disk).(denyFile := dir.disk.denyFile, denyTmp := dir.disk.denyTmp)
      ensures index == old(index) && total == old(total) && Held() == old(Held())
      ensures r.Ok? ==> denied == old(denied) - {Norm(hash)} && (r.value <==> Norm(hash) in old(denied))
      ensures r.Err? ==> denied == old(denied) && r.error == DenyFailed
      ensures r.Ok? <==> Norm(hash) !in old(denied) || (io.write && io.rename)
      ensures AllowDoes(old(Snapshot()), Norm(hash), io, r, Snapshot())
      ensures Persisted(dir.disk) == if r == Ok(true) then denied else old(Persisted(dir.disk))
      ensures old(InSync()) ==> InSync()
      ensures old(Exact()) ==> Exact()
      ensures old(TotalExact()) ==> TotalExact()
    {
      hide IsCanonical, IsValidHash, Parse, Norm, Sum, Rewritten;
      var h := Norm(hash);
      if h !in denied {
        return Ok(false);
      }
      denied := denied - {h};
      var ok := WriteDenylist(io);
      if !ok {
        denied := denied + {h};
        return Err(DenyFailed);
      }
      r := Ok(true);
    }

    method Apply(op: Op)
      requires Valid()
      modifies this, dir
      ensures Valid() && OpDoes(old(Snapshot()), op, Snapshot())
    {
      hide AfterPut, AfterPurge, DenyDoes, AllowDoes, Norm, IsValidHash, IsCanonical, Persisted;
      match op
      case PutOp(hash, bytes, io) => var r := Put(hash, bytes, io);
      case DenyOp(hash, io) => var r := Deny(hash, io);
      case AllowOp(hash, io) => var r := Allow(hash, io);
      case PurgeOp(hash, io) =>
        if IsValidHash(Norm(hash)) {
          var r := Purge(hash, io);
        }
    }

    /** Open a directory, run any operations whose removals work, and open it again: the second store
        is the first one, provided the lengths always summed up to less than 2^64. */
    static method RunAndReopen(dir: Directory, max: nat, io: OpenIo, ops: seq<Op>)
      returns (first: Store, again: Store, ghost trace: seq<Image>)
      requires Clean(io) && forall op :: op in ops ==> op.io.remove
      modifies dir
      ensures History(trace, ops) && trace[0] == Opened(old(dir.disk), max, io) && trace[|ops|] == first.Snapshot()
      ensures again.index == first.index && again.denied == first.denied && again.max == first.max
      ensures AllFit(trace) ==> again.total == first.total
    {
      hide Opened, OpDoes, Sum, Wrap, OpenedIndex, OpenedBins, LoadedDenylist, IsCanonical;
      var store1 := Open(dir, max, io);
      first := store1.value;
      trace := [first.Snapshot()];
      for i := 0 to |ops|
        invariant first.Valid() && first.dir == dir && fresh(first)
        invariant History(trace, ops[..i]) && trace[i] == first.Snapshot() && trace[0] == Opened(old(dir.disk), max, io)
      {
        first.Apply(ops[i]);
        HistoryGrows(trace, ops, i, first.Snapshot());
        trace := trace + [first.Snapshot()];
      }
      assert ops[..|ops|] == ops;
      ReopenRestores(old(dir.disk), max, io, ops, trace, io);
      var store2 := Open(dir, max, io);
      again := store2.value;
    }

    /** Every held hash once, with its prefix and length, in some order of the index. */
    method List() returns (out: seq<(string, nat)>)
      ensures Listing(out, index)
    {
      var todo := index.Keys;
      out := [];
      while todo != {}
        invariant todo <= index.Keys && |out| + |todo| == |index.Keys|
        invariant forall k :: k in index && k !in todo ==> ("0x" + k, index[k]) in out
        invariant forall e :: e in out ==> IsEntry(e, index)
        decreases todo
      {
        var k :| k in todo;
        assert IsEntry(("0x" + k, index[k]), index) by {
          assert ("0x" + k)[2..] == k;
        }
        hide IsEntry;
        todo, out := todo - {k}, out + [("0x" + k, index[k])];
      }
    }
  }

  /** An open that fails has removed some denied blobs and done nothing else. */
  ghost predicate BrokenOff(before: Disk, after: Disk, denied: set<string>) {
    exists spared :: after == before.(bins := OpenedBins(before, denied, spared))
  }

  lemma BreaksOff(d: Disk, denied: set<string>, spared: set<string>)
    ensures BrokenOff(d, d.(bins := OpenedBins(d, denied, spared)), denied)
  {
  }

  lemma ScanStarts(d: Disk, denied: set<string>, io: OpenIo)
    ensures OpenedIndex(d, denied, io.unsized) - d.bins.Keys == map[]
    ensures OpenedBins(d, denied, io.stuck + d.bins.Keys) == d.bins
    ensures Wrap(Sum(map[])) == 0
  {
  }

  lemma ScanEnds(d: Disk, denied: set<string>, io: OpenIo)
    ensures OpenedIndex(d, denied, io.unsized) - {} == OpenedIndex(d, denied, io.unsized)
    ensures OpenedBins(d, denied, io.stuck + {}) == OpenedBins(d, denied, io.stuck)
    ensures forall h :: h in OpenedIndex(d, denied, io.unsized) ==>
              IsValidHash(h) && h in OpenedBins(d, denied, io.stuck) && h !in denied
  {
    assert io.stuck + {} == io.stuck;
  }

  /** What an open makes of a directory. Denied is what some line of the denylist names, if the file is
      there and can be read; indexed is every file with a valid name that is not denied, with its length
      if that can be had; gone are the denied files that could be removed, and nothing else changes. */
  ghost predicate ReadsIn(d: Disk, io: OpenIo, denied: set<string>, index: map<string, nat>, bins: map<string, Bytes>) {
    && (forall h :: h in denied <==> io.readable && d.denyFile.Some? && TextDenies(d.denyFile.value, h))
    && (forall h :: h in index <==> h in d.bins && IsValidHash(h) && h !in denied)
    && (forall h :: h in index ==> index[h] == if h in io.unsized then 0 else |d.bins[h]|)
    && (forall h :: h in bins <==> h in d.bins && (IsValidHash(h) && h in denied ==> h in io.stuck))
    && (forall h :: h in bins ==> bins[h] == d.bins[h])
  }

  lemma OpenedMeans(d: Disk, io: OpenIo)
    ensures var denied := LoadedDenylist(d, io.readable);
            ReadsIn(d, io, denied, OpenedIndex(d, denied, io.unsized), OpenedBins(d, denied, io.stuck))
  {
    hide IsValidHash, Parse, TextDenies;
    if d.denyFile.Some? {
      forall h ensures h in Parse(d.denyFile.value) <==> TextDenies(d.denyFile.value, h) {
        ParseIff(d.denyFile.value, h);
      }
    }
  }

  lemma OpenedExactly(d: Disk, denied: set<string>)
    ensures var index, bins := OpenedIndex(d, denied, {}), OpenedBins(d, denied, {});
            && (forall h :: h in index ==> h in bins && index[h] == |bins[h]|)
            && (forall h :: h in bins && IsValidHash(h) ==> h in index)
  {
  }

  // One directory entry of the scan at open; `todo` is what is left after it.

  lemma ScanSkips(d: Disk, denied: set<string>, io: OpenIo, todo: set<string>, h: string)
    requires h in d.bins && h !in todo && (!IsValidHash(h) || h in denied)
    ensures OpenedIndex(d, denied, io.unsized) - todo == OpenedIndex(d, denied, io.unsized) - (todo + {h})
    ensures var before := OpenedBins(d, denied, io.stuck + (todo + {h}));
            OpenedBins(d, denied, io.stuck + todo)
            == if IsValidHash(h) && h !in io.stuck then before - {h} else before
  {
  }

  lemma ScanIndexes(d: Disk, denied: set<string>, io: OpenIo, todo: set<string>, h: string)
    requires h in d.bins && h !in todo && IsValidHash(h) && h !in denied
    ensures var before := OpenedIndex(d, denied, io.unsized) - (todo + {h});
            && h !in before
            && OpenedIndex(d, denied, io.unsized) - todo == before[h := if h in io.unsized then 0 else |d.bins[h]|]
    ensures OpenedBins(d, denied, io.stuck + todo) == OpenedBins(d, denied, io.stuck + (todo + {h}))
    ensures h in OpenedBins(d, denied, io.stuck + todo) && OpenedBins(d, denied, io.stuck + todo)[h] == d.bins[h]
  {
  }

  /** Reopening rebuilds the index exactly when every blob on disk that is not indexed is denied. In
      particular it always does when the index was exact, that is, when no removal had failed. */
  lemma ReopenRebuildsIff(d: Disk, index: map<string, nat>, denied: set<string>)
    requires forall h :: h in index ==> IsValidHash(h) && h !in denied && h in d.bins && index[h] == |d.bins[h]|
    ensures OpenedIndex(d, denied, {}) == index
            <==> forall h :: h in d.bins && IsValidHash(h) && h !in index ==> h in denied
  {
    var rebuilt := OpenedIndex(d, denied, {});
    if rebuilt == index {
      forall h | h in d.bins && IsValidHash(h) && h !in index ensures h in denied {
        assert h !in rebuilt;
      }
    }
  }
}
