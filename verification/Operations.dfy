/** What each whole operation makes of a store, as relations between the state before and after.
    `Stores.Store` computes them; an undisturbed task of `StoreSteps` computes them too. */
module Operations {
  import opened Text
  import opened Hashes
  import opened Denylist
  import opened Totals
  import opened Disks

  /** Which disk actions of a call work, and what an unfinished write leaves in its temporary, if it
      got that far. */
  datatype Io = Io(read: bool, write: bool, rename: bool, remove: bool, left: Option<Bytes>, leftText: Option<string>)

  /** How the disk behaves during an open: whether the directory can be created, the denylist read, a file sized or
      removed, and after how many entries the listing breaks off, if it does. */
  datatype OpenIo = OpenIo(creates: bool, readable: bool, unsized: set<string>, stuck: set<string>, breaksAfter: Option<nat>)

  datatype PutError = BadKey | OnDenylist | OverBudget | PutFailed
  datatype DenyError = NotAHash | DenyFailed

  datatype Result<+T, +E> = Ok(value: T) | Err(error: E)

  /** A store between operations: its directory and its memory. */
  datatype Image = Image(disk: Disk, index: map<string, nat>, total: nat, denied: set<string>, max: nat)

  ghost function Opened(d: Disk, max: nat, io: OpenIo): Image {
    var denied := LoadedDenylist(d, io.readable);
    var index := OpenedIndex(d, denied, io.unsized);
    Image(d.(bins := OpenedBins(d, denied, io.stuck)), index, Wrap(Sum(index)), denied, max)
  }

  /** The budget admits `len` more bytes under `h`: it is off, or `h` is already held with some bytes,
      or the sum stays within. */
  predicate Admits(s: Image, h: string, len: nat) {
    s.max == 0 || (h in s.index && s.index[h] > 0) || SatAdd(s.total, len) <= s.max
  }

  function PutResult(s: Image, h: string, len: nat, io: Io): Result<(), PutError> {
    if !IsValidHash(h) then Err(BadKey)
    else if h in s.denied then Err(OnDenylist)
    else if !Admits(s, h, len) then Err(OverBudget)
    else if !io.write || !io.rename then Err(PutFailed)
    else Ok(())
  }

  function Placed(d: Disk, h: string, bytes: Bytes, io: Io): Disk {
    if io.write && io.rename then d.(bins := d.bins[h := bytes], tmps := d.tmps - {h})
    else if io.write then d.(tmps := d.tmps[h := bytes])
    else if io.left.Some? then d.(tmps := d.tmps[h := io.left.value])
    else d
  }

  function AfterPut(s: Image, h: string, bytes: Bytes, io: Io): Image {
    match PutResult(s, h, |bytes|, io)
    case Ok(_) =>
      s.(disk := Placed(s.disk, h, bytes, io), index := s.index[h := |bytes|],
         total := SatAdd(SatSub(s.total, if h in s.index then s.index[h] else 0), |bytes|))
    case Err(PutFailed) => s.(disk := Placed(s.disk, h, bytes, io))
    case Err(_) => s
  }

  function AfterPurge(s: Image, h: string, removed: bool): Image {
    s.(disk := if removed then s.disk.(bins := s.disk.bins - {h}) else s.disk,
       index := s.index - {h},
       total := if h in s.index then SatSub(s.total, s.index[h]) else s.total)
  }

  /** An entry of a listing: a key of the index with its prefix, and its length. */
  predicate IsEntry(e: (string, nat), index: map<string, nat>) {
    "0x" <= e.0 && e.0[2..] in index && e.1 == index[e.0[2..]]
  }

  /** Every key of the index once, with its prefix and length, in some order. */
  ghost predicate Listing(out: seq<(string, nat)>, index: map<string, nat>) {
    && |out| == |index|
    && (forall k :: k in index ==> ("0x" + k, index[k]) in out)
    && (forall e :: e in out ==> IsEntry(e, index))
  }

  /** What a peer's Get finds for a key while the disk can be read: nothing if it is denied, else what the store holds. */
  function Lookup(store: Image, key: string): Option<Bytes> {
    if key in store.denied || !IsValidHash(key) || key !in store.index || key !in store.disk.bins then None
    else Some(store.disk.bins[key])
  }

  /** The denylist written out from a set, in some order. */
  ghost predicate Rewritten(d: Disk, denied: set<string>, io: Io, d': Disk) {
    if io.write then exists order :: Enumerates(order, denied) && d' == Written(d, PrintLines(order), io.rename)
    else d' == if io.leftText.Some? then d.(denyTmp := io.leftText) else d
  }

  function Written(d: Disk, body: string, renamed: bool): Disk {
    if renamed then d.(denyFile := Some(body), denyTmp := None) else d.(denyTmp := Some(body))
  }

  ghost predicate DenyDoes(s: Image, h: string, io: Io, r: Result<bool, DenyError>, s': Image) {
    if !IsValidHash(h) then r == Err(NotAHash) && s' == s
    else if h in s.denied then r == Ok(h in s.index) && s' == AfterPurge(s, h, io.remove)
    else if io.write && io.rename then
      r == Ok(h in s.index) && exists d :: Rewritten(s.disk, s.denied + {h}, io, d)
                                           && s' == AfterPurge(s.(disk := d, denied := s.denied + {h}), h, io.remove)
    else r == Err(DenyFailed) && s' == s.(disk := s'.disk) && Rewritten(s.disk, s.denied + {h}, io, s'.disk)
  }

  ghost predicate AllowDoes(s: Image, h: string, io: Io, r: Result<bool, DenyError>, s': Image) {
    if h !in s.denied then r == Ok(false) && s' == s
    else
      && s' == s.(disk := s'.disk, denied := s'.denied) && Rewritten(s.disk, s.denied - {h}, io, s'.disk)
      && if io.write && io.rename then r == Ok(true) && s'.denied == s.denied - {h}
         else r == Err(DenyFailed) && s'.denied == s.denied
  }

  /** What a rewrite leaves behind, in the order that happened to be. */
  lemma RewriteKeepsFiles(d: Disk, denied: set<string>, io: Io, d': Disk)
    requires Rewritten(d, denied, io, d') && forall h :: h in denied ==> IsCanonical(h)
    ensures d'.bins == d.bins
    ensures Persisted(d') == if io.write && io.rename then denied else Persisted(d)
  {
    hide IsCanonical, Parse, PrintLines, Enumerates;
    if io.write {
      var order :| Enumerates(order, denied) && d' == Written(d, PrintLines(order), io.rename);
      ParseOfPrint(order, denied);
    }
  }
}
