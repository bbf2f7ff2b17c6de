/** What the store directory holds, and what opening a store makes of it. */
module Disks {
  import opened Text
  import opened Hashes
  import opened Denylist

  /** `bins` and `tmps` are the files named `<stem>.bin` and `<stem>.tmp`, keyed by their stem;
      `denyFile` is `denylist.txt` and `denyTmp` its temporary. */
  datatype Disk = Disk(bins: map<string, Bytes>, tmps: map<string, Bytes>,
                       denyFile: Option<string>, denyTmp: Option<string>)

  /** The denylist as persisted; a missing file is an empty list. */
  ghost function Persisted(d: Disk): set<string> {
    if d.denyFile.Some? then Parse(d.denyFile.value) else {}
  }

  /** The denylist as loaded at open: a file that cannot be read counts as empty. */
  ghost function LoadedDenylist(d: Disk, readable: bool): set<string> {
    if readable then Persisted(d) else {}
  }

  /** Index built at open: every file with a valid stem that is not denied. A file whose metadata
      cannot be read is indexed with length 0. */
  ghost function OpenedIndex(d: Disk, denied: set<string>, unsized: set<string>): map<string, nat> {
    map h | h in d.bins && IsValidHash(h) && h !in denied :: if h in unsized then 0 else |d.bins[h]|
  }

  /** Files left after open has tried to remove the denied ones; `stuck` could not be removed. */
  ghost function OpenedBins(d: Disk, denied: set<string>, stuck: set<string>): map<string, Bytes> {
    map h | h in d.bins && (h in stuck || !IsValidHash(h) || h !in denied) :: d.bins[h]
  }

  lemma PersistedIsCanonical(d: Disk)
    ensures forall h :: h in Persisted(d) ==> IsCanonical(h)
  {
    if d.denyFile.Some? {
      ParseIsCanonical(d.denyFile.value);
    }
  }
}
