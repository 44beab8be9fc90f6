/** What `retreiveInfos` does with the decoded output of `qemu-img info`
    (image.go:158-214): the record it reads, the snapshot list it builds from
    it, the fields it overwrites, and the first-match lookup by name that
    CreateSnapshot performs on such a list (image.go:248-261 and 276-289). */
module Infos {
  import opened Wrappers
  import opened Decimal
  import opened Images

  /** One entry of the `snapshots` array: the id is still text. */
  datatype RawSnapshot = RawSnapshot(
    id: string, name: string, dateSec: int64, dateNsec: int64, clockSec: int64, clockNsec: int64)

  /** The decoded JSON record of `qemu-img info --output=json`. */
  datatype ImgInfo = ImgInfo(snapshots: seq<RawSnapshot>, format: string, size: uint64, encrypted: bool)

  /** How a run of `qemu-img info` ended: a non-zero exit, output that is not
      the expected JSON, or a decoded record. */
  datatype InfoOutcome = InfoFailed | InfoUnparsable | InfoParsed(info: ImgInfo)

  /** The snapshot an entry becomes: its id read by `strconv.Atoi`, its name, and
      its two timestamps; nothing when the id does not parse. */
  function Convert(raw: RawSnapshot): (r: Option<Snapshot>)
    ensures r.Some? <==> ParseInt(raw.id).Some?
    ensures r.Some? ==> r.value.id == ParseInt(raw.id).value && r.value.name == raw.name
    ensures r.Some? ==> r.value.date == Timestamp(raw.dateSec, raw.dateNsec)
                        && r.value.vmClock == Timestamp(raw.clockSec, raw.clockNsec)
  {
    match ParseInt(raw.id)
    case None => None
    case Some(id) =>
      Some(Snapshot(id, raw.name, Timestamp(raw.dateSec, raw.dateNsec), Timestamp(raw.clockSec, raw.clockNsec)))
  }

  /** The snapshot list retreiveInfos builds: the entries in listing order,
      each entry whose id does not parse skipped. Defined from the end, the
      way the loop appends. */
  function KeptSnapshots(raws: seq<RawSnapshot>): (r: seq<Snapshot>)
    ensures |r| <= |raws|
    ensures forall j :: 0 <= j < |r| ==> exists i :: 0 <= i < |raws| && Convert(raws[i]) == Some(r[j])
  {
    if raws == [] then []
    else
      var init, last := raws[..|raws| - 1], raws[|raws| - 1];
      var k := KeptSnapshots(init);
      assert forall i :: 0 <= i < |init| ==> raws[i] == init[i];
      k + match Convert(last) case Some(s) => [s] case None => []
  }

  /** The list of a concatenation of listings is the concatenation of their lists. */
  lemma {:induction false} KeptSnapshotsAppend(a: seq<RawSnapshot>, b: seq<RawSnapshot>)
    ensures KeptSnapshots(a + b) == KeptSnapshots(a) + KeptSnapshots(b)
  {
    if b == [] {
      assert a + b == a;
    } else {
      var b' := b[..|b| - 1];
      assert (a + b)[..|a + b| - 1] == a + b';
      assert (a + b)[|a + b| - 1] == b[|b| - 1];
      KeptSnapshotsAppend(a, b');
    }
  }

  /** An entry whose id does not parse leaves no trace in the list. */
  lemma DropsUnparsableId(a: seq<RawSnapshot>, raw: RawSnapshot, b: seq<RawSnapshot>)
    requires ParseInt(raw.id).None?
    ensures KeptSnapshots(a + [raw] + b) == KeptSnapshots(a + b)
  {
    assert [raw][..0] == [];
    assert KeptSnapshots([raw]) == [];
    KeptSnapshotsAppend(a + [raw], b);
    KeptSnapshotsAppend(a, [raw]);
    KeptSnapshotsAppend(a, b);
  }

  /** A snapshot is in the list exactly when some entry converts to it. */
  lemma KeptSnapshotsMember(raws: seq<RawSnapshot>, s: Snapshot)
    ensures s in KeptSnapshots(raws) <==> exists i :: 0 <= i < |raws| && Convert(raws[i]) == Some(s)
  {
    if s in KeptSnapshots(raws) {
      var j :| 0 <= j < |KeptSnapshots(raws)| && KeptSnapshots(raws)[j] == s;
    }
    if exists i :: 0 <= i < |raws| && Convert(raws[i]) == Some(s) {
      var i :| 0 <= i < |raws| && Convert(raws[i]) == Some(s);
      KeptSnapshotsHasEntry(raws, i);
    }
  }

  /** Every entry whose id parses leaves its snapshot in the list. */
  lemma {:induction false} KeptSnapshotsHasEntry(raws: seq<RawSnapshot>, i: nat)
    requires i < |raws| && Convert(raws[i]).Some?
    ensures Convert(raws[i]).value in KeptSnapshots(raws)
  {
    var init := raws[..|raws| - 1];
    if i < |raws| - 1 {
      assert init[i] == raws[i];
      KeptSnapshotsHasEntry(init, i);
    }
  }

  /** The list is as long as the listing exactly when every id parses, and then
      its i-th snapshot comes from the i-th entry. */
  lemma {:induction false} KeptSnapshotsComplete(raws: seq<RawSnapshot>)
    ensures |KeptSnapshots(raws)| <= |raws|
    ensures |KeptSnapshots(raws)| == |raws| <==> forall i :: 0 <= i < |raws| ==> ParseInt(raws[i].id).Some?
    ensures |KeptSnapshots(raws)| == |raws| ==>
              forall i :: 0 <= i < |raws| ==> Convert(raws[i]) == Some(KeptSnapshots(raws)[i])
  {
    if raws != [] {
      var init := raws[..|raws| - 1];
      var last := raws[|raws| - 1];
      KeptSnapshotsComplete(init);
      var k := KeptSnapshots(raws);
      if |k| == |raws| {
        assert Convert(last).Some?;
        forall i | 0 <= i < |raws| ensures Convert(raws[i]) == Some(k[i]) {
          if i < |raws| - 1 {
            assert raws[i] == init[i];
            assert k[i] == KeptSnapshots(init)[i];
          }
        }
      }
      assert (forall i :: 0 <= i < |raws| ==> ParseInt(raws[i].id).Some?)
         ==> (forall i :: 0 <= i < |init| ==> ParseInt(init[i].id).Some?) && Convert(last).Some?;
    }
  }

  /** The record after retreiveInfos has read `info`: format and size as
      reported, encryption forced on when a secret is held locally and
      otherwise as reported, the snapshot list rebuilt from the listing, and
      nothing else changed. */
  function Reconcile(i: Image, info: ImgInfo): (r: Image)
    ensures r.format == info.format && r.size == info.size
    ensures r.encrypted <==> i.secret != "" || info.encrypted
    ensures r.snapshots == KeptSnapshots(info.snapshots)
    ensures r.path == i.path && r.secret == i.secret && r.backingFile == i.backingFile
    ensures SameGeometry(r, i) && SameCipher(r, i)
  {
    i.(format := info.format,
       size := info.size,
       encrypted := if i.secret != "" then true else info.encrypted,
       snapshots := KeptSnapshots(info.snapshots))
  }

  /** Reading the same record twice changes nothing more than reading it once. */
  lemma ReconcileIdempotent(i: Image, info: ImgInfo)
    ensures Reconcile(Reconcile(i, info), info) == Reconcile(i, info)
  {
  }

  /** A record read by retreiveInfos no longer depends on what the fields
      rewritten from `info` held before. */
  lemma ReconcileForgetsOldInfo(i: Image, j: Image, info: ImgInfo)
    requires i.path == j.path && i.secret == j.secret && i.backingFile == j.backingFile
    requires SameGeometry(i, j) && SameCipher(i, j)
    ensures Reconcile(i, info) == Reconcile(j, info)
  {
  }

  /** The snapshot list Snapshots returns after a run of `qemu-img info`: the
      run's error, or the list retreiveInfos builds from the decoded record
      (an empty listing gives an empty list, never an error). */
  function Listing(out: InfoOutcome): (r: Result<seq<Snapshot>, ImageError>)
    ensures r.Ok? <==> out.InfoParsed?
    ensures out.InfoFailed? ==> r == Err(ToolFailed)
    ensures out.InfoUnparsable? ==> r == Err(InvalidJson)
    ensures r.Ok? ==> r.value == KeptSnapshots(out.info.snapshots) && |r.value| <= |out.info.snapshots|
    ensures out.InfoParsed? && out.info.snapshots == [] ==> r == Ok([])
  {
    match out
    case InfoFailed => Err(ToolFailed)
    case InfoUnparsable => Err(InvalidJson)
    case InfoParsed(info) => Ok(KeptSnapshots(info.snapshots))
  }

  /** The first snapshot of the list with the given name, if any. */
  function FirstByName(snaps: seq<Snapshot>, name: string): (r: Option<Snapshot>)
    ensures r.Some? <==> exists i :: 0 <= i < |snaps| && snaps[i].name == name
    ensures r.Some? ==> exists i :: 0 <= i < |snaps| && snaps[i] == r.value && r.value.name == name
                                    && forall j :: 0 <= j < i ==> snaps[j].name != name
  {
    if snaps == [] then None
    else if snaps[0].name == name then Some(snaps[0])
    else
      var r := FirstByName(snaps[1..], name);
      assert forall i :: 1 <= i < |snaps| ==> snaps[i] == snaps[1..][i - 1];
      r
  }

  /** After a listing, a snapshot with the given name is found exactly when an
      entry with that name has an id that parses. */
  lemma FoundInListing(raws: seq<RawSnapshot>, name: string)
    ensures FirstByName(KeptSnapshots(raws), name).Some?
        <==> exists i :: 0 <= i < |raws| && raws[i].name == name && ParseInt(raws[i].id).Some?
  {
    var k := KeptSnapshots(raws);
    if FirstByName(k, name).Some? {
      var j :| 0 <= j < |k| && k[j].name == name;
      KeptSnapshotsMember(raws, k[j]);
    }
    if exists i :: 0 <= i < |raws| && raws[i].name == name && ParseInt(raws[i].id).Some? {
      var i :| 0 <= i < |raws| && raws[i].name == name && ParseInt(raws[i].id).Some?;
      var s := Convert(raws[i]).value;
      KeptSnapshotsMember(raws, s);
      var j :| 0 <= j < |k| && k[j] == s;
    }
  }
}
