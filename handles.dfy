/** The operations of image.go that take an `*Image` receiver
    (retreiveInfos, CreateSnapshot, SetBackingFile, Rebase), the value-receiver
    Snapshots that runs retreiveInfos on its own copy, and the two functions
    that open an existing image. The outcome of each qemu-img run and of each
    os.Stat call is a parameter. */
module Handles {
  import opened Wrappers
  import opened Decimal
  import opened Images
  import opened Commands
  import opened Infos

  /** What os.Stat said about a path. Only "does not exist" stops the caller;
      any other stat error is ignored. */
  datatype StatOutcome = Exists | NotExist | OtherError

  /** The first snapshot named `name`, by a linear search that stops at the
      first match (image.go:249-255 and 277-283). */
  method FindSnapshot(snaps: seq<Snapshot>, name: string) returns (found: Option<Snapshot>)
    ensures found == FirstByName(snaps, name)
  {
    found := None;
    var k := 0;
    while k < |snaps|
      invariant 0 <= k <= |snaps|
      invariant found.None? ==> FirstByName(snaps, name) == FirstByName(snaps[k..], name)
      invariant found.Some? ==> found == FirstByName(snaps, name)
    {
      if snaps[k].name == name {
        found := Some(snaps[k]);
        break;
      }
      k := k + 1;
    }
  }

  /** An `*Image`: the record that the methods with that receiver update in place. */
  class ImageHandle {
    var image: Image

    constructor(img: Image)
      ensures image == img
    {
      image := img;
    }

    /** retreiveInfos: on a failed run or unreadable output the record is left
        as it was; otherwise format, size, encryption and the snapshot list are
        rewritten from the decoded record. The copy of the record is returned
        either way. */
    method RetrieveInfos(out: InfoOutcome) returns (copy: Image, err: Option<ImageError>)
      modifies this
      ensures out.InfoFailed? ==> err == Some(ToolFailed) && image == old(image)
      ensures out.InfoUnparsable? ==> err == Some(InvalidJson) && image == old(image)
      ensures out.InfoParsed? ==> err == None && image == Reconcile(old(image), out.info)
      ensures copy == image
    {
      match out {
        case InfoFailed =>
          return image, Some(ToolFailed);
        case InfoUnparsable =>
          return image, Some(InvalidJson);
        case InfoParsed(info) =>
          image := image.(format := info.format, size := info.size);
          if image.secret != "" {
            image := image.(encrypted := true);
          } else {
            image := image.(encrypted := info.encrypted);
          }
          var snaps: seq<Snapshot> := [];
          var raws := info.snapshots;
          var k := 0;
          while k < |raws|
            invariant 0 <= k <= |raws|
            invariant snaps == KeptSnapshots(raws[..k])
          {
            assert raws[..k + 1][..k] == raws[..k];
            var id := ParseInt(raws[k].id);
            if id.None? {
              k := k + 1;
              continue;
            }
            var s := Snapshot(id.value, raws[k].name, Timestamp(raws[k].dateSec, raws[k].dateNsec),
                              Timestamp(raws[k].clockSec, raws[k].clockNsec));
            snaps := snaps + [s];
            k := k + 1;
          }
          assert raws[..k] == raws;
          image := image.(snapshots := snaps);
          return image, None;
      }
    }

    /** Snapshots: a value receiver, so the listing is read into a copy and the
        record itself keeps its old snapshot list. */
    method Snapshots(out: InfoOutcome) returns (r: Result<seq<Snapshot>, ImageError>)
      ensures r == Listing(out)
    {
      var copy := new ImageHandle(image);
      var _, err := copy.RetrieveInfos(out);
      if err.Some? {
        return Err(err.value);
      }
      return Ok(copy.image.snapshots);
    }

    /** CreateSnapshot: runs `qemu-img snapshot -c`, lists the snapshots again
        and returns the first one carrying the new name. A failed run, a failed
        listing or a missing name is an error; the record is not changed. */
    method CreateSnapshot(name: string, ran: bool, listing: InfoOutcome)
      returns (args: seq<string>, r: Result<Snapshot, ImageError>)
      ensures args == SnapshotArgs(image, CreateSnapshotOp, name)
      ensures !ran ==> r == Err(ToolFailed)
      ensures ran && Listing(listing).Err? ==> r == Err(Listing(listing).error)
      ensures ran && Listing(listing).Ok? ==>
                r == match FirstByName(Listing(listing).value, name)
                     case Some(s) => Ok(s)
                     case None => Err(SnapshotNotFound)
    {
      args := SnapshotArgs(image, CreateSnapshotOp, name);
      if !ran {
        return args, Err(ToolFailed);
      }
      var snaps := Snapshots(listing);
      if snaps.Err? {
        return args, Err(snaps.error);
      }
      var found := FindSnapshot(snaps.value, name);
      if found.Some? {
        r := Ok(found.value);
      } else {
        r := Err(SnapshotNotFound);
      }
    }

    /** SetBackingFile: refused, with the record unchanged, only when the file
        does not exist. */
    method SetBackingFile(backingFile: string, stat: StatOutcome) returns (err: Option<ImageError>)
      modifies this
      ensures stat == NotExist ==> err == Some(NotFound) && image == old(image)
      ensures stat != NotExist ==> err == None && image == old(image).(backingFile := backingFile)
    {
      if stat == NotExist {
        return Some(NotFound);
      }
      image := image.(backingFile := backingFile);
      return None;
    }

    /** Rebase: the backing file is recorded before `qemu-img rebase` runs, so
        it stays recorded when the run fails. */
    method Rebase(backingFile: string, ran: bool) returns (args: seq<string>, err: Option<ImageError>)
      modifies this
      ensures image == old(image).(backingFile := backingFile)
      ensures args == RebaseArgs(backingFile, image.path)
      ensures err == if ran then None else Some(ToolFailed)
    {
      image := image.(backingFile := backingFile);
      args := RebaseArgs(backingFile, image.path);
      err := if ran then None else Some(ToolFailed);
    }
  }

  /** OpenImage: a missing file gives the zero record; a failed listing gives the
      record holding only the path; an encrypted image is refused because no
      secret was given, although its record is returned read. */
  method OpenImage(path: string, stat: StatOutcome, out: InfoOutcome) returns (img: Image, err: Option<ImageError>)
    ensures stat == NotExist ==> img == ZeroImage && err == Some(NotFound)
    ensures stat != NotExist && out.InfoFailed? ==> img == ZeroImage.(path := path) && err == Some(ToolFailed)
    ensures stat != NotExist && out.InfoUnparsable? ==> img == ZeroImage.(path := path) && err == Some(InvalidJson)
    ensures stat != NotExist && out.InfoParsed? ==>
              img == Reconcile(ZeroImage.(path := path), out.info)
              && (err == Some(SecretRequired) <==> out.info.encrypted)
              && (err != Some(SecretRequired) ==> err == None)
  {
    img := ZeroImage;
    if stat == NotExist {
      return img, Some(NotFound);
    }
    img := img.(path := path);
    var h := new ImageHandle(img);
    img, err := h.RetrieveInfos(out);
    if err.Some? {
      return;
    }
    if img.encrypted {
      return img, Some(SecretRequired);
    }
    return img, None;
  }

  /** OpenEncryptedImage: as OpenImage, but the record holds the secret and is
      marked encrypted before the listing; an empty secret is refused after the
      listing. Since a held secret forces the record's encryption on, the "not
      encrypted" refusal is never reached: any existing, listable image opens
      with a non-empty secret. */
  method OpenEncryptedImage(path: string, secret: string, stat: StatOutcome, out: InfoOutcome)
    returns (img: Image, err: Option<ImageError>)
    ensures stat == NotExist ==> img == ZeroImage && err == Some(NotFound)
    ensures stat != NotExist && out.InfoFailed? ==>
              img == ZeroImage.(path := path, encrypted := true, secret := secret) && err == Some(ToolFailed)
    ensures stat != NotExist && out.InfoUnparsable? ==>
              img == ZeroImage.(path := path, encrypted := true, secret := secret) && err == Some(InvalidJson)
    ensures stat != NotExist && out.InfoParsed? ==>
              img == Reconcile(ZeroImage.(path := path, encrypted := true, secret := secret), out.info)
              && err == (if secret == "" then Some(SecretEmpty) else None)
    ensures err != Some(NotEncrypted)
    ensures err == None ==> img.encrypted && img.secret == secret && img.path == path
  {
    img := ZeroImage;
    if stat == NotExist {
      return img, Some(NotFound);
    }
    img := img.(path := path, encrypted := true, secret := secret);
    var h := new ImageHandle(img);
    img, err := h.RetrieveInfos(out);
    if err.Some? {
      return;
    }
    if secret == "" {
      return img, Some(SecretEmpty);
    }
    if !img.encrypted {
      assert false;
      return img, Some(NotEncrypted);
    }
    return img, None;
  }
}
