/** The `Image` and `Snapshot` records of image.go, the two constructors and the
    two configuration profiles. All of these are values: the Go functions either
    build a fresh struct or take a value receiver and return its modified copy. */
module Images {
  import opened Wrappers
  import opened Decimal

  // Format names, compatibility levels, preallocation modes and cipher choices
  // (image.go:12-37); only the ones the model uses are listed.
  const FormatQcow2: string := "qcow2"
  const CompatLevelQcow3: string := "1.1"
  const PreallocMetadata: string := "metadata"
  const PreallocFull: string := "full"
  const CipherAlgorithmAes256: string := "aes-256"
  const CipherHashAlgorithmSha256: string := "sha256"
  const CipherFormatLuks: string := "luks"
  const CipherModeXts: string := "xts"
  const IvGenAlgPlain64: string := "plain64"
  const IvGenHashAlgorithmSha256: string := "sha256"

  // The geometry qemu-img assumes when an option is not given.
  const DefaultClusterSizeKB: int := 64
  const DefaultRefcountBits: int := 16

  /** The error tags of image.go; the message texts are not modelled. */
  datatype ImageError =
    | NotFound             // os.Stat reported that the path does not exist
    | ToolFailed           // qemu-img exited with a non-zero status
    | InvalidJson          // 'qemu-img info' printed something that is not the expected JSON
    | NotQcow2             // encryption was asked for on a format other than qcow2
    | SecretRequired       // OpenImage found an encrypted image
    | SecretEmpty          // OpenEncryptedImage was given an empty secret
    | NotEncrypted         // OpenEncryptedImage found an unencrypted image
    | SnapshotNotFound     // the snapshot just created is not in the listing

  /** A point in time as 'qemu-img info' reports it: seconds and nanoseconds. */
  datatype Timestamp = Timestamp(sec: int64, nsec: int64)

  datatype Snapshot = Snapshot(id: int64, name: string, date: Timestamp, vmClock: Timestamp)

  datatype Image = Image(
    path: string,
    format: string,
    size: uint64,
    secret: string,
    backingFile: string,
    encrypted: bool,
    lazyRefcounts: bool,
    compatLevel: string,
    refcountBits: int64,
    clusterSizeKB: int64,
    extendedL2: bool,
    preallocation: string,
    cipherAlgorithm: string,
    cipherMode: string,
    cipherFormat: string,
    cipherHashAlg: string,
    encryptIterTime: int64,
    encryptIvGenAlg: string,
    encryptIvGenHashAlg: string,
    snapshots: seq<Snapshot>)

  /** Go's zero value of the struct, `var img Image`. */
  const ZeroImage: Image :=
    Image("", "", 0, "", "", false, false, "", 0, 0, false, "", "", "", "", "", 0, "", "", [])

  /** Two records agree on everything except the geometry and cipher settings
      that the profiles rewrite. */
  predicate SameIdentity(a: Image, b: Image) {
    && a.path == b.path
    && a.format == b.format
    && a.size == b.size
    && a.secret == b.secret
    && a.backingFile == b.backingFile
    && a.encrypted == b.encrypted
    && a.snapshots == b.snapshots
  }

  /** Two records agree on every geometry setting. */
  predicate SameGeometry(a: Image, b: Image) {
    && a.lazyRefcounts == b.lazyRefcounts
    && a.compatLevel == b.compatLevel
    && a.refcountBits == b.refcountBits
    && a.clusterSizeKB == b.clusterSizeKB
    && a.extendedL2 == b.extendedL2
    && a.preallocation == b.preallocation
  }

  /** Two records agree on every encryption setting. */
  predicate SameCipher(a: Image, b: Image) {
    && a.cipherAlgorithm == b.cipherAlgorithm
    && a.cipherMode == b.cipherMode
    && a.cipherFormat == b.cipherFormat
    && a.cipherHashAlg == b.cipherHashAlg
    && a.encryptIterTime == b.encryptIterTime
    && a.encryptIvGenAlg == b.encryptIvGenAlg
    && a.encryptIvGenHashAlg == b.encryptIvGenHashAlg
  }

  /** NewImage: a zero record with the identity filled in and the default geometry. */
  function NewImage(path: string, format: string, size: uint64): (img: Image)
    ensures SameIdentity(img, ZeroImage.(path := path, format := format, size := size))
    ensures !img.encrypted && img.secret == ""
    ensures img.clusterSizeKB == DefaultClusterSizeKB && img.refcountBits == DefaultRefcountBits
    ensures SameGeometry(img, ZeroImage.(clusterSizeKB := DefaultClusterSizeKB, refcountBits := DefaultRefcountBits))
    ensures SameCipher(img, ZeroImage)
  {
    ZeroImage.(path := path, format := format, size := size,
               clusterSizeKB := DefaultClusterSizeKB, refcountBits := DefaultRefcountBits)
  }

  /** NewEncryptedImage returns the populated record together with an error, and
      the error is reported only for a format other than qcow2. */
  function NewEncryptedImage(path: string, format: string, secret: string, size: uint64)
    : (r: (Image, Option<ImageError>))
    ensures r.1 != None <==> format != FormatQcow2
    ensures r.1 != None ==> r.1 == Some(NotQcow2)
  {
    var img := ZeroImage.(path := path, format := format, size := size, secret := secret,
                          encrypted := true, clusterSizeKB := DefaultClusterSizeKB, refcountBits := DefaultRefcountBits);
    if format != FormatQcow2 then (img, Some(NotQcow2)) else (img, None)
  }

  /** The record NewEncryptedImage returns, whether or not it also returns an
      error, is NewImage's record with the secret held and encryption switched on. */
  lemma EncryptedImageIsPlainImagePlusSecret(path: string, format: string, secret: string, size: uint64)
    ensures NewEncryptedImage(path, format, secret, size).0
         == NewImage(path, format, size).(secret := secret, encrypted := true)
    ensures var img := NewEncryptedImage(path, format, secret, size).0;
            img.encrypted && img.secret == secret
            && img.clusterSizeKB == DefaultClusterSizeKB && img.refcountBits == DefaultRefcountBits
  {
  }

  /** The record carries the AES-256/XTS/LUKS suite with SHA-256 hashing,
      plain64 IV generation and the given key-derivation time. */
  predicate HasCipherSuite(r: Image, iterTime: int64) {
    && r.cipherAlgorithm == CipherAlgorithmAes256
    && r.cipherHashAlg == CipherHashAlgorithmSha256
    && r.cipherFormat == CipherFormatLuks
    && r.cipherMode == CipherModeXts
    && r.encryptIvGenAlg == IvGenAlgPlain64
    && r.encryptIterTime == iterTime
    && r.encryptIvGenHashAlg == IvGenHashAlgorithmSha256
  }

  /** The fixed cipher suite both profiles install on an encrypted image. */
  function WithCipherSuite(i: Image, iterTime: int64): Image {
    i.(cipherAlgorithm := CipherAlgorithmAes256,
       cipherHashAlg := CipherHashAlgorithmSha256,
       cipherFormat := CipherFormatLuks,
       cipherMode := CipherModeXts,
       encryptIvGenAlg := IvGenAlgPlain64,
       encryptIterTime := iterTime,
       encryptIvGenHashAlg := IvGenHashAlgorithmSha256)
  }

  /** OptimizeSpeed: lazy refcounts, qcow3 compatibility, 64 refcount bits, 1 MiB
      clusters, extended L2 tables, full preallocation and, on an encrypted image,
      the AES-256/XTS/LUKS suite with a 1000 ms key-derivation time. */
  function OptimizeSpeed(i: Image): (r: Image)
    ensures SameIdentity(r, i)
    ensures r.lazyRefcounts && r.compatLevel == CompatLevelQcow3 && r.extendedL2
    ensures r.refcountBits == 64 && r.clusterSizeKB == 1024 && r.preallocation == PreallocFull
    ensures !i.encrypted ==> SameCipher(r, i)
    ensures i.encrypted ==> HasCipherSuite(r, 1000)
  {
    var r := i.(lazyRefcounts := true,
                compatLevel := CompatLevelQcow3,
                refcountBits := 64,
                clusterSizeKB := 1024,
                extendedL2 := true,
                preallocation := PreallocFull);
    if r.encrypted then WithCipherSuite(r, 1000) else r
  }

  /** OptimizeSize: 16 refcount bits, 64 KiB clusters, extended L2 tables,
      metadata preallocation and, on an encrypted image, the same cipher suite with
      a 2000 ms key-derivation time. Lazy refcounts and the compatibility level are
      left as they were. */
  function OptimizeSize(i: Image): (r: Image)
    ensures SameIdentity(r, i)
    ensures r.lazyRefcounts == i.lazyRefcounts && r.compatLevel == i.compatLevel
    ensures r.refcountBits == DefaultRefcountBits && r.clusterSizeKB == DefaultClusterSizeKB
    ensures r.extendedL2 && r.preallocation == PreallocMetadata
    ensures !i.encrypted ==> SameCipher(r, i)
    ensures i.encrypted ==> HasCipherSuite(r, 2000)
  {
    var r := i.(refcountBits := DefaultRefcountBits,
                clusterSizeKB := DefaultClusterSizeKB,
                extendedL2 := true,
                preallocation := PreallocMetadata);
    if r.encrypted then WithCipherSuite(r, 2000) else r
  }

  /** Applying a profile twice is applying it once. */
  lemma ProfilesIdempotent(i: Image)
    ensures OptimizeSpeed(OptimizeSpeed(i)) == OptimizeSpeed(i)
    ensures OptimizeSize(OptimizeSize(i)) == OptimizeSize(i)
  {
  }

  /** Speed then size: the size profile's geometry and key-derivation time win,
      while lazy refcounts and qcow3 compatibility carry over from the speed
      profile because OptimizeSize does not reset them. */
  lemma SizeAfterSpeed(i: Image)
    ensures var r := OptimizeSize(OptimizeSpeed(i));
            && SameIdentity(r, i)
            && r.refcountBits == 16 && r.clusterSizeKB == 64
            && r.extendedL2 && r.preallocation == PreallocMetadata
            && r.lazyRefcounts && r.compatLevel == CompatLevelQcow3
            && (i.encrypted ==> HasCipherSuite(r, 2000))
            && (!i.encrypted ==> SameCipher(r, i))
  {
  }

  /** Hence speed-then-size is not the size profile alone: on a fresh record the
      two differ in lazy refcounts and the compatibility level. */
  lemma SizeAfterSpeedDiffersFromSize(path: string, format: string, size: uint64)
    ensures var i := NewImage(path, format, size);
            OptimizeSize(OptimizeSpeed(i)) != OptimizeSize(i)
  {
    var i := NewImage(path, format, size);
    assert !OptimizeSize(i).lazyRefcounts;
  }
}
