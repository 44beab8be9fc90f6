/** The qemu-img argument lists that image.go builds for `create`, `snapshot`
    and `rebase` (everything after the program name passed to exec.Command),
    together with a reader for them, so that what an argument list says can be
    stated as "reading it back gives these settings". */
module Commands {
  import opened Wrappers
  import opened Decimal
  import opened Images
  import opened Options

  // ---------------------------------------------------------------------------
  // `qemu-img create` (image.go:400-519)

  /** The id under which the secret object is registered. */
  const SecretId: string := "sec0"
  const SecretObjectPrefix: string := "secret,id=sec0,data="

  function OptIf(cond: bool, key: OptKey, value: string): seq<Opt> {
    if cond then [Opt(key, value)] else []
  }

  /** The geometry options, as both branches of Create append them
      (image.go:404-434 and 452-482): exactly the table over the geometry keys. */
  function GeometryOptions(img: Image): (r: seq<Opt>)
    ensures r == TableOptions(img, GeometryKeys)
  {
    GeometryRows(img);
    GeometryRowValues(img);
    OptIf(|img.backingFile| > 0, BackingFile, img.backingFile)
    + OptIf(|img.compatLevel| > 0, Compat, img.compatLevel)
    + OptIf(img.clusterSizeKB != DefaultClusterSizeKB, ClusterSize, FormatInt(img.clusterSizeKB) + "K")
    + OptIf(img.extendedL2, ExtendedL2, "on")
    + OptIf(img.lazyRefcounts, LazyRefcounts, "on")
    + (if |img.preallocation| > 0 then [Opt(Preallocation, img.preallocation)]
       else [Opt(Preallocation, PreallocMetadata)])
    + OptIf(img.refcountBits != DefaultRefcountBits, RefcountBits, FormatInt(img.refcountBits))
  }

  /** The cipher options of the encrypted branch (image.go:484-506): exactly
      the table over the cipher keys. */
  function EncryptionOptions(img: Image): (r: seq<Opt>)
    ensures r == TableOptions(img, EncryptionKeys)
  {
    EncryptionRows(img);
    EncryptionRowValues(img);
    OptIf(img.encryptIterTime != 0, IterTime, FormatInt(img.encryptIterTime))
    + OptIf(|img.encryptIvGenHashAlg| > 0, IvGenHashAlg, img.encryptIvGenHashAlg)
    + OptIf(|img.encryptIvGenAlg| > 0, IvGenAlg, img.encryptIvGenAlg)
    + OptIf(|img.cipherMode| > 0, CipherMode, img.cipherMode)
    + OptIf(|img.cipherAlgorithm| > 0, CipherAlg, img.cipherAlgorithm)
    + OptIf(|img.cipherHashAlg| > 0, HashAlg, img.cipherHashAlg)
    + (if |img.cipherFormat| > 0 then [Opt(CipherFormat, img.cipherFormat)]
       else [Opt(CipherFormat, CipherFormatLuks)])
  }

  /** All `-o` options of Create, the key-secret reference first when encrypted:
      exactly the table over the keys Create may pass. */
  function CreateOptions(img: Image): (r: seq<Opt>)
    ensures r == TableOptions(img, CreateKeys(img))
  {
    if img.encrypted then
      TableOptionsAppend(img, [KeySecret] + GeometryKeys, EncryptionKeys);
      TableOptionsAppend(img, [KeySecret], GeometryKeys);
      TableOptionsSnoc(img, [], KeySecret);
      assert [] + [KeySecret] == [KeySecret];
      [Opt(KeySecret, SecretId)] + GeometryOptions(img) + EncryptionOptions(img)
    else GeometryOptions(img)
  }

  /** The arguments of `qemu-img create`. An encrypted image must be qcow2; it
      gets the secret object and `-f` before its options. The path and the size
      are always the last two arguments. */
  function CreateArgs(img: Image): (r: Result<seq<string>, ImageError>)
    ensures r.Err? <==> img.encrypted && img.format != FormatQcow2
    ensures r.Err? ==> r.error == NotQcow2
    ensures r.Ok? ==> |r.value| >= 5 && r.value[0] == "create"
                      && r.value[|r.value| - 2] == img.path
                      && r.value[|r.value| - 1] == FormatNat(img.size)
  {
    if !img.encrypted then
      Ok(["create", "-f", img.format] + RenderOptions(CreateOptions(img)) + [img.path, FormatNat(img.size)])
    else if img.format != FormatQcow2 then
      Err(NotQcow2)
    else
      Ok(["create", "--object", SecretObjectPrefix + img.secret, "-f", img.format]
         + RenderOptions(CreateOptions(img)) + [img.path, FormatNat(img.size)])
  }

  // The specification of Create's options: which keys it may pass, in what
  // order, and the value each key takes.

  const GeometryKeys: seq<OptKey> :=
    [BackingFile, Compat, ClusterSize, ExtendedL2, LazyRefcounts, Preallocation, RefcountBits]

  const EncryptionKeys: seq<OptKey> :=
    [IterTime, IvGenHashAlg, IvGenAlg, CipherMode, CipherAlg, HashAlg, CipherFormat]

  /** The option keys Create may pass, in the order it passes them. */
  function CreateKeys(img: Image): (keys: seq<OptKey>)
    ensures OrderedKeys(keys)
  {
    if img.encrypted then [KeySecret] + GeometryKeys + EncryptionKeys else GeometryKeys
  }

  /** The value Create gives option `key`, or None when it leaves it out: a
      geometry option only when it differs from qemu-img's default, the
      preallocation mode always (metadata when unset), a cipher option only when
      set, and the cipher format always (LUKS when unset). */
  function CreateSetting(img: Image, key: OptKey): Option<string> {
    match key
    case BackingFile => if |img.backingFile| > 0 then Some(img.backingFile) else None
    case Compat => if |img.compatLevel| > 0 then Some(img.compatLevel) else None
    case ClusterSize =>
      if img.clusterSizeKB != DefaultClusterSizeKB then Some(FormatInt(img.clusterSizeKB) + "K") else None
    case ExtendedL2 => if img.extendedL2 then Some("on") else None
    case LazyRefcounts => if img.lazyRefcounts then Some("on") else None
    case Preallocation => Some(if |img.preallocation| > 0 then img.preallocation else PreallocMetadata)
    case RefcountBits =>
      if img.refcountBits != DefaultRefcountBits then Some(FormatInt(img.refcountBits)) else None
    case KeySecret => Some(SecretId)
    case IterTime => if img.encryptIterTime != 0 then Some(FormatInt(img.encryptIterTime)) else None
    case IvGenHashAlg => if |img.encryptIvGenHashAlg| > 0 then Some(img.encryptIvGenHashAlg) else None
    case IvGenAlg => if |img.encryptIvGenAlg| > 0 then Some(img.encryptIvGenAlg) else None
    case CipherMode => if |img.cipherMode| > 0 then Some(img.cipherMode) else None
    case CipherAlg => if |img.cipherAlgorithm| > 0 then Some(img.cipherAlgorithm) else None
    case HashAlg => if |img.cipherHashAlg| > 0 then Some(img.cipherHashAlg) else None
    case CipherFormat => Some(if |img.cipherFormat| > 0 then img.cipherFormat else CipherFormatLuks)
  }

  /** The option a key contributes to the table: none when it has no setting. */
  function Row(img: Image, key: OptKey): seq<Opt> {
    match CreateSetting(img, key)
    case Some(v) => [Opt(key, v)]
    case None => []
  }

  /** The options a table of keys yields: one per key that has a setting, in
      the order of the keys. */
  function TableOptions(img: Image, keys: seq<OptKey>): seq<Opt> {
    if keys == [] then [] else Row(img, keys[0]) + TableOptions(img, keys[1..])
  }

  lemma {:induction false} TableOptionsKeys(img: Image, keys: seq<OptKey>)
    ensures forall i :: 0 <= i < |TableOptions(img, keys)| ==> TableOptions(img, keys)[i].key in keys
  {
    if keys != [] {
      TableOptionsKeys(img, keys[1..]);
      var rest := TableOptions(img, keys[1..]);
      var t := TableOptions(img, keys);
      forall i | 0 <= i < |t| ensures t[i].key in keys {
        if i >= |Row(img, keys[0])| {
          assert t[i] == rest[i - |Row(img, keys[0])|];
        }
      }
    }
  }

  /** A table over keys in Create's order yields options in that order, none
      of them twice. */
  lemma {:induction false} TableOptionsOrdered(img: Image, keys: seq<OptKey>)
    requires OrderedKeys(keys)
    ensures Ordered(TableOptions(img, keys))
  {
    if keys != [] {
      var rest := TableOptions(img, keys[1..]);
      TableOptionsOrdered(img, keys[1..]);
      TableOptionsKeys(img, keys[1..]);
      var t := TableOptions(img, keys);
      if CreateSetting(img, keys[0]).Some? {
        assert t == [Opt(keys[0], CreateSetting(img, keys[0]).value)] + rest;
        forall i, j | 0 <= i < j < |t| ensures Rank(t[i].key) < Rank(t[j].key) {
          assert t[j] == rest[j - 1];
          assert t[j].key in keys[1..];
          if i > 0 { assert t[i] == rest[i - 1]; }
        }
      } else {
        assert t == rest;
      }
    }
  }

  /** In a table over keys in Create's order, each key's option carries its
      setting, and a key outside the table has no option. */
  lemma {:induction false} TableOptionsLookup(img: Image, keys: seq<OptKey>, key: OptKey)
    requires OrderedKeys(keys)
    ensures Lookup(TableOptions(img, keys), key) == if key in keys then CreateSetting(img, key) else None
  {
    if keys != [] {
      var rest := TableOptions(img, keys[1..]);
      var t := TableOptions(img, keys);
      TableOptionsLookup(img, keys[1..], key);
      assert key in keys <==> key == keys[0] || key in keys[1..];
      if CreateSetting(img, keys[0]).Some? {
        assert t == [Opt(keys[0], CreateSetting(img, keys[0]).value)] + rest;
        assert t[1..] == rest;
      } else {
        assert t == rest;
      }
      if key == keys[0] {
        assert key !in keys[1..] by {
          forall i | 1 <= i < |keys| ensures keys[i] != keys[0] {
            assert Rank(keys[0]) < Rank(keys[i]);
          }
        }
      }
    }
  }

  lemma {:induction false} TableOptionsAppend(img: Image, a: seq<OptKey>, b: seq<OptKey>)
    ensures TableOptions(img, a + b) == TableOptions(img, a) + TableOptions(img, b)
  {
    if a != [] {
      assert (a + b)[0] == a[0];
      assert (a + b)[1..] == a[1..] + b;
      TableOptionsAppend(img, a[1..], b);
    } else {
      assert a + b == b;
    }
  }

  /** Extending the keys by one extends the table by that key's option. */
  lemma TableOptionsSnoc(img: Image, ks: seq<OptKey>, k: OptKey)
    ensures TableOptions(img, ks + [k]) == TableOptions(img, ks) + Row(img, k)
  {
    TableOptionsAppend(img, ks, [k]);
    assert [k][1..] == [];
  }

  // The two ladders below extend the keys one at a time: stated as a single
  // unfolding of TableOptions, the obligation is too large for the solver.

  /** The table over the geometry keys, row by row. */
  lemma GeometryRows(img: Image)
    ensures TableOptions(img, GeometryKeys)
         == Row(img, BackingFile) + Row(img, Compat) + Row(img, ClusterSize) + Row(img, ExtendedL2)
            + Row(img, LazyRefcounts) + Row(img, Preallocation) + Row(img, RefcountBits)
  {
    var k1, r1 := [BackingFile], Row(img, BackingFile);
    var k2, r2 := k1 + [Compat], r1 + Row(img, Compat);
    var k3, r3 := k2 + [ClusterSize], r2 + Row(img, ClusterSize);
    var k4, r4 := k3 + [ExtendedL2], r3 + Row(img, ExtendedL2);
    var k5, r5 := k4 + [LazyRefcounts], r4 + Row(img, LazyRefcounts);
    var k6, r6 := k5 + [Preallocation], r5 + Row(img, Preallocation);
    var k7, r7 := k6 + [RefcountBits], r6 + Row(img, RefcountBits);
    assert k7 == GeometryKeys;
    assert TableOptions(img, k1) == r1 by { TableOptionsSnoc(img, [], BackingFile); }
    assert TableOptions(img, k2) == r2 by { TableOptionsSnoc(img, k1, Compat); }
    assert TableOptions(img, k3) == r3 by { TableOptionsSnoc(img, k2, ClusterSize); }
    assert TableOptions(img, k4) == r4 by { TableOptionsSnoc(img, k3, ExtendedL2); }
    assert TableOptions(img, k5) == r5 by { TableOptionsSnoc(img, k4, LazyRefcounts); }
    assert TableOptions(img, k6) == r6 by { TableOptionsSnoc(img, k5, Preallocation); }
    assert TableOptions(img, k7) == r7 by { TableOptionsSnoc(img, k6, RefcountBits); }
  }

  /** Each geometry key's row is the option Create appends for it. */
  lemma GeometryRowValues(img: Image)
    ensures Row(img, BackingFile) == OptIf(|img.backingFile| > 0, BackingFile, img.backingFile)
    ensures Row(img, Compat) == OptIf(|img.compatLevel| > 0, Compat, img.compatLevel)
    ensures Row(img, ClusterSize) == OptIf(img.clusterSizeKB != DefaultClusterSizeKB, ClusterSize, FormatInt(img.clusterSizeKB) + "K")
    ensures Row(img, ExtendedL2) == OptIf(img.extendedL2, ExtendedL2, "on")
    ensures Row(img, LazyRefcounts) == OptIf(img.lazyRefcounts, LazyRefcounts, "on")
    ensures Row(img, Preallocation)
         == if |img.preallocation| > 0 then [Opt(Preallocation, img.preallocation)] else [Opt(Preallocation, PreallocMetadata)]
    ensures Row(img, RefcountBits) == OptIf(img.refcountBits != DefaultRefcountBits, RefcountBits, FormatInt(img.refcountBits))
  {
  }

  /** The table over the cipher keys, row by row. */
  lemma EncryptionRows(img: Image)
    ensures TableOptions(img, EncryptionKeys)
         == Row(img, IterTime) + Row(img, IvGenHashAlg) + Row(img, IvGenAlg) + Row(img, CipherMode)
            + Row(img, CipherAlg) + Row(img, HashAlg) + Row(img, CipherFormat)
  {
    var k1, r1 := [IterTime], Row(img, IterTime);
    var k2, r2 := k1 + [IvGenHashAlg], r1 + Row(img, IvGenHashAlg);
    var k3, r3 := k2 + [IvGenAlg], r2 + Row(img, IvGenAlg);
    var k4, r4 := k3 + [CipherMode], r3 + Row(img, CipherMode);
    var k5, r5 := k4 + [CipherAlg], r4 + Row(img, CipherAlg);
    var k6, r6 := k5 + [HashAlg], r5 + Row(img, HashAlg);
    var k7, r7 := k6 + [CipherFormat], r6 + Row(img, CipherFormat);
    assert k7 == EncryptionKeys;
    assert TableOptions(img, k1) == r1 by { TableOptionsSnoc(img, [], IterTime); }
    assert TableOptions(img, k2) == r2 by { TableOptionsSnoc(img, k1, IvGenHashAlg); }
    assert TableOptions(img, k3) == r3 by { TableOptionsSnoc(img, k2, IvGenAlg); }
    assert TableOptions(img, k4) == r4 by { TableOptionsSnoc(img, k3, CipherMode); }
    assert TableOptions(img, k5) == r5 by { TableOptionsSnoc(img, k4, CipherAlg); }
    assert TableOptions(img, k6) == r6 by { TableOptionsSnoc(img, k5, HashAlg); }
    assert TableOptions(img, k7) == r7 by { TableOptionsSnoc(img, k6, CipherFormat); }
  }

  /** Each cipher key's row is the option the encrypted branch of Create appends for it. */
  lemma EncryptionRowValues(img: Image)
    ensures Row(img, IterTime) == OptIf(img.encryptIterTime != 0, IterTime, FormatInt(img.encryptIterTime))
    ensures Row(img, IvGenHashAlg) == OptIf(|img.encryptIvGenHashAlg| > 0, IvGenHashAlg, img.encryptIvGenHashAlg)
    ensures Row(img, IvGenAlg) == OptIf(|img.encryptIvGenAlg| > 0, IvGenAlg, img.encryptIvGenAlg)
    ensures Row(img, CipherMode) == OptIf(|img.cipherMode| > 0, CipherMode, img.cipherMode)
    ensures Row(img, CipherAlg) == OptIf(|img.cipherAlgorithm| > 0, CipherAlg, img.cipherAlgorithm)
    ensures Row(img, HashAlg) == OptIf(|img.cipherHashAlg| > 0, HashAlg, img.cipherHashAlg)
    ensures Row(img, CipherFormat)
         == if |img.cipherFormat| > 0 then [Opt(CipherFormat, img.cipherFormat)] else [Opt(CipherFormat, CipherFormatLuks)]
  {
  }

  /** What a `qemu-img create` argument list says. */
  datatype CreateCommand = CreateCommand(
    secret: Option<string>, format: string, options: seq<Opt>, path: string, size: nat)

  function StripPrefix(s: string, prefix: string): (r: Option<string>)
    ensures r.Some? ==> s == prefix + r.value
  {
    if |prefix| <= |s| && s[..|prefix|] == prefix then Some(s[|prefix|..]) else None
  }

  lemma StripPrefixOfJoin(prefix: string, s: string)
    ensures StripPrefix(prefix + s, prefix) == Some(s)
  {
    assert (prefix + s)[..|prefix|] == prefix;
    assert (prefix + s)[|prefix|..] == s;
  }

  /** Reads a `qemu-img create` argument list: `create`, optionally the secret
      object, `-f` and the format, the options, then the path and the size. */
  function ParseCreateArgs(args: seq<string>): Option<CreateCommand> {
    if |args| < 5 || args[0] != "create" then None
    else
      var path, sizeToken := args[|args| - 2], args[|args| - 1];
      var head := args[..|args| - 2];
      if head[1] == "-f" then
        match (ParseOptions(head[3..]), ParseNat(sizeToken))
        case (Some(opts), Some(n)) => Some(CreateCommand(None, head[2], opts, path, n))
        case _ => None
      else if |head| >= 5 && head[1] == "--object" && head[3] == "-f" then
        match (StripPrefix(head[2], SecretObjectPrefix), ParseOptions(head[5..]), ParseNat(sizeToken))
        case (Some(secret), Some(opts), Some(n)) => Some(CreateCommand(Some(secret), head[4], opts, path, n))
        case _ => None
      else None
  }

  /** Reading back an unencrypted create list gives its format, options, path and size. */
  lemma ParsePlainCreateArgs(format: string, opts: seq<Opt>, path: string, size: nat)
    ensures ParseCreateArgs(["create", "-f", format] + RenderOptions(opts) + [path, FormatNat(size)])
         == Some(CreateCommand(None, format, opts, path, size))
  {
    var args := ["create", "-f", format] + RenderOptions(opts) + [path, FormatNat(size)];
    ParseRenderedOptions(opts);
    ParseNatOfFormatNat(size);
    var head := args[..|args| - 2];
    assert head == ["create", "-f", format] + RenderOptions(opts);
    assert head[3..] == RenderOptions(opts);
  }

  /** Reading back an encrypted create list also gives the secret. */
  lemma ParseEncryptedCreateArgs(secret: string, format: string, opts: seq<Opt>, path: string, size: nat)
    ensures ParseCreateArgs(["create", "--object", SecretObjectPrefix + secret, "-f", format]
                            + RenderOptions(opts) + [path, FormatNat(size)])
         == Some(CreateCommand(Some(secret), format, opts, path, size))
  {
    var args := ["create", "--object", SecretObjectPrefix + secret, "-f", format]
                + RenderOptions(opts) + [path, FormatNat(size)];
    ParseRenderedOptions(opts);
    ParseNatOfFormatNat(size);
    StripPrefixOfJoin(SecretObjectPrefix, secret);
    var head := args[..|args| - 2];
    assert head == ["create", "--object", SecretObjectPrefix + secret, "-f", format] + RenderOptions(opts);
    assert head[5..] == RenderOptions(opts);
    assert head[1] == "--object" && head[1] != "-f" && head[3] == "-f";
    assert head[2] == SecretObjectPrefix + secret && head[4] == format;
  }

  /** Reading Create's argument list back gives the secret exactly when the
      image is encrypted, the format, the options Create built, the path and
      the size. */
  lemma ParseCreateArgsRoundTrip(img: Image)
    requires CreateArgs(img).Ok?
    ensures ParseCreateArgs(CreateArgs(img).value)
         == Some(CreateCommand(if img.encrypted then Some(img.secret) else None,
                               img.format, CreateOptions(img), img.path, img.size))
  {
    if img.encrypted {
      ParseEncryptedCreateArgs(img.secret, img.format, CreateOptions(img), img.path, img.size);
    } else {
      ParsePlainCreateArgs(img.format, CreateOptions(img), img.path, img.size);
    }
  }

  /** What `qemu-img create` is told: the secret exactly when the image is
      encrypted, the format, the path, the size, and the options in the fixed
      order with none repeated, each key present with its table value exactly
      when the table has one for this image. */
  lemma CreateArgsMeaning(img: Image)
    requires CreateArgs(img).Ok?
    ensures var cmd := ParseCreateArgs(CreateArgs(img).value);
            && cmd.Some?
            && cmd.value.secret == (if img.encrypted then Some(img.secret) else None)
            && cmd.value.format == img.format
            && cmd.value.path == img.path
            && cmd.value.size == img.size
            && Ordered(cmd.value.options)
            && (forall k :: Lookup(cmd.value.options, k) == if k in CreateKeys(img) then CreateSetting(img, k) else None)
  {
    var opts := CreateOptions(img);
    ParseCreateArgsRoundTrip(img);
    TableOptionsOrdered(img, CreateKeys(img));
    forall k ensures Lookup(opts, k) == if k in CreateKeys(img) then CreateSetting(img, k) else None {
      TableOptionsLookup(img, CreateKeys(img), k);
    }
  }

  /** A record with NewImage's geometry passes only the preallocation default. */
  lemma DefaultGeometryOptions(img: Image)
    requires img.backingFile == ""
    requires SameGeometry(img, ZeroImage.(clusterSizeKB := DefaultClusterSizeKB, refcountBits := DefaultRefcountBits))
    ensures GeometryOptions(img) == [Opt(Preallocation, PreallocMetadata)]
  {
  }

  /** A record with no cipher settings passes only the LUKS default. */
  lemma DefaultEncryptionOptions(img: Image)
    requires SameCipher(img, ZeroImage)
    ensures EncryptionOptions(img) == [Opt(CipherFormat, CipherFormatLuks)]
  {
  }

  /** The options of a fresh NewImage record: only the preallocation default. */
  lemma NewImageOptions(path: string, format: string, size: uint64)
    ensures CreateOptions(NewImage(path, format, size)) == [Opt(Preallocation, PreallocMetadata)]
  {
    DefaultGeometryOptions(NewImage(path, format, size));
  }

  /** The options of a fresh NewEncryptedImage record: the key-secret reference,
      the preallocation default and the LUKS default. */
  lemma NewEncryptedImageOptions(path: string, format: string, secret: string, size: uint64)
    ensures CreateOptions(NewEncryptedImage(path, format, secret, size).0)
         == [Opt(KeySecret, SecretId), Opt(Preallocation, PreallocMetadata), Opt(CipherFormat, CipherFormatLuks)]
  {
    var img := NewEncryptedImage(path, format, secret, size).0;
    EncryptedImageIsPlainImagePlusSecret(path, format, secret, size);
    DefaultGeometryOptions(img);
    DefaultEncryptionOptions(img);
  }

  /** The tokens of those default options. */
  lemma RenderDefaultOptions()
    ensures RenderOptions([Opt(Preallocation, PreallocMetadata)]) == ["-o", "preallocation=metadata"]
    ensures RenderOptions([Opt(KeySecret, SecretId), Opt(Preallocation, PreallocMetadata), Opt(CipherFormat, CipherFormatLuks)])
         == ["-o", "encrypt.key-secret=sec0", "-o", "preallocation=metadata", "-o", "encrypt.format=luks"]
  {
    var opts := [Opt(KeySecret, "sec0"), Opt(Preallocation, "metadata"), Opt(CipherFormat, "luks")];
    assert KeyName(Preallocation) + "=" + "metadata" == "preallocation=metadata";
    assert KeyName(CipherFormat) + "=" + "luks" == "encrypt.format=luks";
    assert KeyName(KeySecret) + "=" + "sec0" == "encrypt.key-secret=sec0";
    assert opts[1..][1..] == [Opt(CipherFormat, "luks")];
    assert RenderOptions(opts[1..][1..]) == ["-o", "encrypt.format=luks"];
    assert RenderOptions(opts[1..]) == ["-o", "preallocation=metadata", "-o", "encrypt.format=luks"];
  }

  // CreateArgsOfRendered and the two ...DefaultArgsLayout lemmas only split the proofs of
  // the fresh-record argument lists below into steps the solver can afford.

  /** The argument list of Create once its options are rendered. */
  lemma CreateArgsOfRendered(img: Image, rendered: seq<string>)
    requires CreateArgs(img).Ok? && RenderOptions(CreateOptions(img)) == rendered
    ensures CreateArgs(img).value
         == (if img.encrypted then ["create", "--object", SecretObjectPrefix + img.secret, "-f", img.format]
             else ["create", "-f", img.format]) + rendered + [img.path, FormatNat(img.size)]
  {
  }

  /** The unencrypted argument list with the default option, spelled out. */
  lemma PlainDefaultArgsLayout(format: string, path: string, size: nat)
    ensures ["create", "-f", format] + ["-o", "preallocation=metadata"] + [path, FormatNat(size)]
         == ["create", "-f", format, "-o", "preallocation=metadata", path, FormatNat(size)]
  {
  }

  /** An unencrypted record whose options render as those of a fresh one is
      created with `-f` and the preallocation option alone. */
  lemma FreshPlainCreateArgs(img: Image)
    requires !img.encrypted
    requires RenderOptions(CreateOptions(img)) == ["-o", "preallocation=metadata"]
    ensures CreateArgs(img)
         == Ok(["create", "-f", img.format, "-o", "preallocation=metadata", img.path, FormatNat(img.size)])
  {
    CreateArgsOfRendered(img, RenderOptions(CreateOptions(img)));
    PlainDefaultArgsLayout(img.format, img.path, img.size);
  }

  /** A fresh NewImage record is created with only the preallocation option. */
  lemma NewImageCreateArgs(path: string, format: string, size: uint64)
    ensures CreateArgs(NewImage(path, format, size))
         == Ok(["create", "-f", format, "-o", "preallocation=metadata", path, FormatNat(size)])
  {
    NewImageOptions(path, format, size);
    RenderDefaultOptions();
    FreshPlainCreateArgs(NewImage(path, format, size));
  }

  /** The encrypted argument list with the default options, spelled out. */
  lemma EncryptedDefaultArgsLayout(secret: string, path: string, size: nat)
    ensures ["create", "--object", SecretObjectPrefix + secret, "-f", FormatQcow2]
            + ["-o", "encrypt.key-secret=sec0", "-o", "preallocation=metadata", "-o", "encrypt.format=luks"]
            + [path, FormatNat(size)]
         == ["create", "--object", "secret,id=sec0,data=" + secret, "-f", "qcow2",
             "-o", "encrypt.key-secret=sec0", "-o", "preallocation=metadata",
             "-o", "encrypt.format=luks", path, FormatNat(size)]
  {
  }

  /** An encrypted qcow2 record whose options render as those of a fresh one is
      created with the secret object, `-f qcow2` and those options. */
  lemma FreshEncryptedCreateArgs(img: Image)
    requires img.encrypted && img.format == FormatQcow2
    requires RenderOptions(CreateOptions(img))
          == ["-o", "encrypt.key-secret=sec0", "-o", "preallocation=metadata", "-o", "encrypt.format=luks"]
    ensures CreateArgs(img)
         == Ok(["create", "--object", "secret,id=sec0,data=" + img.secret, "-f", "qcow2",
                "-o", "encrypt.key-secret=sec0", "-o", "preallocation=metadata",
                "-o", "encrypt.format=luks", img.path, FormatNat(img.size)])
  {
    CreateArgsOfRendered(img, RenderOptions(CreateOptions(img)));
    EncryptedDefaultArgsLayout(img.secret, img.path, img.size);
  }

  /** A fresh NewEncryptedImage record of format qcow2 is created with the secret
      object, the key-secret reference, the preallocation default and the LUKS
      default; any other format yields no argument list at all. */
  lemma NewEncryptedImageCreateArgs(path: string, format: string, secret: string, size: uint64)
    ensures CreateArgs(NewEncryptedImage(path, format, secret, size).0)
         == if format != "qcow2" then Err(NotQcow2)
            else Ok(["create", "--object", "secret,id=sec0,data=" + secret, "-f", "qcow2",
                     "-o", "encrypt.key-secret=sec0", "-o", "preallocation=metadata",
                     "-o", "encrypt.format=luks", path, FormatNat(size)])
  {
    EncryptedImageIsPlainImagePlusSecret(path, format, secret, size);
    if format == "qcow2" {
      NewEncryptedImageOptions(path, format, secret, size);
      RenderDefaultOptions();
      FreshEncryptedCreateArgs(NewEncryptedImage(path, format, secret, size).0);
    }
  }

  // ---------------------------------------------------------------------------
  // `qemu-img snapshot` (image.go:237-375)

  datatype SnapshotOp = CreateSnapshotOp | ApplySnapshotOp | DeleteSnapshotOp

  function OpFlag(op: SnapshotOp): string {
    match op
    case CreateSnapshotOp => "-c"
    case ApplySnapshotOp => "-a"
    case DeleteSnapshotOp => "-d"
  }

  function FlagOp(flag: string): (r: Option<SnapshotOp>)
    ensures r.Some? ==> OpFlag(r.value) == flag
  {
    if flag == "-c" then Some(CreateSnapshotOp)
    else if flag == "-a" then Some(ApplySnapshotOp)
    else if flag == "-d" then Some(DeleteSnapshotOp)
    else None
  }

  const ImageOptsPrefix: string := "encrypt.format=luks,encrypt.key-secret=sec0,file.filename="

  /** What a `qemu-img snapshot` argument list says. */
  datatype SnapshotCommand = SnapshotCommand(op: SnapshotOp, name: string, path: string, secret: Option<string>)

  /** Reads a `qemu-img snapshot` argument list: the plain form, or the form with
      the secret object and the path behind the LUKS image options. */
  function ParseSnapshotArgs(args: seq<string>): Option<SnapshotCommand> {
    if |args| == 4 && args[0] == "snapshot" && FlagOp(args[1]).Some? then
      Some(SnapshotCommand(FlagOp(args[1]).value, args[2], args[3], None))
    else if |args| == 7 && args[0] == "snapshot" && args[1] == "--object" && args[3] == "--image-opts"
            && FlagOp(args[4]).Some? then
      match (StripPrefix(args[2], SecretObjectPrefix), StripPrefix(args[6], ImageOptsPrefix))
      case (Some(secret), Some(path)) => Some(SnapshotCommand(FlagOp(args[4]).value, args[5], path, Some(secret)))
      case _ => None
    else None
  }

  /** The arguments of `qemu-img snapshot` for creating (-c), applying (-a) or
      deleting (-d) the named snapshot. An encrypted image is addressed through
      `--image-opts`, re-stating the LUKS format and the key-secret reference,
      and the secret travels in the secret object, in clear text. */
  function SnapshotArgs(img: Image, op: SnapshotOp, name: string): (r: seq<string>)
    ensures ParseSnapshotArgs(r)
         == Some(SnapshotCommand(op, name, img.path, if img.encrypted then Some(img.secret) else None))
  {
    if !img.encrypted then ["snapshot", OpFlag(op), name, img.path]
    else
      StripPrefixOfJoin(SecretObjectPrefix, img.secret);
      StripPrefixOfJoin(ImageOptsPrefix, img.path);
      ["snapshot", "--object", SecretObjectPrefix + img.secret, "--image-opts",
       OpFlag(op), name, ImageOptsPrefix + img.path]
  }

  // ---------------------------------------------------------------------------
  // `qemu-img rebase` (image.go:526)

  /** Always `rebase -b <backing file> <path>`, encrypted or not. */
  function RebaseArgs(backingFile: string, path: string): (args: seq<string>)
    ensures |args| == 4 && args[0] == "rebase" && args[1] == "-b"
    ensures args[2] == backingFile && args[3] == path
  {
    ["rebase", "-b", backingFile, path]
  }
}
