# go-qemu disk images, modelled in Dafny

This project models the logic in `image.go` of the go-qemu library that sits
between an `Image` record and the `qemu-img` program:

- the `Image` and `Snapshot` records, the constructors `NewImage` and
  `NewEncryptedImage`, and the two configuration profiles `OptimizeSpeed` and
  `OptimizeSize`, which are value-receiver functions returning a modified copy
  (module `Images`);
- the argument lists handed to `qemu-img` by `Create`, `CreateSnapshot`,
  `RestoreSnapshot`, `DeleteSnapshot` and `Rebase` (module `Commands`), with
  the `-o key=value` options as values of their own (module `Options`) and the
  decimal rendering of `strconv.FormatUint` and `%d` (module `Decimal`);
- what `retreiveInfos` does with the decoded output of `qemu-img info`
  (module `Infos`): it takes format and size, forces encryption on when a
  secret is held, and rebuilds the snapshot list. Entries whose id
  `strconv.Atoi` rejects are dropped and the others keep their order;
- the operations with an `*Image` receiver as methods of the class
  `Handles.ImageHandle`, whose field `image` is the `*Image` they update in
  place. This covers `retreiveInfos`, `CreateSnapshot` with its first-match
  search, `SetBackingFile` and `Rebase`. The value-receiver `Snapshots`,
  which reads the listing into its own copy, is there too. `OpenImage` and
  `OpenEncryptedImage` are module-level methods.

The `create` and `snapshot` argument lists are specified by a reader for
each. `ParseCreateArgs` gives back the secret, format, options, path and
size; `ParseSnapshotArgs` gives back the operation, the snapshot name, the
path and the secret. The contracts and lemmas say what reading an argument
list back yields. The `rebase` list has four fixed positions and is stated
directly. The options of `Create` are also specified by a table: the keys it may
pass (`CreateKeys`, in the order in which it appends them) and the value each
key takes (`CreateSetting`). The lemmas prove that the options come in that
order, that none appears twice, and that each key appears with its table
value exactly when the table has one.

Running `qemu-img` and calling `os.Stat` are not modelled. Their outcomes are
parameters: a boolean `ran` for a zero exit status, an `InfoOutcome` for the
run of `qemu-img info` (failed, unreadable output, or the decoded record) and
a `StatOutcome` for `os.Stat`.

Where the code and its prose disagree, the model follows the code:

- Applying `OptimizeSpeed` and then `OptimizeSize` does not give the size
  profile. `OptimizeSize` does not reset lazy refcounts or the compatibility
  level, so both carry over from the speed profile (`SizeAfterSpeed`,
  `SizeAfterSpeedDiffersFromSize`).
- The comment on the `Secret` field says that a secret enables encryption.
  `Create` instead branches on the `Encrypted` flag, and so does the model.
- `OpenEncryptedImage` ends with a check that refuses an image that is not
  encrypted. That check can never fire: a non-empty secret forces the record's
  encryption on while the info is read, and an empty secret is refused before
  the check. `Handles.OpenEncryptedImage` proves this.

## Model

| member | source | states |
|---|---|---|
| Decimal.FormatNat | image.go:437 | the decimal rendering of the size is non-empty and all digits, with no leading zero except for 0 itself |
| Decimal.FormatInt | image.go:414 | the `%d` rendering of a setting is non-empty, starts with `-` exactly when the number is negative, and is otherwise all digits with no leading zero except for 0 itself; `ParseIntOfFormatInt` reads it back |
| Decimal.ParseInt | image.go:200 | `strconv.Atoi` on a 64-bit platform: an accepted id is an optional sign followed by digits only, and an unsigned run of digits is accepted with its value exactly when that value is below 2^63 |
| Decimal.ParseNatOfFormatNat | image.go:437 | reading back the decimal rendering of a size gives the same size |
| Decimal.ParseIntOfFormatInt | image.go:200 | every 64-bit integer written by `%d` is read back by `strconv.Atoi` as the same integer |
| Decimal.FormatNatInjective | image.go:437 | two different sizes never render to the same token |
| Images.NewImage | image.go:75-84 | a fresh record holds path, format and size, is unencrypted with no secret, has 64 KiB clusters and 16 refcount bits, has every other geometry field (lazy refcounts, compat level, extended L2, preallocation) and every cipher field at its zero value |
| Images.NewEncryptedImage | image.go:88-103 | an error is returned exactly when the format is not qcow2, and that error is the qcow2 rule |
| Images.EncryptedImageIsPlainImagePlusSecret | image.go:88-103 | even when it errs, `NewEncryptedImage` returns `NewImage`'s record with the secret held and encryption on, so it too has 64 KiB clusters and 16 refcount bits |
| Images.OptimizeSpeed | image.go:294-313 | path, format, size, secret, backing file, encryption and snapshots are kept; lazy refcounts, compat 1.1, 64 refcount bits, 1024 KiB clusters, extended L2 and full preallocation are set; cipher fields change only on an encrypted image, which gets the whole suite: AES-256, SHA-256 hashing, LUKS, XTS, plain64 IV generation with SHA-256, and a 1000 ms iteration time |
| Images.OptimizeSize | image.go:317-334 | identity is kept; 16 refcount bits, 64 KiB clusters, extended L2 and metadata preallocation are set; lazy refcounts and compat level are left as they were; cipher fields change only on an encrypted image, which gets the same suite (AES-256, SHA-256, LUKS, XTS, plain64 with SHA-256) with a 2000 ms iteration time |
| Images.ProfilesIdempotent | image.go:294-334 | applying either profile twice is the same as applying it once |
| Images.SizeAfterSpeed | image.go:294-334 | speed then size gives 16 refcount bits, 64 KiB clusters, extended L2, metadata preallocation, the whole cipher suite with a 2000 ms iteration time when encrypted, and keeps lazy refcounts and compat 1.1 from the speed profile |
| Images.SizeAfterSpeedDiffersFromSize | image.go:294-334 | on a fresh record, speed then size differs from size alone |
| Options.KeyOf | image.go:406-503 | a key spelling that is read back is the spelling of the key it is read as |
| Options.KeyOfKeyName | image.go:406-503 | every option key's spelling is read back as that key and contains no `=` |
| Options.SplitAtEquals | image.go:406-503 | a `key=value` token is cut at its first `=` into a key without `=` and the rest |
| Options.SplitAtEqualsOfJoin | image.go:406-503 | cutting `key=value` gives back key and value whenever the key has no `=` |
| Options.RenderOptions | image.go:405-506 | the k-th option becomes tokens 2k and 2k+1, `-o` then `key=value`, and there are no other tokens |
| Options.ParseRenderedOptions | image.go:405-506 | reading the rendered options back gives the same options, whatever their values hold |
| Commands.CreateArgs | image.go:400-519 | `Create` refuses an encrypted image exactly when its format is not qcow2; otherwise the list starts with `create` and ends with the path and then the decimal size |
| Commands.CreateKeys | image.go:400-519 | the keys `Create` may pass (key-secret and the cipher keys only when encrypted, the geometry keys always) are in strictly increasing position of its fixed order, so none is listed twice |
| Commands.TableOptionsOrdered | image.go:402-506 | options built from keys in that order keep the order, so no key appears twice |
| Commands.TableOptionsLookup | image.go:402-506 | in options built from the table, a key has an option exactly when it is among the keys and has a setting, and then carries that setting |
| Commands.GeometryOptions | image.go:404-434 | the geometry options of `Create` are the table's: backing file and compat when set, cluster size when not 64, extended L2 and lazy refcounts when on, preallocation always (metadata by default), refcount bits when not 16 |
| Commands.EncryptionOptions | image.go:484-506 | the cipher options are the table's: iteration time when non-zero, each algorithm or mode when set, and the cipher format always (LUKS by default) |
| Commands.CreateOptions | image.go:451-506 | all of `Create`'s options are the table over its keys, with the key-secret reference first on an encrypted image |
| Commands.StripPrefix | image.go:451 | what is left after a prefix is removed, put back behind the prefix, is the token again |
| Commands.ParsePlainCreateArgs | image.go:401-437 | an unencrypted create list read back gives its format, options, path and size, and no secret |
| Commands.ParseEncryptedCreateArgs | image.go:451-509 | an encrypted create list read back also gives the secret carried in the secret object |
| Commands.ParseCreateArgsRoundTrip | image.go:400-519 | reading `Create`'s list back gives the secret exactly when encrypted, the format, the options built, the path and the size |
| Commands.CreateArgsMeaning | image.go:400-519 | `qemu-img create` is told the secret iff encrypted, the format, path and size, and options in the fixed order, each key present with its table value exactly when the table has one |
| Commands.NewImageOptions | image.go:402-434 | the only option `Create` passes for a fresh `NewImage` record is metadata preallocation |
| Commands.NewImageCreateArgs | image.go:401-437 | a fresh `NewImage` record is created with exactly `create -f fmt -o preallocation=metadata path size` |
| Commands.NewEncryptedImageOptions | image.go:451-506 | the options `Create` passes for a fresh `NewEncryptedImage` record are the key-secret reference, metadata preallocation and the LUKS format, in that order |
| Commands.NewEncryptedImageCreateArgs | image.go:448-509 | a fresh encrypted qcow2 record is created with the secret object, `-f qcow2` and exactly those three options; any other format has no argument list |
| Commands.FlagOp | image.go:237 | a snapshot flag that is read back is the flag of the operation it is read as |
| Commands.SnapshotArgs | image.go:237-375 | a snapshot argument list names the operation (`-c`, `-a`, `-d`), the snapshot, the path and, exactly for an encrypted image, the secret, with the path behind the LUKS image options |
| Commands.RebaseArgs | image.go:526 | `rebase -b backing path`, encrypted or not |
| Infos.Convert | image.go:198-210 | an entry becomes a snapshot exactly when `strconv.Atoi` accepts its id, keeping the parsed id, the name and both timestamps |
| Infos.KeptSnapshots | image.go:196-211 | the list is never longer than the listing, and every snapshot in it is what some entry converts to |
| Infos.KeptSnapshotsAppend | image.go:196-211 | the list built from two listings one after the other is the two lists one after the other |
| Infos.DropsUnparsableId | image.go:200-203 | an entry whose id does not parse leaves no trace |
| Infos.KeptSnapshotsMember | image.go:196-211 | a snapshot is in the list exactly when some entry converts to it |
| Infos.KeptSnapshotsHasEntry | image.go:196-211 | every entry whose id parses leaves its snapshot in the list |
| Infos.KeptSnapshotsComplete | image.go:196-211 | the list is never longer than the listing, is as long exactly when every id parses, and then its i-th snapshot comes from the i-th entry |
| Infos.Reconcile | image.go:188-211 | after reading: format and size as reported, encrypted iff a secret is held or the image reports encryption, snapshots rebuilt from the listing, path, secret, backing file, geometry and cipher unchanged |
| Infos.ReconcileIdempotent | image.go:188-211 | reading the same record twice is the same as reading it once |
| Infos.ReconcileForgetsOldInfo | image.go:188-211 | the result does not depend on the old format, size, encryption flag or snapshots |
| Infos.Listing | image.go:218-229 | a failed run gives the tool error, unreadable output the JSON error, and a decoded record its snapshot list, no longer than the listing and empty (not an error) for an empty listing |
| Infos.FirstByName | image.go:248-261 | a match is found iff some snapshot has the name, and it is the one at the first such position |
| Infos.FoundInListing | image.go:196-261 | after a listing, a snapshot with the name is found exactly when some entry with that name has an id that parses |
| Handles.FindSnapshot | image.go:248-255 | the search loop with its early exit returns the first snapshot with the name, or nothing |
| Handles.ImageHandle.RetrieveInfos | image.go:156-214 | a failed run or unreadable output leaves the record as it was and returns the matching error; otherwise the record becomes the reconciled one; the returned copy is the record |
| Handles.ImageHandle.Snapshots | image.go:218-229 | the result is the listing's error or its snapshot list; the record itself is not changed |
| Handles.ImageHandle.CreateSnapshot | image.go:233-291 | the argument list is the `-c` snapshot list; a failed run, a failed listing or a missing name is an error, otherwise the first listed snapshot with the name is returned; the record is not changed |
| Handles.ImageHandle.SetBackingFile | image.go:388-396 | a missing backing file is refused and leaves the record unchanged; otherwise only the backing file changes |
| Handles.ImageHandle.Rebase | image.go:523-534 | the backing file is recorded whether or not the run succeeds; the argument list is `rebase -b`; a failed run is an error |
| Handles.OpenImage | image.go:107-126 | a missing file gives the zero record; a failed listing gives a record holding only the path; otherwise the reconciled record, refused exactly when the image reports encryption |
| Handles.OpenEncryptedImage | image.go:130-154 | as for OpenImage, with the secret held and encryption on before the listing; an empty secret is refused; "not encrypted" is never the result; on success the record is encrypted and holds the secret |

## Left out

- Running `qemu-img` (`exec.Command`, `CombinedOutput`). The model stops at
  the argument list, and for `CreateSnapshot`, `Rebase` and `retreiveInfos`
  the exit status is a parameter. For `Create`, `RestoreSnapshot` and
  `DeleteSnapshot`, which only pass the run's failure on as an error, the
  model is the argument list alone.
- Handles.ImageHandle.RetrieveInfos: the snapshot list is built in a local
  sequence and stored in the record once the loop ends, where the Go code
  appends to the field on each pass. No caller can observe the record while
  the loop runs, so the final record is the same.
- `json.Unmarshal` of the `qemu-img info` output. The decoded record, or the
  fact that decoding failed, is a parameter.
- `os.Stat`. Its outcome is a parameter, and only "does not exist" changes
  what the code does.
- `time.Unix`. Snapshot dates and VM clocks are kept as the raw seconds and
  nanoseconds that `qemu-img` reports, without normalisation.
- `oneLine` and the text of the error messages. Errors are tags.
- Platform width: Go's `int` is taken to be 64 bits wide, so `strconv.Atoi`
  accepts ids in the 64-bit range; on a 32-bit platform its range is narrower.
- Format, compatibility, preallocation and cipher constants that no modelled
  operation uses (`raw`, `cloop`, `0.10`, `falloc`, `aes`, ...).
- The demo program that calls the library is not part of this model: it has
  no logic of its own.
