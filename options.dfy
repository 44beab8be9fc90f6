/** The `-o key=value` options of `qemu-img create`: their keys, how a list of
    them is rendered into argument tokens and read back, and how a list built
    from a table of settings is ordered and looked up. */
module Options {
  import opened Wrappers

  /** The option keys image.go passes to `qemu-img create`, in the order in
      which Create appends them. */
  datatype OptKey =
    | KeySecret | BackingFile | Compat | ClusterSize | ExtendedL2 | LazyRefcounts
    | Preallocation | RefcountBits | IterTime | IvGenHashAlg | IvGenAlg | CipherMode
    | CipherAlg | HashAlg | CipherFormat

  /** The key as it is spelled on the command line. */
  function KeyName(k: OptKey): string {
    match k
    case KeySecret => "encrypt.key-secret"
    case BackingFile => "backing_file"
    case Compat => "compat"
    case ClusterSize => "cluster_size"
    case ExtendedL2 => "extended_l2"
    case LazyRefcounts => "lazy_refcounts"
    case Preallocation => "preallocation"
    case RefcountBits => "refcount_bits"
    case IterTime => "encrypt.iter-time"
    case IvGenHashAlg => "encrypt.ivgen-hash-alg"
    case IvGenAlg => "encrypt.ivgen-alg"
    case CipherMode => "encrypt.cipher-mode"
    case CipherAlg => "encrypt.cipher-alg"
    case HashAlg => "encrypt.hash-alg"
    case CipherFormat => "encrypt.format"
  }

  /** The position of a key in Create's order. */
  function Rank(k: OptKey): nat {
    match k
    case KeySecret => 0
    case BackingFile => 1
    case Compat => 2
    case ClusterSize => 3
    case ExtendedL2 => 4
    case LazyRefcounts => 5
    case Preallocation => 6
    case RefcountBits => 7
    case IterTime => 8
    case IvGenHashAlg => 9
    case IvGenAlg => 10
    case CipherMode => 11
    case CipherAlg => 12
    case HashAlg => 13
    case CipherFormat => 14
  }

  /** Reads a key spelled on the command line; unknown spellings are rejected. */
  function KeyOf(name: string): (r: Option<OptKey>)
    ensures r.Some? ==> KeyName(r.value) == name
  {
    // Split on the first letter so that each branch compares the name with a
    // handful of spellings only, which keeps the proofs about it small.
    if |name| > 0 && name[0] == 'e' then
      if name == "encrypt.key-secret" then Some(KeySecret)
      else if name == "encrypt.iter-time" then Some(IterTime)
      else if name == "encrypt.ivgen-hash-alg" then Some(IvGenHashAlg)
      else if name == "encrypt.ivgen-alg" then Some(IvGenAlg)
      else if name == "encrypt.cipher-mode" then Some(CipherMode)
      else if name == "encrypt.cipher-alg" then Some(CipherAlg)
      else if name == "encrypt.hash-alg" then Some(HashAlg)
      else if name == "encrypt.format" then Some(CipherFormat)
      else if name == "extended_l2" then Some(ExtendedL2)
      else None
    else
      if name == "backing_file" then Some(BackingFile)
      else if name == "compat" then Some(Compat)
      else if name == "cluster_size" then Some(ClusterSize)
      else if name == "lazy_refcounts" then Some(LazyRefcounts)
      else if name == "preallocation" then Some(Preallocation)
      else if name == "refcount_bits" then Some(RefcountBits)
      else None
  }

  /** The keys spelled with the `encrypt.` prefix. */
  predicate IsEncryptKey(k: OptKey) {
    k == KeySecret || Rank(k) >= Rank(IterTime)
  }

  // The `=`-freedom of the spellings, one key family at a time: proved for all
  // fifteen keys at once the obligation is too large for the solver.

  lemma GeometryKeyNameHasNoEquals(k: OptKey)
    requires !IsEncryptKey(k)
    ensures '=' !in KeyName(k)
  {
  }

  lemma EncryptKeyNameHasNoEquals(k: OptKey)
    requires IsEncryptKey(k)
    ensures '=' !in KeyName(k)
  {
  }

  /** Every key's spelling is read back as that key, and none holds `=`. */
  lemma KeyOfKeyName(k: OptKey)
    ensures KeyOf(KeyName(k)) == Some(k)
    ensures '=' !in KeyName(k)
  {
    if IsEncryptKey(k) {
      EncryptKeyNameHasNoEquals(k);
    } else {
      GeometryKeyNameHasNoEquals(k);
    }
  }

  /** One `-o key=value` option. */
  datatype Opt = Opt(key: OptKey, value: string)

  /** The token that carries one option. */
  function OptToken(o: Opt): string {
    KeyName(o.key) + "=" + o.value
  }

  /** The tokens of a list of options: `-o` before each `key=value`. */
  function RenderOptions(opts: seq<Opt>): (r: seq<string>)
    ensures |r| == 2 * |opts|
    ensures forall k :: 0 <= k < |opts| ==> r[2 * k] == "-o" && r[2 * k + 1] == OptToken(opts[k])
  {
    if opts == [] then []
    else
      var rest := RenderOptions(opts[1..]);
      var r := ["-o", OptToken(opts[0])] + rest;
      assert forall k :: 0 <= k < |opts| ==> r[2 * k] == "-o" && r[2 * k + 1] == OptToken(opts[k]) by {
        forall k | 1 <= k < |opts| ensures r[2 * k] == "-o" && r[2 * k + 1] == OptToken(opts[k]) {
          assert opts[k] == opts[1..][k - 1];
          assert r[2 * k] == rest[2 * (k - 1)] && r[2 * k + 1] == rest[2 * (k - 1) + 1];
        }
      }
      r
  }

  /** A `key=value` token cut at its first `=`. */
  function SplitAtEquals(s: string): (r: Option<(string, string)>)
    ensures r.Some? ==> '=' !in r.value.0 && s == r.value.0 + "=" + r.value.1
    ensures r.None? ==> '=' !in s
  {
    if s == [] then None
    else if s[0] == '=' then Some(([], s[1..]))
    else match SplitAtEquals(s[1..])
      case None => None
      case Some((k, v)) => Some(([s[0]] + k, v))
  }

  /** Reads a run of `-o key=value` tokens back into options. */
  function ParseOptions(tokens: seq<string>): Option<seq<Opt>> {
    if tokens == [] then Some([])
    else if |tokens| < 2 || tokens[0] != "-o" then None
    else match (SplitAtEquals(tokens[1]), ParseOptions(tokens[2..]))
      case (Some((name, v)), Some(rest)) =>
        (match KeyOf(name) case Some(k) => Some([Opt(k, v)] + rest) case None => None)
      case _ => None
  }

  lemma {:induction false} SplitAtEqualsOfJoin(k: string, v: string)
    requires '=' !in k
    ensures SplitAtEquals(k + "=" + v) == Some((k, v))
  {
    if k != [] {
      var s := k + "=" + v;
      assert s[1..] == k[1..] + "=" + v;
      SplitAtEqualsOfJoin(k[1..], v);
      assert [k[0]] + k[1..] == k;
    }
  }

  /** Rendering options and reading them back gives the same options, whatever
      their values hold. */
  lemma {:induction false} ParseRenderedOptions(opts: seq<Opt>)
    ensures ParseOptions(RenderOptions(opts)) == Some(opts)
  {
    if opts != [] {
      var t := RenderOptions(opts);
      assert t[2..] == RenderOptions(opts[1..]);
      KeyOfKeyName(opts[0].key);
      SplitAtEqualsOfJoin(KeyName(opts[0].key), opts[0].value);
      ParseRenderedOptions(opts[1..]);
      assert [opts[0]] + opts[1..] == opts;
    }
  }

  /** The value of the first option with the given key. */
  function Lookup(opts: seq<Opt>, key: OptKey): Option<string> {
    if opts == [] then None
    else if opts[0].key == key then Some(opts[0].value)
    else Lookup(opts[1..], key)
  }

  /** The keys appear in Create's order, none of them twice. */
  predicate Ordered(opts: seq<Opt>) {
    forall i, j :: 0 <= i < j < |opts| ==> Rank(opts[i].key) < Rank(opts[j].key)
  }

  predicate OrderedKeys(keys: seq<OptKey>) {
    forall i, j :: 0 <= i < j < |keys| ==> Rank(keys[i]) < Rank(keys[j])
  }
}
