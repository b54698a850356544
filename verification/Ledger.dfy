/** The mounts an engine makes once its child runs, and the unmounts it makes when the
    child has ended, as ledgers of calls. */
module Ledger {
  import opened Text
  import Args = EngineArgs

  datatype Cloud = Aws | Az | Gcp

  datatype Mount =
    | Bind(src: string, dst: string)
    | Subvolume(name: string, dst: string)
    | Tmp(dst: string, size: string, inodes: string)
    | Bucket(cloud: Cloud, src: string, dst: string)

  /** Cloud directories are unmounted lazily, all others recursively. */
  datatype Unmount = Recursive(dst: string) | Lazy(dst: string)

  function BindOf(p: Args.Pair): Mount { Bind(p.src, p.dst) }
  function SubvolumeOf(p: Args.Pair): Mount { Subvolume(p.src, p.dst) }
  function RecursiveOf(p: Args.Pair): Unmount { Recursive(p.dst) }

  function Each<T>(f: Args.Pair -> T, pairs: seq<Args.Pair>): seq<T> {
    seq(|pairs|, i requires 0 <= i < |pairs| => f(pairs[i]))
  }

  function TmpOf(given: Option<Args.Tmpfs>): seq<Mount> {
    if given.None? then [] else [Tmp(given.value.dst, given.value.size, given.value.inodes)]
  }

  function BucketOf(cloud: Cloud, given: Option<Args.Pair>): seq<Mount> {
    if given.None? then [] else [Bucket(cloud, given.value.src, given.value.dst)]
  }

  function TmpTarget(given: Option<Args.Tmpfs>): seq<Unmount> {
    if given.None? then [] else [Recursive(given.value.dst)]
  }

  function LazyOf(given: Option<Args.Pair>): seq<Unmount> {
    if given.None? then [] else [Lazy(given.value.dst)]
  }

  /** What is mounted, in order. */
  function Mounts(p: Args.Params): seq<Mount> {
    Each(BindOf, p.mounts) + Each(SubvolumeOf, p.volumes) + TmpOf(p.tmpfs)
    + BucketOf(Aws, p.aws) + BucketOf(Az, p.az) + BucketOf(Gcp, p.gcp)
  }

  /** What is unmounted, in order. */
  function Unmounts(p: Args.Params): seq<Unmount> {
    Each(RecursiveOf, p.mounts) + Each(RecursiveOf, p.volumes) + TmpTarget(p.tmpfs)
    + LazyOf(p.aws) + LazyOf(p.az) + LazyOf(p.gcp)
  }

  /** The loop over stored pairs, with what is done for each of them. */
  method ForEach<T>(f: Args.Pair -> T, pairs: array<Args.Pair>, num: nat) returns (calls: seq<T>)
    requires num <= pairs.Length
    ensures calls == Each(f, pairs[..num])
  {
    calls := [];
    for i := 0 to num
      invariant calls == Each(f, pairs[..i])
    {
      calls := calls + [f(pairs[i])];
    }
  }

  lemma EachAt(pairs: seq<Args.Pair>)
    ensures forall i :: 0 <= i < |pairs| ==>
              && Each(BindOf, pairs)[i] == Bind(pairs[i].src, pairs[i].dst)
              && Each(SubvolumeOf, pairs)[i] == Subvolume(pairs[i].src, pairs[i].dst)
              && Each(RecursiveOf, pairs)[i] == Recursive(pairs[i].dst)
  {
    forall i | 0 <= i < |pairs|
      ensures && Each(BindOf, pairs)[i] == Bind(pairs[i].src, pairs[i].dst)
              && Each(SubvolumeOf, pairs)[i] == Subvolume(pairs[i].src, pairs[i].dst)
              && Each(RecursiveOf, pairs)[i] == Recursive(pairs[i].dst)
    {
      assert Each(BindOf, pairs)[i] == BindOf(pairs[i]) && Each(SubvolumeOf, pairs)[i] == SubvolumeOf(pairs[i]);
      assert Each(RecursiveOf, pairs)[i] == RecursiveOf(pairs[i]);
    }
  }

  method MountFeature(params: Args.ProcessParams) returns (calls: seq<Mount>)
    requires params.Valid()
    ensures calls == Each(BindOf, params.View().mounts)
    ensures |calls| == params.mntNum
    ensures forall i :: 0 <= i < |calls| ==> calls[i] == Bind(params.mnt[i].src, params.mnt[i].dst)
  {
    calls := ForEach(BindOf, params.mnt, params.mntNum);
    EachAt(params.mnt[..params.mntNum]);
  }

  method VolumeFeature(params: Args.ProcessParams) returns (calls: seq<Mount>)
    requires params.Valid()
    ensures calls == Each(SubvolumeOf, params.View().volumes)
    ensures |calls| == params.vlmNum
    ensures forall i :: 0 <= i < |calls| ==> calls[i] == Subvolume(params.vlm[i].src, params.vlm[i].dst)
  {
    calls := ForEach(SubvolumeOf, params.vlm, params.vlmNum);
    EachAt(params.vlm[..params.vlmNum]);
  }

  method UnmountDirs(params: Args.ProcessParams) returns (calls: seq<Unmount>)
    requires params.Valid()
    ensures calls == Each(RecursiveOf, params.View().mounts)
    ensures |calls| == params.mntNum && forall i :: 0 <= i < |calls| ==> calls[i] == Recursive(params.mnt[i].dst)
  {
    calls := ForEach(RecursiveOf, params.mnt, params.mntNum);
    EachAt(params.mnt[..params.mntNum]);
  }

  method UnmountVolumes(params: Args.ProcessParams) returns (calls: seq<Unmount>)
    requires params.Valid()
    ensures calls == Each(RecursiveOf, params.View().volumes)
    ensures |calls| == params.vlmNum && forall i :: 0 <= i < |calls| ==> calls[i] == Recursive(params.vlm[i].dst)
  {
    calls := ForEach(RecursiveOf, params.vlm, params.vlmNum);
    EachAt(params.vlm[..params.vlmNum]);
  }

  lemma EachNone<T>(f: Args.Pair -> T)
    ensures Each(f, []) == []
  {
  }

  method EnableFeatures(params: Args.ProcessParams) returns (calls: seq<Mount>)
    requires params.Valid()
    ensures calls == Mounts(params.View())
  {
    hide Args.Strings, Each;
    EachNone(BindOf);
    EachNone(SubvolumeOf);
    var binds: seq<Mount>, volumes: seq<Mount>, tmp: seq<Mount> := [], [], [];
    var aws: seq<Mount>, az: seq<Mount>, gcp: seq<Mount> := [], [], [];
    if params.isMount { binds := MountFeature(params); }
    if params.isVolume { volumes := VolumeFeature(params); }
    if params.tmpfs.Some? { tmp := [Tmp(params.tmpfs.value.dst, params.tmpfs.value.size, params.tmpfs.value.inodes)]; }
    if params.aws.Some? { aws := [Bucket(Aws, params.aws.value.src, params.aws.value.dst)]; }
    if params.az.Some? { az := [Bucket(Az, params.az.value.src, params.az.value.dst)]; }
    if params.gcp.Some? { gcp := [Bucket(Gcp, params.gcp.value.src, params.gcp.value.dst)]; }
    calls := binds + volumes + tmp + aws + az + gcp;
  }

  method ReleaseResources(params: Args.ProcessParams) returns (calls: seq<Unmount>)
    requires params.Valid()
    ensures calls == Unmounts(params.View())
  {
    hide Args.Strings, Each;
    EachNone(RecursiveOf);
    var binds: seq<Unmount>, volumes: seq<Unmount>, tmp: seq<Unmount> := [], [], [];
    var aws: seq<Unmount>, az: seq<Unmount>, gcp: seq<Unmount> := [], [], [];
    if params.isMount { binds := UnmountDirs(params); }
    if params.isVolume { volumes := UnmountVolumes(params); }
    if params.tmpfs.Some? { tmp := [Recursive(params.tmpfs.value.dst)]; }
    if params.aws.Some? { aws := [Lazy(params.aws.value.dst)]; }
    if params.az.Some? { az := [Lazy(params.az.value.dst)]; }
    if params.gcp.Some? { gcp := [Lazy(params.gcp.value.dst)]; }
    calls := binds + volumes + tmp + aws + az + gcp;
  }

  predicate Undoes(m: Mount, u: Unmount) {
    m.dst == u.dst && (m.Bucket? <==> u.Lazy?)
  }

  /** One unmount for each mount, in the same order. */
  predicate Paired(ms: seq<Mount>, us: seq<Unmount>) {
    |ms| == |us| && forall i :: 0 <= i < |ms| ==> Undoes(ms[i], us[i])
  }

  lemma {:induction false} PairedAppend(a: seq<Mount>, b: seq<Unmount>, c: seq<Mount>, d: seq<Unmount>)
    requires Paired(a, b) && Paired(c, d)
    ensures Paired(a + c, b + d)
  {
    hide Undoes;
  }

  lemma PairedEach(f: Args.Pair -> Mount, pairs: seq<Args.Pair>)
    requires forall p :: f(p).dst == p.dst && !f(p).Bucket?
    ensures Paired(Each(f, pairs), Each(RecursiveOf, pairs))
  {
    var ms, us := Each(f, pairs), Each(RecursiveOf, pairs);
    forall i | 0 <= i < |pairs| ensures Undoes(ms[i], us[i]) {
      assert ms[i] == f(pairs[i]) && us[i] == RecursiveOf(pairs[i]);
    }
  }

  lemma PairedOne(tmpfs: Option<Args.Tmpfs>, cloud: Cloud, given: Option<Args.Pair>)
    ensures Paired(TmpOf(tmpfs), TmpTarget(tmpfs)) && Paired(BucketOf(cloud, given), LazyOf(given))
  {
  }

  /** The ledger balances for all parameters: what is unmounted in the end is what was
      mounted, with the same multiplicity, in the same and not the reverse order, and
      lazily exactly the cloud directories. */
  lemma {:induction false} Balanced(p: Args.Params)
    ensures Paired(Mounts(p), Unmounts(p))
  {
    PairedEach(BindOf, p.mounts);
    PairedEach(SubvolumeOf, p.volumes);
    hide Paired, Each, TmpOf, TmpTarget, BucketOf, LazyOf;
    var m1, u1 := Each(BindOf, p.mounts), Each(RecursiveOf, p.mounts);
    var m2, u2 := m1 + Each(SubvolumeOf, p.volumes), u1 + Each(RecursiveOf, p.volumes);
    var m3, u3 := m2 + TmpOf(p.tmpfs), u2 + TmpTarget(p.tmpfs);
    var m4, u4 := m3 + BucketOf(Aws, p.aws), u3 + LazyOf(p.aws);
    PairedOne(p.tmpfs, Aws, p.aws);
    PairedOne(p.tmpfs, Az, p.az);
    PairedOne(p.tmpfs, Gcp, p.gcp);
    PairedAppend(m1, u1, Each(SubvolumeOf, p.volumes), Each(RecursiveOf, p.volumes));
    PairedAppend(m2, u2, TmpOf(p.tmpfs), TmpTarget(p.tmpfs));
    PairedAppend(m3, u3, BucketOf(Aws, p.aws), LazyOf(p.aws));
    PairedAppend(m4, u4, BucketOf(Az, p.az), LazyOf(p.az));
    PairedAppend(m4 + BucketOf(Az, p.az), u4 + LazyOf(p.az), BucketOf(Gcp, p.gcp), LazyOf(p.gcp));
  }

  /** The last option of a kind, if there is one. */
  ghost function LastOption(items: seq<Args.Item>, kind: Args.Kind): (o: Option<Args.Item>)
    requires Args.Shaped(items)
    ensures o.Some? ==> |o.value| == Args.Width(kind)
  {
    Args.OfShaped(items, kind);
    var found := Args.Of(items, kind);
    if found == [] then None else Some(Last(found))
  }

  function TmpEntry(option: Option<Args.Item>): seq<Mount>
    requires option.Some? ==> |option.value| == 7
  {
    if option.None? then [] else [Tmp(option.value[2], option.value[4], option.value[6])]
  }

  function BucketEntry(cloud: Cloud, option: Option<Args.Item>): seq<Mount>
    requires option.Some? ==> |option.value| == 5
  {
    if option.None? then [] else [Bucket(cloud, option.value[2], option.value[4])]
  }

  lemma {:induction false} LastEntries(items: seq<Args.Item>, cloud: Cloud, kind: Args.Kind)
    requires Args.Shaped(items) && Args.Width(kind) == 5
    ensures TmpOf(Args.LastTmpfs(items)) == TmpEntry(LastOption(items, Args.TmpfsMount))
    ensures BucketOf(cloud, Args.LastPair(items, kind)) == BucketEntry(cloud, LastOption(items, kind))
  {
    hide Args.Of, Args.KindOf;
    Args.OfShaped(items, kind);
    Args.OfShaped(items, Args.TmpfsMount);
  }

  /** The operands of a list of pairs, each mounted by one call. */
  ghost predicate Binds(calls: seq<Mount>, options: seq<Args.Item>) {
    && |calls| == |options|
    && forall i :: 0 <= i < |calls| ==> |options[i]| == 5 && calls[i] == Bind(options[i][2], options[i][4])
  }

  ghost predicate Subvolumes(calls: seq<Mount>, options: seq<Args.Item>) {
    && |calls| == |options|
    && forall i :: 0 <= i < |calls| ==> |options[i]| == 5 && calls[i] == Subvolume(options[i][2], options[i][4])
  }

  lemma {:induction false} PairEntries(items: seq<Args.Item>)
    requires Args.Shaped(items)
    ensures Binds(Each(BindOf, Args.PairsOf(Args.Of(items, Args.Mount))), Args.Of(items, Args.Mount))
    ensures Subvolumes(Each(SubvolumeOf, Args.PairsOf(Args.Of(items, Args.Volume))), Args.Of(items, Args.Volume))
  {
    hide Args.Of, Args.KindOf;
    Args.OfShaped(items, Args.Mount);
    Args.OfShaped(items, Args.Volume);
    EachAt(Args.PairsOf(Args.Of(items, Args.Mount)));
    EachAt(Args.PairsOf(Args.Of(items, Args.Volume)));
  }

  /** The entries of options that count once: the last one of each kind. */
  ghost function OtherEntries(items: seq<Args.Item>): seq<Mount>
    requires Args.Shaped(items)
  {
    TmpEntry(LastOption(items, Args.TmpfsMount)) + BucketEntry(Aws, LastOption(items, Args.Aws))
    + BucketEntry(Az, LastOption(items, Args.Az)) + BucketEntry(Gcp, LastOption(items, Args.Gcp))
  }

  lemma {:induction false} MeaningMounts(items: seq<Args.Item>)
    requires Args.Shaped(items)
    ensures Mounts(Args.Meaning(items)) ==
              Each(BindOf, Args.PairsOf(Args.Of(items, Args.Mount)))
              + Each(SubvolumeOf, Args.PairsOf(Args.Of(items, Args.Volume))) + OtherEntries(items)
  {
    hide Args.Of, Args.PairsOf, Args.KindOf, Args.LastOperand, Args.LastTmpfs, Args.LastPair, Args.Flatten,
         Args.OrElse, LastOption, TmpEntry, BucketEntry, TmpOf, BucketOf, Each;
    LastEntries(items, Aws, Args.Aws);
    LastEntries(items, Az, Args.Az);
    LastEntries(items, Gcp, Args.Gcp);
    var p := Args.Meaning(items);
    var pairs := Each(BindOf, p.mounts) + Each(SubvolumeOf, p.volumes);
    Assoc(pairs, TmpOf(p.tmpfs), BucketOf(Aws, p.aws));
    Assoc(pairs, TmpOf(p.tmpfs) + BucketOf(Aws, p.aws), BucketOf(Az, p.az));
    Assoc(pairs, TmpOf(p.tmpfs) + BucketOf(Aws, p.aws) + BucketOf(Az, p.az), BucketOf(Gcp, p.gcp));
  }

  /** From argv to the ledger: each mount option is one bind mount, in order, then each
      volume option one subvolume, then the last option of each other kind, with the
      operands as they stand in argv. */
  lemma {:induction false} LedgerOfArgs(items: seq<Args.Item>)
    requires Args.Shaped(items)
    ensures exists binds, volumes ::
              && Binds(binds, Args.Of(items, Args.Mount))
              && Subvolumes(volumes, Args.Of(items, Args.Volume))
              && Mounts(Args.Meaning(items)) == binds + volumes + OtherEntries(items)
  {
    hide Mounts, Binds, Subvolumes, OtherEntries, Args.Meaning, Args.Of, Args.Shaped;
    PairEntries(items);
    MeaningMounts(items);
  }
}
