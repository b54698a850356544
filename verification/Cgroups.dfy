/** The control groups of the engines: paths, the calls that configure and remove one
    engine's groups, and why engines with different pids do not meet. */
module Cgroups {
  import opened Text
  import Args = EngineArgs

  datatype Subsystem = Memory | Cpu | Blkio

  function SubsystemName(s: Subsystem): string {
    match s
    case Memory => "memory"
    case Cpu => "cpu"
    case Blkio => "blkio"
  }

  /** The files of a group that the engine writes. */
  datatype Knob = MemoryLimit | CpuShares | CpuPeriod | CpuQuota | ReadBps | WriteBps | Tasks

  function KnobName(knob: Knob): string {
    match knob
    case MemoryLimit => "memory.limit_in_bytes"
    case CpuShares => "cpu.shares"
    case CpuPeriod => "cpu.cfs_period_us"
    case CpuQuota => "cpu.cfs_quota_us"
    case ReadBps => "blkio.throttle.read_bps_device"
    case WriteBps => "blkio.throttle.write_bps_device"
    case Tasks => "tasks"
  }

  /** What is written: the limit, with the device in front where there is one, or the pid. */
  function KnobText(pid: nat, limits: Args.Limits, knob: Knob): string {
    match knob
    case MemoryLimit => limits.memory
    case CpuShares => limits.cpuShares
    case CpuPeriod => limits.cpuPeriod
    case CpuQuota => limits.cpuQuota
    case ReadBps => "8:0 " + limits.readBps
    case WriteBps => "8:0 " + limits.writeBps
    case Tasks => Dec(pid)
  }

  datatype ProcFile = UidMap | Setgroups | GidMap

  function ProcName(file: ProcFile): string {
    match file
    case UidMap => "uid_map"
    case Setgroups => "setgroups"
    case GidMap => "gid_map"
  }

  function ProcText(file: ProcFile): string {
    match file
    case Setgroups => "deny"
    case _ => "0 1000 1\n"
  }

  const CGROUP_ROOT_PATH: string := "/sys/fs/cgroup/"

  function SharedDir(s: Subsystem): string {
    CGROUP_ROOT_PATH + SubsystemName(s) + "/" + "islander"
  }

  function GroupName(pid: nat): string {
    "group_" + Dec(pid)
  }

  function GroupDir(s: Subsystem, pid: nat): string {
    SharedDir(s) + "/" + GroupName(pid)
  }

  function GroupFile(s: Subsystem, pid: nat, knob: Knob): string {
    GroupDir(s, pid) + "/" + KnobName(knob)
  }

  function ProcPath(pid: nat, file: ProcFile): string {
    "/proc/" + Dec(pid) + "/" + ProcName(file)
  }

  /** Directories, and the text last written to each file. */
  datatype Fs = Fs(dirs: set<string>, files: map<string, string>)

  predicate Under(dir: string, path: string) {
    dir + "/" <= path
  }

  /** One system call of an engine. */
  datatype Call = MkShared(s: Subsystem) | MkGroup(s: Subsystem) | Write(s: Subsystem, knob: Knob)
                | RmGroup(s: Subsystem) | WriteProc(file: ProcFile)

  function MkDir(fs: Fs, path: string): Fs {
    fs.(dirs := fs.dirs + {path})
  }

  function WriteTo(fs: Fs, path: string, text: string): Fs {
    fs.(files := fs.files[path := text])
  }

  /** A group's files go with its directory. */
  function RmDir(fs: Fs, path: string): Fs {
    Fs(fs.dirs - {path}, map f | f in fs.files && !Under(path, f) :: fs.files[f])
  }

  /** What a call that succeeds does. */
  function Effect(fs: Fs, pid: nat, limits: Args.Limits, call: Call): Fs {
    match call
    case MkShared(s) => MkDir(fs, SharedDir(s))
    case MkGroup(s) => MkDir(fs, GroupDir(s, pid))
    case Write(s, knob) => WriteTo(fs, GroupFile(s, pid, knob), KnobText(pid, limits, knob))
    case RmGroup(s) => RmDir(fs, GroupDir(s, pid))
    case WriteProc(file) => WriteTo(fs, ProcPath(pid, file), ProcText(file))
  }

  function Effects(fs: Fs, pid: nat, limits: Args.Limits, calls: seq<Call>): Fs {
    if calls == [] then fs
    else Effect(Effects(fs, pid, limits, Front(calls)), pid, limits, Last(calls))
  }

  /** config_cgroup_subsystem: both directories, the limit, the pid. */
  function SubsystemCalls(s: Subsystem, knob: Knob): (calls: seq<Call>)
    ensures |calls| == 4
  {
    [MkShared(s), MkGroup(s), Write(s, knob), Write(s, Tasks)]
  }

  /** config_cgroup_limits: six limits in three subsystems. */
  function ConfigCalls(): (calls: seq<Call>)
    ensures |calls| == 24
  {
    SubsystemCalls(Memory, MemoryLimit) + SubsystemCalls(Cpu, CpuShares) + SubsystemCalls(Cpu, CpuPeriod)
    + SubsystemCalls(Cpu, CpuQuota) + SubsystemCalls(Blkio, ReadBps) + SubsystemCalls(Blkio, WriteBps)
  }

  function RemoveCalls(): seq<Call> {
    [RmGroup(Memory), RmGroup(Cpu), RmGroup(Blkio)]
  }

  // ---- paths

  lemma {:induction false} NoSlash(pid: nat)
    ensures '/' !in GroupName(pid) && '/' !in Dec(pid)
    ensures forall s :: '/' !in SubsystemName(s)
    ensures forall k :: '/' !in KnobName(k)
    ensures forall f :: '/' !in ProcName(f)
  {
    var d := Dec(pid);
    assert forall i :: 0 <= i < |d| ==> IsDigit(d[i]);
    hide Dec;
    forall s ensures '/' !in SubsystemName(s) { NoSlashSubsystem(s); }
    forall k ensures '/' !in KnobName(k) { NoSlashKnob(k); }
    forall f ensures '/' !in ProcName(f) { NoSlashProc(f); }
    hide SubsystemName, KnobName, ProcName;
  }

  lemma NoSlashSubsystem(s: Subsystem)
    ensures '/' !in SubsystemName(s)
  {
  }

  lemma NoSlashKnob(k: Knob)
    ensures '/' !in KnobName(k)
  {
  }

  lemma NoSlashProc(f: ProcFile)
    ensures '/' !in ProcName(f)
  {
  }

  lemma SplitSlash(a: string, b: string)
    requires '/' !in b
    ensures Split(a + "/" + b, '/') == Split(a, '/') + [b]
  {
    SplitAt(a, '/', b);
    SplitNone(b, '/');
  }

  lemma Rooted(a: string, b: string, c: string, d: string)
    requires '/' !in a && '/' !in b && '/' !in c && '/' !in d
    ensures Split("" + "/" + a, '/') == ["", a]
    ensures Split("" + "/" + a + "/" + b + "/" + c + "/" + d, '/') == ["", a, b, c, d]
  {
    var x := "" + "/" + a;
    var y := x + "/" + b;
    var z := y + "/" + c;
    SplitNone("", '/');
    SplitSlash("", a);
    SplitSlash(x, b);
    SplitSlash(y, c);
    SplitSlash(z, d);
  }

  lemma RootPath()
    ensures CGROUP_ROOT_PATH == "" + "/" + "sys" + "/" + "fs" + "/" + "cgroup" + "/"
    ensures '/' !in "sys" && '/' !in "fs" && '/' !in "cgroup" && '/' !in "proc" && '/' !in "islander"
    ensures "" + "/" + "proc" + "/" == "/proc/"
  {
  }

  lemma RootPieces(name: string)
    requires '/' !in name
    ensures Split(CGROUP_ROOT_PATH + name, '/') == ["", "sys", "fs", "cgroup", name]
  {
    hide Split;
    RootPath();
    Rooted("sys", "fs", "cgroup", name);
  }

  lemma SharedPieces(s: Subsystem)
    ensures Split(SharedDir(s), '/') == ["", "sys", "fs", "cgroup", SubsystemName(s), "islander"]
  {
    hide CGROUP_ROOT_PATH, SubsystemName;
    NoSlash(0);
    RootPath();
    RootPieces(SubsystemName(s));
    SplitSlash(CGROUP_ROOT_PATH + SubsystemName(s), "islander");
  }

  lemma GroupPieces(s: Subsystem, pid: nat)
    ensures Split(GroupDir(s, pid), '/') == ["", "sys", "fs", "cgroup", SubsystemName(s), "islander", GroupName(pid)]
  {
    hide SharedDir, GroupName, SubsystemName;
    NoSlash(pid);
    SharedPieces(s);
    SplitSlash(SharedDir(s), GroupName(pid));
  }

  lemma FilePieces(s: Subsystem, pid: nat, knob: Knob)
    ensures Split(GroupFile(s, pid, knob), '/')
         == ["", "sys", "fs", "cgroup", SubsystemName(s), "islander", GroupName(pid), KnobName(knob)]
  {
    hide GroupDir, GroupName, SubsystemName, KnobName;
    NoSlash(pid);
    GroupPieces(s, pid);
    SplitSlash(GroupDir(s, pid), KnobName(knob));
  }

  lemma ProcPieces(pid: nat, file: ProcFile)
    ensures Split(ProcPath(pid, file), '/') == ["", "proc", Dec(pid), ProcName(file)]
  {
    hide Dec, ProcName;
    NoSlash(pid);
    RootPath();
    Rooted("proc", "", "", "");
    var proc := "" + "/" + "proc";
    SplitSlash(proc, Dec(pid));
    SplitSlash(proc + "/" + Dec(pid), ProcName(file));
  }

  lemma NamesDiffer(s: Subsystem, s': Subsystem, k: Knob, k': Knob, f: ProcFile, f': ProcFile)
    ensures SubsystemName(s) == SubsystemName(s') ==> s == s'
    ensures KnobName(k) == KnobName(k') ==> k == k'
    ensures ProcName(f) == ProcName(f') ==> f == f'
  {
  }

  /** Decimal printing keeps pids apart, and so do the names made of it. */
  lemma {:induction false} GroupNameInjective(p: nat, q: nat)
    requires GroupName(p) == GroupName(q)
    ensures p == q
  {
    assert GroupName(p)[6..] == Dec(p) && GroupName(q)[6..] == Dec(q);
    DecInjective(p, q);
  }

  lemma {:induction false} UnderPieces(dir: string, path: string)
    requires Under(dir, path)
    ensures var d, p := Split(dir, '/'), Split(path, '/'); |d| < |p| && p[..|d|] == d
  {
    var rest := path[|dir| + 1..];
    assert path == dir + "/" + rest;
    SplitAt(dir, '/', rest);
  }

  /** Two group files are the same path only for the same subsystem, pid and knob, and a
      file lies under a group's directory only when it is that group's. */
  lemma {:induction false} FilesApart(s: Subsystem, p: nat, k: Knob, s': Subsystem, p': nat, k': Knob)
    ensures GroupFile(s, p, k) == GroupFile(s', p', k') <==> s == s' && p == p' && k == k'
    ensures Under(GroupDir(s, p), GroupFile(s', p', k')) <==> s == s' && p == p'
  {
    hide GroupDir, Split, GroupName, SubsystemName, KnobName;
    FilePieces(s, p, k);
    FilePieces(s', p', k');
    GroupPieces(s, p);
    var d, f := Split(GroupDir(s, p), '/'), Split(GroupFile(s', p', k'), '/');
    if Under(GroupDir(s, p), GroupFile(s', p', k')) {
      UnderPieces(GroupDir(s, p), GroupFile(s', p', k'));
      assert d[4] == f[4] && d[6] == f[6];
      NamesDiffer(s, s', k, k', UidMap, UidMap);
      GroupNameInjective(p, p');
    }
    if GroupFile(s, p, k) == GroupFile(s', p', k') {
      assert Split(GroupFile(s, p, k), '/')[4] == f[4];
      assert Split(GroupFile(s, p, k), '/')[6] == f[6];
      assert Split(GroupFile(s, p, k), '/')[7] == f[7];
      NamesDiffer(s, s', k, k', UidMap, UidMap);
      GroupNameInjective(p, p');
    }
  }

  /** The directories of different groups differ, and none is a shared one. */
  lemma {:induction false} DirsApart(s: Subsystem, p: nat, s': Subsystem, p': nat)
    ensures GroupDir(s, p) == GroupDir(s', p') <==> s == s' && p == p'
    ensures GroupDir(s, p) != SharedDir(s')
    ensures SharedDir(s) == SharedDir(s') <==> s == s'
  {
    hide SharedDir, GroupDir, Split, GroupName, SubsystemName;
    GroupPieces(s, p);
    GroupPieces(s', p');
    SharedPieces(s);
    SharedPieces(s');
    var d, d' := Split(GroupDir(s, p), '/'), Split(GroupDir(s', p'), '/');
    assert |d| == 7 && |Split(SharedDir(s'), '/')| == 6;
    if GroupDir(s, p) == GroupDir(s', p') {
      assert d[4] == d'[4] && d[6] == d'[6];
      NamesDiffer(s, s', Tasks, Tasks, UidMap, UidMap);
      GroupNameInjective(p, p');
    }
    if SharedDir(s) == SharedDir(s') {
      assert Split(SharedDir(s), '/')[4] == Split(SharedDir(s'), '/')[4];
      NamesDiffer(s, s', Tasks, Tasks, UidMap, UidMap);
    }
  }

  /** The files of a process differ from those of any other process, from all group files,
      and lie under no group. */
  lemma ProcApart(p: nat, f: ProcFile, q: nat, g: ProcFile, s: Subsystem, k: Knob)
    ensures ProcPath(p, f) == ProcPath(q, g) <==> p == q && f == g
    ensures ProcPath(p, f) != GroupFile(s, q, k)
    ensures !Under(GroupDir(s, q), ProcPath(p, f))
  {
    hide ProcPath, GroupFile, GroupDir, Split, GroupName, SubsystemName, KnobName, ProcName, Dec;
    ProcPieces(p, f);
    ProcPieces(q, g);
    FilePieces(s, q, k);
    GroupPieces(s, q);
    var path := Split(ProcPath(p, f), '/');
    assert |path| == 4 && |Split(GroupFile(s, q, k), '/')| == 8 && |Split(GroupDir(s, q), '/')| == 7;
    if Under(GroupDir(s, q), ProcPath(p, f)) {
      UnderPieces(GroupDir(s, q), ProcPath(p, f));
    }
    if ProcPath(p, f) == ProcPath(q, g) {
      assert path[2] == Split(ProcPath(q, g), '/')[2] && path[3] == Split(ProcPath(q, g), '/')[3];
      DecInjective(p, q);
      NamesDiffer(s, s, k, k, f, g);
    }
  }

  // ---- what calls leave alone

  /** The result of a call is in place. */
  predicate Holds(fs: Fs, pid: nat, limits: Args.Limits, call: Call) {
    match call
    case MkShared(s) => SharedDir(s) in fs.dirs
    case MkGroup(s) => GroupDir(s, pid) in fs.dirs
    case Write(s, knob) =>
      var f := GroupFile(s, pid, knob);
      f in fs.files && fs.files[f] == KnobText(pid, limits, knob)
    case RmGroup(s) => GroupDir(s, pid) !in fs.dirs
    case WriteProc(file) =>
      var f := ProcPath(pid, file);
      f in fs.files && fs.files[f] == ProcText(file)
  }

  lemma {:induction false} EffectHolds(fs: Fs, pid: nat, limits: Args.Limits, call: Call)
    ensures Holds(Effect(fs, pid, limits, call), pid, limits, call)
  {
    hide SharedDir, GroupDir, GroupFile, KnobText, ProcPath, ProcText, Under;
  }

  predicate SameFile(fs: Fs, fs': Fs, path: string) {
    (path in fs.files <==> path in fs'.files) && (path in fs.files ==> fs.files[path] == fs'.files[path])
  }

  /** Nothing of this engine has changed: its groups are there or not as before, its files
      hold what they held, and no shared directory has gone. */
  ghost predicate SameFor(pid: nat, fs: Fs, fs': Fs) {
    && (forall s, k :: SameFile(fs, fs', GroupFile(s, pid, k)))
    && (forall f :: SameFile(fs, fs', ProcPath(pid, f)))
    && (forall s :: GroupDir(s, pid) in fs.dirs <==> GroupDir(s, pid) in fs'.dirs)
    && (forall s :: SharedDir(s) in fs.dirs ==> SharedDir(s) in fs'.dirs)
  }

  /** Non-interference: whatever call one engine makes, nothing of another changes. */
  lemma {:induction false} Foreign(fs: Fs, p: nat, q: nat, limits: Args.Limits, call: Call)
    requires p != q
    ensures SameFor(p, fs, Effect(fs, q, limits, call))
  {
    hide SharedDir, GroupDir, GroupFile, KnobText, ProcPath, ProcText, Under;
    var fs' := Effect(fs, q, limits, call);
    forall s, k ensures SameFile(fs, fs', GroupFile(s, p, k)) {
      if call.Write? { FilesApart(call.s, q, call.knob, s, p, k); }
      if call.RmGroup? { FilesApart(call.s, q, k, s, p, k); }
      if call.WriteProc? { ProcApart(q, call.file, p, call.file, s, k); }
    }
    forall f ensures SameFile(fs, fs', ProcPath(p, f)) {
      if call.Write? { ProcApart(p, f, q, f, call.s, call.knob); }
      if call.RmGroup? { ProcApart(p, f, q, f, call.s, Tasks); }
      if call.WriteProc? { ProcApart(p, f, q, call.file, Memory, Tasks); }
    }
    forall s ensures GroupDir(s, p) in fs.dirs <==> GroupDir(s, p) in fs'.dirs {
      if call.MkGroup? || call.RmGroup? { DirsApart(call.s, q, s, p); }
      if call.MkShared? { DirsApart(s, p, call.s, p); }
    }
    forall s ensures SharedDir(s) in fs.dirs ==> SharedDir(s) in fs'.dirs {
      if call.RmGroup? { DirsApart(call.s, q, s, q); }
    }
  }

  lemma {:induction false} HoldsStays(pid: nat, limits: Args.Limits, call: Call, fs: Fs, fs': Fs)
    requires SameFor(pid, fs, fs') && Holds(fs, pid, limits, call)
    ensures Holds(fs', pid, limits, call)
  {
    hide SharedDir, GroupDir, GroupFile, KnobText, ProcPath, ProcText;
    match call
    case Write(s, knob) => assert SameFile(fs, fs', GroupFile(s, pid, knob));
    case WriteProc(file) => assert SameFile(fs, fs', ProcPath(pid, file));
    case _ =>
  }

  /** Until it removes its groups, an engine does not undo what it has done. */
  lemma {:induction false} Own(fs: Fs, pid: nat, limits: Args.Limits, done: Call, call: Call)
    requires !call.RmGroup? && !done.RmGroup? && Holds(fs, pid, limits, done)
    ensures Holds(Effect(fs, pid, limits, call), pid, limits, done)
  {
    hide SharedDir, GroupDir, GroupFile, KnobText, ProcPath, ProcText, Under;
    match done
    case MkShared(s) =>
    case MkGroup(s) =>
    case Write(s, knob) =>
      if call.Write? { FilesApart(call.s, pid, call.knob, s, pid, knob); }
      if call.WriteProc? { ProcApart(pid, call.file, pid, call.file, s, knob); }
    case WriteProc(file) =>
      if call.Write? { ProcApart(pid, file, pid, file, call.s, call.knob); }
      if call.WriteProc? { ProcApart(pid, file, pid, call.file, Memory, Tasks); }
  }

  predicate Configures(call: Call) {
    call.MkShared? || call.MkGroup? || call.Write?
  }

  predicate InGroups(pid: nat, path: string) {
    Under(GroupDir(Memory, pid), path) || Under(GroupDir(Cpu, pid), path) || Under(GroupDir(Blkio, pid), path)
  }

  function Groups(pid: nat): set<string> {
    {GroupDir(Memory, pid), GroupDir(Cpu, pid), GroupDir(Blkio, pid)}
  }

  function SharedDirs(): set<string> {
    {SharedDir(Memory), SharedDir(Cpu), SharedDir(Blkio)}
  }

  /** Configuring touches nothing but the engine's own groups and the shared directories. */
  lemma {:induction false} ConfigureFrame(fs: Fs, pid: nat, limits: Args.Limits, calls: seq<Call>)
    requires forall i :: 0 <= i < |calls| ==> Configures(calls[i])
    ensures var fs' := Effects(fs, pid, limits, calls);
            && fs.dirs <= fs'.dirs <= fs.dirs + SharedDirs() + Groups(pid)
            && (forall f :: !InGroups(pid, f) ==> (f in fs'.files <==> f in fs.files))
            && (forall f :: !InGroups(pid, f) && f in fs.files ==> fs'.files[f] == fs.files[f])
  {
    hide SharedDir, GroupDir, GroupFile, KnobText, Under;
    if calls != [] {
      ConfigureFrame(fs, pid, limits, Front(calls));
      var call := calls[|calls| - 1];
      assert Configures(call);
      match call.s {
        case Memory =>
        case Cpu =>
        case Blkio =>
      }
      assert SharedDir(call.s) in SharedDirs() && GroupDir(call.s, pid) in Groups(pid);
      if call.Write? {
        FilesApart(call.s, pid, call.knob, call.s, pid, call.knob);
        assert InGroups(pid, GroupFile(call.s, pid, call.knob));
      }
    }
  }

  lemma {:induction false} EffectsSplit(fs: Fs, pid: nat, limits: Args.Limits, a: seq<Call>, b: seq<Call>)
    ensures Effects(fs, pid, limits, a + b) == Effects(Effects(fs, pid, limits, a), pid, limits, b)
  {
    hide Effect;
    if b == [] {
      assert a + b == a;
    } else {
      EffectsSplit(fs, pid, limits, a, Front(b));
      assert Front(a + b) == a + Front(b) && Last(a + b) == Last(b);
    }
  }

  lemma {:induction false} EffectsHold(fs: Fs, pid: nat, limits: Args.Limits, calls: seq<Call>, i: nat)
    requires i < |calls| && forall k :: 0 <= k < |calls| ==> !calls[k].RmGroup?
    ensures Holds(Effects(fs, pid, limits, calls), pid, limits, calls[i])
  {
    hide Effect, Holds;
    var fs' := Effects(fs, pid, limits, Front(calls));
    if i == |calls| - 1 {
      EffectHolds(fs', pid, limits, calls[i]);
    } else {
      EffectsHold(fs, pid, limits, Front(calls), i);
      Own(fs', pid, limits, calls[i], Last(calls));
    }
  }

  /** Configuring and then removing deletes exactly the engine's three directories with
      what was in them, and leaves the shared directories. */
  lemma {:induction false} ConfigureThenRemove(fs: Fs, pid: nat, limits: Args.Limits)
    ensures var fs' := Effects(fs, pid, limits, ConfigCalls() + RemoveCalls());
            && fs'.dirs == fs.dirs + SharedDirs() - Groups(pid)
            && fs'.files == map f | f in fs.files && !InGroups(pid, f) :: fs.files[f]
  {
    var calls := ConfigCalls();
    var mid := Effects(fs, pid, limits, calls);
    ConfigurePrefix();
    EffectsSplit(fs, pid, limits, calls, RemoveCalls());
    ConfigureFrame(fs, pid, limits, calls);
    EffectsHold(fs, pid, limits, calls, 0);
    EffectsHold(fs, pid, limits, calls, 4);
    EffectsHold(fs, pid, limits, calls, 16);
    hide SharedDir, GroupDir, Under, ConfigCalls;
    RemoveThree(mid, pid, limits);
    forall s: Subsystem ensures SharedDir(s) !in Groups(pid) {
      DirsApart(Memory, pid, s, pid);
      DirsApart(Cpu, pid, s, pid);
      DirsApart(Blkio, pid, s, pid);
    }
  }

  lemma ConfigurePrefix()
    ensures forall i :: 0 <= i < 24 ==> Configures(ConfigCalls()[i]) && !ConfigCalls()[i].RmGroup?
    ensures ConfigCalls()[0] == MkShared(Memory) && ConfigCalls()[4] == MkShared(Cpu)
    ensures ConfigCalls()[16] == MkShared(Blkio)
  {
  }

  lemma RemoveThree(fs: Fs, pid: nat, limits: Args.Limits)
    ensures var fs' := Effects(fs, pid, limits, RemoveCalls());
            && fs'.dirs == fs.dirs - Groups(pid)
            && fs'.files == map f | f in fs.files && !InGroups(pid, f) :: fs.files[f]
  {
    hide GroupDir, Under;
    var r := RemoveCalls();
    assert Front(r) == [RmGroup(Memory), RmGroup(Cpu)] && Front(Front(r)) == [RmGroup(Memory)];
    assert Front([RmGroup(Memory)]) == [];
    var a := RmDir(fs, GroupDir(Memory, pid));
    var b := RmDir(a, GroupDir(Cpu, pid));
    var c := RmDir(b, GroupDir(Blkio, pid));
    assert Effects(fs, pid, limits, [RmGroup(Memory)]) == a;
    assert Effects(fs, pid, limits, Front(r)) == b;
    assert Effects(fs, pid, limits, r) == c;
  }

  // ---- the calls in the order of the code

  /** The kernel as one engine meets it: some number of its calls succeed, the next one
      that may end the engine fails. */
  class Kernel {
    var fs: Fs
    var patience: nat

    constructor (fs: Fs, patience: nat)
      ensures this.fs == fs && this.patience == patience
    {
      this.fs, this.patience := fs, patience;
    }

    method CreateDir(path: string) returns (ok: bool)
      modifies this
      ensures ok <==> old(patience) > 0
      ensures ok ==> patience == old(patience) - 1 && fs == MkDir(old(fs), path)
      ensures !ok ==> patience == 0 && fs == old(fs)
    {
      ok := patience > 0;
      if ok {
        patience, fs := patience - 1, MkDir(fs, path);
      }
    }

    method WriteFile(path: string, text: string) returns (ok: bool)
      modifies this
      ensures ok <==> old(patience) > 0
      ensures ok ==> patience == old(patience) - 1 && fs == WriteTo(old(fs), path, text)
      ensures !ok ==> patience == 0 && fs == old(fs)
    {
      ok := patience > 0;
      if ok {
        patience, fs := patience - 1, WriteTo(fs, path, text);
      }
    }

    /** Builds the paths and makes four calls; stops at the first that fails. */
    method ConfigCgroupSubsystem(s: Subsystem, groupName: string, knob: Knob, value: string, pid: nat,
                                 ghost limits: Args.Limits) returns (ok: bool)
      requires groupName == GroupName(pid) && value == KnobText(pid, limits, knob)
      modifies this
      ensures ok <==> old(patience) >= 4
      ensures ok ==> patience == old(patience) - 4
      ensures ok ==> fs == Effects(old(fs), pid, limits, SubsystemCalls(s, knob))
      ensures !ok ==> fs == Effects(old(fs), pid, limits, SubsystemCalls(s, knob)[..old(patience)])
    {
      hide SharedDir, GroupName, KnobName, KnobText, Effects, MkDir, WriteTo;
      FourCalls(fs, pid, limits, s, knob);
      var subsystemPath := CGROUP_ROOT_PATH + SubsystemName(s) + "/" + "islander";
      SharedDirIs(s);
      ok := CreateDir(subsystemPath);
      if !ok { return; }
      var groupPath := subsystemPath + "/" + groupName;
      ok := CreateDir(groupPath);
      if !ok { return; }
      ok := WriteFile(groupPath + "/" + KnobName(knob), value);
      if !ok { return; }
      TasksText(pid, limits);
      ok := WriteFile(groupPath + "/" + "tasks", Dec(pid));
    }

    /** The six limits, in order. */
    method ConfigCgroupLimits(pid: nat, limits: Args.Limits) returns (ok: bool)
      modifies this
      ensures ok <==> old(patience) >= 24
      ensures ok ==> fs == Effects(old(fs), pid, limits, ConfigCalls())
      ensures !ok ==> fs == Effects(old(fs), pid, limits, ConfigCalls()[..old(patience)])
    {
      hide Effects, SubsystemCalls, GroupName;
      var plan := [(Memory, MemoryLimit, limits.memory), (Cpu, CpuShares, limits.cpuShares),
                   (Cpu, CpuPeriod, limits.cpuPeriod), (Cpu, CpuQuota, limits.cpuQuota),
                   (Blkio, ReadBps, "8:0 " + limits.readBps), (Blkio, WriteBps, "8:0 " + limits.writeBps)];
      ghost var start, calls := fs, ConfigCalls();
      ok := true;
      assert calls[..0] == [];
      NoEffects(fs, pid, limits);
      for i := 0 to 6
        invariant ok && patience == old(patience) - 4 * i
        invariant fs == Effects(start, pid, limits, calls[..4 * i])
      {
        var (s, knob, value) := plan[i];
        ConfigPart(i, s, knob);
        ghost var left := if patience < 4 then patience else 4;
        EffectsSplit(start, pid, limits, calls[..4 * i], SubsystemCalls(s, knob)[..left]);
        assert calls[..4 * i + left] == calls[..4 * i] + SubsystemCalls(s, knob)[..left];
        assert SubsystemCalls(s, knob)[..4] == SubsystemCalls(s, knob);
        ok := ConfigCgroupSubsystem(s, GroupName(pid), knob, value, pid, limits);
        if !ok {
          return;
        }
      }
      assert calls[..24] == calls;
    }

    /** Removes one group. A refusal is only reported. */
    method RmCgroupDir(s: Subsystem, pid: nat, groupName: string, busy: set<string>, ghost limits: Args.Limits)
      requires groupName == GroupName(pid)
      modifies this`fs
      ensures fs == if GroupDir(s, pid) in busy then old(fs) else Effect(old(fs), pid, limits, RmGroup(s))
    {
      var path := CGROUP_ROOT_PATH + SubsystemName(s) + "/" + "islander" + "/" + groupName;
      if path !in busy {
        fs := RmDir(fs, path);
      }
    }

    /** Removes the three groups of one engine, as far as the kernel lets it. */
    method RmCgroupDirs(pid: nat, busy: set<string>, ghost limits: Args.Limits)
      modifies this`fs
      ensures fs == Effects(old(fs), pid, limits, Granted(Memory, pid, busy) + Granted(Cpu, pid, busy)
                                                  + Granted(Blkio, pid, busy))
    {
      hide Effect, GroupDir;
      ghost var start := fs;
      ghost var a, b, c := Granted(Memory, pid, busy), Granted(Cpu, pid, busy), Granted(Blkio, pid, busy);
      OneGranted(fs, Memory, pid, busy, limits);
      RmCgroupDir(Memory, pid, GroupName(pid), busy, limits);
      OneGranted(fs, Cpu, pid, busy, limits);
      EffectsSplit(start, pid, limits, a, b);
      RmCgroupDir(Cpu, pid, GroupName(pid), busy, limits);
      OneGranted(fs, Blkio, pid, busy, limits);
      EffectsSplit(start, pid, limits, a + b, c);
      RmCgroupDir(Blkio, pid, GroupName(pid), busy, limits);
    }
  }

  function Granted(s: Subsystem, pid: nat, busy: set<string>): seq<Call> {
    if GroupDir(s, pid) in busy then [] else [RmGroup(s)]
  }

  lemma {:induction false} OneGranted(fs: Fs, s: Subsystem, pid: nat, busy: set<string>, limits: Args.Limits)
    ensures Effects(fs, pid, limits, Granted(s, pid, busy))
         == if GroupDir(s, pid) in busy then fs else Effect(fs, pid, limits, RmGroup(s))
  {
    hide GroupDir, Effect;
    assert Front([RmGroup(s)]) == [];
  }

  lemma NoEffects(fs: Fs, pid: nat, limits: Args.Limits)
    ensures Effects(fs, pid, limits, []) == fs
  {
  }

  lemma SharedDirIs(s: Subsystem)
    ensures SharedDir(s) == CGROUP_ROOT_PATH + SubsystemName(s) + "/" + "islander"
  {
  }

  lemma TasksText(pid: nat, limits: Args.Limits)
    ensures KnobText(pid, limits, Tasks) == Dec(pid) && KnobName(Tasks) == "tasks"
  {
  }

  lemma FourCalls(fs: Fs, pid: nat, limits: Args.Limits, s: Subsystem, knob: Knob)
    ensures var calls := SubsystemCalls(s, knob);
            var a := MkDir(fs, SharedDir(s));
            var b := MkDir(a, GroupDir(s, pid));
            var c := WriteTo(b, GroupFile(s, pid, knob), KnobText(pid, limits, knob));
            var d := WriteTo(c, GroupFile(s, pid, Tasks), KnobText(pid, limits, Tasks));
            && Effects(fs, pid, limits, calls[..0]) == fs
            && Effects(fs, pid, limits, calls[..1]) == a
            && Effects(fs, pid, limits, calls[..2]) == b
            && Effects(fs, pid, limits, calls[..3]) == c
            && Effects(fs, pid, limits, calls) == d
  {
    hide SharedDir, GroupDir, GroupFile, KnobText, MkDir, WriteTo;
    var calls := SubsystemCalls(s, knob);
    forall i | 0 <= i < 4
      ensures Effects(fs, pid, limits, calls[..i + 1])
           == Effect(Effects(fs, pid, limits, calls[..i]), pid, limits, calls[i])
    {
      assert Front(calls[..i + 1]) == calls[..i];
    }
    assert calls[..4] == calls;
  }

  lemma {:induction false} ConfigPart(i: nat, s: Subsystem, knob: Knob)
    requires i < 6
    requires (s, knob) == [(Memory, MemoryLimit), (Cpu, CpuShares), (Cpu, CpuPeriod), (Cpu, CpuQuota),
                           (Blkio, ReadBps), (Blkio, WriteBps)][i]
    ensures ConfigCalls()[4 * i..4 * i + 4] == SubsystemCalls(s, knob)
  {
    hide SubsystemCalls;
    var a, b, c := SubsystemCalls(Memory, MemoryLimit), SubsystemCalls(Cpu, CpuShares), SubsystemCalls(Cpu, CpuPeriod);
    var d, e, f := SubsystemCalls(Cpu, CpuQuota), SubsystemCalls(Blkio, ReadBps), SubsystemCalls(Blkio, WriteBps);
    SixParts(a, b, c, d, e, f);
    assert ConfigCalls() == a + b + c + d + e + f;
    match i {
      case 0 => assert SubsystemCalls(s, knob) == a;
      case 1 => assert SubsystemCalls(s, knob) == b;
      case 2 => assert SubsystemCalls(s, knob) == c;
      case 3 => assert SubsystemCalls(s, knob) == d;
      case 4 => assert SubsystemCalls(s, knob) == e;
      case _ => assert SubsystemCalls(s, knob) == f;
    }
  }

  lemma SixParts<T>(a: seq<T>, b: seq<T>, c: seq<T>, d: seq<T>, e: seq<T>, f: seq<T>)
    requires |a| == |b| == |c| == |d| == |e| == |f| == 4
    ensures var all := a + b + c + d + e + f;
            && all[0..4] == a && all[4..8] == b && all[8..12] == c
            && all[12..16] == d && all[16..20] == e && all[20..24] == f
  {
  }
}
