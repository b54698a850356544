/** Engines starting their containers side by side. Each engine is a parent process and
    a cloned child with a pipe between them; the kernel's directories and files, and the
    host's one network interface for isles, are shared by all. */
module Launch {
  import opened Text
  import opened Cgroups
  import Args = EngineArgs
  import Ledger

  /** What the engine understood of its arguments. */
  type Config = Args.Params

  /** What the parent does, step by step: write the registry entry, make system calls,
      set up the child's network, let the child go, close the pipe, mount what was asked
      for, wait for the child, unmount. */
  datatype Action = Record | Sys(call: Call) | Netns | SendOk | ClosePipe | Features | AwaitChild | Release

  function SysAll(calls: seq<Call>): (actions: seq<Action>)
    ensures |actions| == |calls| && forall i :: 0 <= i < |calls| ==> actions[i] == Sys(calls[i])
  {
    seq(|calls|, i requires 0 <= i < |calls| => Sys(calls[i]))
  }

  /** The parent up to the message that opens the gate. */
  function Setup(c: Config): seq<Action> {
    [Record] + SysAll([WriteProc(UidMap), WriteProc(Setgroups), WriteProc(GidMap)])
    + (if c.netns then [Netns] else []) + SysAll(ConfigCalls())
  }

  /** The whole of run_main_logic behind the clone. */
  function Program(c: Config): seq<Action> {
    Setup(c) + [SendOk, ClosePipe, Features, AwaitChild, Release] + SysAll(RemoveCalls())
  }

  /** The child waits at the gate, is let through, runs the command, and ends. */
  datatype Child = Waiting | Released | Running | Gone

  datatype Engine = Engine(config: Config, pc: nat, dead: bool, pipe: string, child: Child, executed: bool,
                           mounted: seq<Ledger.Mount>, unmounted: seq<Ledger.Unmount>)

  /** The host has one interface for all engines; veth says to whose child it leads. */
  datatype World = World(fs: Fs, veth: Option<nat>, engines: map<nat, Engine>)

  /** Engine pid moves one step: its parent or its child, with success or not. For a step
      that fails, reached says how far it had got: how many bytes were written, whether
      the old interface was deleted, how many mounts or unmounts were made. */
  datatype Event = Parent(pid: nat, ok: bool, reached: nat) | Child(pid: nat, ok: bool)

  const PIPE_OK_MSG: string := "OK"

  /** What an action that succeeds changes outside its engine. Setting up a network
      deletes the interface, if there is one, and makes it anew. */
  function Perform(w: World, pid: nat, action: Action): World
    requires pid in w.engines
  {
    match action
    case Sys(call) => w.(fs := Effect(w.fs, pid, w.engines[pid].config.limits, call))
    case Netns => w.(veth := Some(pid))
    case _ => w
  }

  /** What an action that fails leaves behind outside its engine: the interface may be
      deleted already. */
  function Spoil(w: World, action: Action, reached: nat): World {
    if action.Netns? && reached > 0 then w.(veth := None) else w
  }

  function Put(w: World, pid: nat, e: Engine): World {
    w.(engines := w.engines[pid := e])
  }

  function Advance(e: Engine, action: Action): Engine {
    var next := e.(pc := e.pc + 1);
    match action
    case SendOk => next.(pipe := e.pipe + PIPE_OK_MSG)
    case Features => next.(mounted := Ledger.Mounts(e.config))
    case Release => next.(unmounted := Ledger.Unmounts(e.config))
    case _ => next
  }

  function AtMost<T>(s: seq<T>, n: nat): seq<T> {
    if n < |s| then s[..n] else s
  }

  function Fall(e: Engine, action: Action, reached: nat): Engine {
    var last := e.(dead := true);
    match action
    case SendOk => last.(pipe := e.pipe + PIPE_OK_MSG[..reached % 2])
    case Features => last.(mounted := AtMost(Ledger.Mounts(e.config), reached))
    case Release => last.(unmounted := AtMost(Ledger.Unmounts(e.config), reached))
    case _ => last
  }

  /** One step of a parent. A failure ends it, except that a group which cannot be removed
      is only reported, and waiting goes on as long as the child is there. */
  function StepParent(w: World, pid: nat, ok: bool, reached: nat): World
    requires pid in w.engines
  {
    var e := w.engines[pid];
    if e.dead || e.pc >= |Program(e.config)| then w
    else
      var action := Program(e.config)[e.pc];
      if action.AwaitChild? && ok && e.child != Gone then w
      else if ok then Put(Perform(w, pid, action), pid, Advance(e, action))
      else if action.Sys? && action.call.RmGroup? then Put(w, pid, Advance(e, action))
      else Put(Spoil(w, action, reached), pid, Fall(e, action, reached))
  }

  /** One step of a child. Its read returns only when something is in the pipe, and
      anything but two bytes ends it; so does any failure on the way to the command. */
  function StepChild(w: World, pid: nat, ok: bool): World
    requires pid in w.engines
  {
    var e := w.engines[pid];
    match e.child
    case Waiting =>
      if !ok then Put(w, pid, e.(child := Gone))
      else if e.pipe == "" then w
      else Put(w, pid, e.(pipe := "", child := if |e.pipe| == |PIPE_OK_MSG| then Released else Gone))
    case Released =>
      Put(w, pid, if ok then e.(child := Running, executed := true) else e.(child := Gone))
    case _ => Put(w, pid, e.(child := Gone))
  }

  function Step(w: World, event: Event): World {
    if event.pid !in w.engines then w
    else match event
      case Parent(pid, ok, reached) => StepParent(w, pid, ok, reached)
      case Child(pid, ok) => StepChild(w, pid, ok)
  }

  function Run(w: World, events: seq<Event>): World {
    if events == [] then w else Step(Run(w, Front(events)), Last(events))
  }

  /** Any number of engines whose children have just been cloned, over any directories.
      The interface may be there, but does not lead to any of these children. */
  predicate Start(w: World) {
    && (w.veth.Some? ==> w.veth.value !in w.engines)
    && forall p :: p in w.engines ==>
         var e := w.engines[p];
         e.pc == 0 && !e.dead && e.pipe == "" && e.child == Waiting && !e.executed
         && e.mounted == [] && e.unmounted == []
  }

  // ---- positions in the program

  function Gate(c: Config): nat {
    |Setup(c)|
  }

  lemma {:induction false} SetupShape(c: Config)
    ensures Gate(c) == if c.netns then 29 else 28
    ensures forall i :: 0 <= i < Gate(c) ==>
              var a := Setup(c)[i]; (a.Record? || a.Sys? || a.Netns?) && (a.Sys? ==> !a.call.RmGroup?)
  {
    hide ConfigCalls;
    ConfigurePrefix();
    var calls := SysAll(ConfigCalls());
    assert forall i :: 0 <= i < 24 ==> !calls[i].call.RmGroup?;
  }

  lemma {:induction false} ProgramShape(c: Config)
    ensures |Program(c)| == Gate(c) + 8
    ensures forall i :: 0 <= i < Gate(c) ==> Program(c)[i] == Setup(c)[i]
    ensures var g := Gate(c);
            && Program(c)[g] == SendOk && Program(c)[g + 1] == ClosePipe && Program(c)[g + 2] == Features
            && Program(c)[g + 3] == AwaitChild && Program(c)[g + 4] == Release
            && Program(c)[g + 5] == Sys(RmGroup(Memory)) && Program(c)[g + 6] == Sys(RmGroup(Cpu))
            && Program(c)[g + 7] == Sys(RmGroup(Blkio))
  {
    hide Setup;
  }

  /** The result of a parent's system call is in place. */
  predicate Done(fs: Fs, pid: nat, limits: Args.Limits, action: Action) {
    action.Sys? ==> Holds(fs, pid, limits, action.call)
  }

  /** What one engine keeps: the gate opens only behind the setup, nothing is taken down
      before the child has ended, and until then everything the calls set up is in place. */
  predicate EngineInv(fs: Fs, pid: nat, e: Engine) {
    var gate := Gate(e.config);
    && (e.pc <= gate ==> e.child in {Waiting, Gone} && !e.executed && |e.pipe| < 2)
    && (e.pc <= gate && !e.dead ==> e.pipe == "")
    && (e.pc > gate + 3 ==> e.child == Gone)
    && (e.pc <= gate + 5 ==>
          forall i :: 0 <= i < e.pc && i < gate ==> Done(fs, pid, e.config.limits, Setup(e.config)[i]))
  }

  predicate Inv(w: World) {
    forall p :: p in w.engines ==> EngineInv(w.fs, p, w.engines[p])
  }

  lemma {:induction false} SameSelf(p: nat, fs: Fs)
    ensures SameFor(p, fs, fs)
  {
  }

  /** The event is a step of a parent that has this action before it. */
  predicate Takes(w: World, event: Event, action: Action) {
    && event.pid in w.engines && event.Parent?
    && var e := w.engines[event.pid];
       !e.dead && e.pc < |Program(e.config)| && Program(e.config)[e.pc] == action
  }

  /** Files and directories change only by calls that succeed. */
  lemma {:induction false} StepFs(w: World, event: Event)
    ensures Step(w, event).fs == w.fs ||
            exists call :: Takes(w, event, Sys(call)) && event.ok
                           && Step(w, event).fs == Effect(w.fs, event.pid, w.engines[event.pid].config.limits, call)
    ensures forall call :: Takes(w, event, Sys(call)) && event.ok ==>
              Step(w, event).fs == Effect(w.fs, event.pid, w.engines[event.pid].config.limits, call)
  {
    hide Program, Effect;
    if event.pid in w.engines && event.Parent? {
      var e := w.engines[event.pid];
      if e.pc < |Program(e.config)| && Program(e.config)[e.pc].Sys? {
        assert Takes(w, event, Sys(Program(e.config)[e.pc].call)) || e.dead;
      }
    }
  }

  /** A step of one engine keeps what every other engine keeps. */
  lemma {:induction false} StepOther(w: World, event: Event, p: nat)
    requires p in w.engines && p != event.pid
    ensures p in Step(w, event).engines && Step(w, event).engines[p] == w.engines[p]
    ensures SameFor(p, w.fs, Step(w, event).fs)
    ensures EngineInv(w.fs, p, w.engines[p]) ==> EngineInv(Step(w, event).fs, p, w.engines[p])
  {
    hide Setup, Program, Effect, SameFor, Holds;
    SameSelf(p, w.fs);
    StepFs(w, event);
    var q, e, fs' := event.pid, w.engines[p], Step(w, event).fs;
    if fs' != w.fs {
      var call :| Takes(w, event, Sys(call)) && fs' == Effect(w.fs, q, w.engines[q].config.limits, call);
      Foreign(w.fs, p, q, w.engines[q].config.limits, call);
      forall a | Done(w.fs, p, e.config.limits, a) ensures Done(fs', p, e.config.limits, a) {
        if a.Sys? {
          HoldsStays(p, e.config.limits, a.call, w.fs, fs');
        }
      }
    }
  }

  lemma {:induction false} OwnChild(w: World, p: nat, ok: bool)
    requires p in w.engines && EngineInv(w.fs, p, w.engines[p])
    ensures var w' := StepChild(w, p, ok);
            p in w'.engines && w'.fs == w.fs && EngineInv(w'.fs, p, w'.engines[p])
  {
    hide Setup, Done;
  }

  /** A step of the parent that is still setting up. */
  lemma {:induction false} OwnSetup(w: World, p: nat, ok: bool, reached: nat)
    requires p in w.engines && EngineInv(w.fs, p, w.engines[p]) && w.engines[p].pc < Gate(w.engines[p].config)
    ensures var w' := StepParent(w, p, ok, reached); p in w'.engines && EngineInv(w'.fs, p, w'.engines[p])
  {
    hide Setup, Program, Effect, Holds;
    var e := w.engines[p];
    SetupShape(e.config);
    ProgramShape(e.config);
    var action := Setup(e.config)[e.pc];
    var fs' := Perform(w, p, action).fs;
    if action.Sys? {
      EffectHolds(w.fs, p, e.config.limits, action.call);
      forall i | 0 <= i < e.pc ensures Done(fs', p, e.config.limits, Setup(e.config)[i]) {
        if Setup(e.config)[i].Sys? {
          Own(w.fs, p, e.config.limits, Setup(e.config)[i].call, action.call);
        }
      }
    }
  }

  /** A step of the parent from the gate on. */
  lemma {:induction false} OwnRest(w: World, p: nat, ok: bool, reached: nat)
    requires p in w.engines && EngineInv(w.fs, p, w.engines[p]) && w.engines[p].pc >= Gate(w.engines[p].config)
    ensures var w' := StepParent(w, p, ok, reached); p in w'.engines && EngineInv(w'.fs, p, w'.engines[p])
  {
    hide Setup, Program, Done, Effect;
    var e := w.engines[p];
    SetupShape(e.config);
    ProgramShape(e.config);
  }

  /** Every step keeps what every engine keeps. */
  lemma {:induction false} StepInv(w: World, event: Event)
    requires Inv(w)
    ensures Inv(Step(w, event)) && Step(w, event).engines.Keys == w.engines.Keys
  {
    hide StepParent, StepChild, EngineInv;
    var q := event.pid;
    if q in w.engines {
      StepKeys(w, event);
      match event {
        case Parent(_, ok, reached) =>
          if w.engines[q].pc < Gate(w.engines[q].config) {
            OwnSetup(w, q, ok, reached);
          } else {
            OwnRest(w, q, ok, reached);
          }
        case Child(_, ok) =>
          OwnChild(w, q, ok);
      }
      forall p | p in w.engines && p != q
        ensures EngineInv(Step(w, event).fs, p, Step(w, event).engines[p])
      {
        StepOther(w, event, p);
      }
    }
  }

  lemma {:induction false} StepKeys(w: World, event: Event)
    requires event.pid in w.engines
    ensures Step(w, event).engines.Keys == w.engines.Keys
  {
    hide Setup, Program, Effect;
  }

  lemma {:induction false} RunInv(w: World, events: seq<Event>)
    requires Start(w)
    ensures Inv(Run(w, events)) && Run(w, events).engines.Keys == w.engines.Keys
  {
    if events == [] {
      hide Setup, Done;
    } else {
      hide Inv, Step;
      RunInv(w, Front(events));
      StepInv(Run(w, Front(events)), Last(events));
    }
  }

  /** Which files each subsystem's group has. */
  predicate Belongs(s: Subsystem, k: Knob) {
    match k
    case MemoryLimit => s == Memory
    case Tasks => true
    case ReadBps => s == Blkio
    case WriteBps => s == Blkio
    case _ => s == Cpu
  }

  /** Where in the setup a call stands. */
  lemma InConfig(s: Subsystem, k: Knob) returns (i: nat)
    requires Belongs(s, k)
    ensures i < 24 && ConfigCalls()[i] == Write(s, k)
  {
    i := match k
      case MemoryLimit => 2
      case CpuShares => 6
      case CpuPeriod => 10
      case CpuQuota => 14
      case ReadBps => 18
      case WriteBps => 22
      case Tasks => (match s case Memory => 3 case Cpu => 7 case Blkio => 19);
  }

  lemma {:induction false} SetupHas(c: Config)
    ensures Setup(c)[1] == Sys(WriteProc(UidMap)) && Setup(c)[2] == Sys(WriteProc(Setgroups))
    ensures Setup(c)[3] == Sys(WriteProc(GidMap))
    ensures c.netns ==> Setup(c)[4] == Netns
    ensures forall i :: 0 <= i < 24 ==> Setup(c)[Gate(c) - 24 + i] == Sys(ConfigCalls()[i])
  {
    hide ConfigCalls;
  }

  /** A file of a group by its full path. */
  function GroupPath(subsystem: string, p: nat, file: string): string {
    "/sys/fs/cgroup/" + subsystem + "/islander/group_" + Dec(p) + "/" + file
  }

  lemma {:induction false} GroupPathIs(s: Subsystem, p: nat, k: Knob)
    ensures GroupFile(s, p, k) == GroupPath(SubsystemName(s), p, KnobName(k))
  {
    hide SubsystemName, KnobName, Dec;
    var a := "/sys/fs/cgroup/" + SubsystemName(s);
    assert "/" + "islander" + "/" + "group_" == "/islander/group_";
    Assoc(a, "/", "islander");
    Assoc(a, "/" + "islander", "/");
    Assoc(a, "/" + "islander" + "/", "group_");
    Assoc(a + "/" + "islander" + "/", "group_", Dec(p));
  }

  predicate Holding(fs: Fs, path: string, text: string) {
    path in fs.files && fs.files[path] == text
  }

  /** What the parent's calls set up is complete: the child's user and group maps are
      written, and every limit and its pid are in its own groups. */
  ghost predicate ContainedIn(w: World, p: nat, c: Config) {
    var fs, l := w.fs, c.limits;
    && Holding(fs, "/proc/" + Dec(p) + "/uid_map", "0 1000 1\n")
    && Holding(fs, "/proc/" + Dec(p) + "/setgroups", "deny")
    && Holding(fs, "/proc/" + Dec(p) + "/gid_map", "0 1000 1\n")
    && Holding(fs, GroupPath("memory", p, "memory.limit_in_bytes"), l.memory)
    && Holding(fs, GroupPath("cpu", p, "cpu.shares"), l.cpuShares)
    && Holding(fs, GroupPath("cpu", p, "cpu.cfs_period_us"), l.cpuPeriod)
    && Holding(fs, GroupPath("cpu", p, "cpu.cfs_quota_us"), l.cpuQuota)
    && Holding(fs, GroupPath("blkio", p, "blkio.throttle.read_bps_device"), "8:0 " + l.readBps)
    && Holding(fs, GroupPath("blkio", p, "blkio.throttle.write_bps_device"), "8:0 " + l.writeBps)
    && Holding(fs, GroupPath("memory", p, "tasks"), Dec(p))
    && Holding(fs, GroupPath("cpu", p, "tasks"), Dec(p))
    && Holding(fs, GroupPath("blkio", p, "tasks"), Dec(p))
  }

  /** What the setup has written, call by call. */
  lemma SetupWritten(w: World, p: nat)
    requires p in w.engines && EngineInv(w.fs, p, w.engines[p])
    requires w.engines[p].pc > Gate(w.engines[p].config) && w.engines[p].child != Gone
    ensures var c := w.engines[p].config;
            && (forall f :: Holds(w.fs, p, c.limits, WriteProc(f)))
            && (forall s, k :: Belongs(s, k) ==> Holds(w.fs, p, c.limits, Write(s, k)))
  {
    hide Holds, Setup, Belongs, ConfigCalls;
    var c := w.engines[p].config;
    SetupShape(c);
    SetupHas(c);
    forall f ensures Holds(w.fs, p, c.limits, WriteProc(f)) {
      match f
      case UidMap => assert Done(w.fs, p, c.limits, Setup(c)[1]);
      case Setgroups => assert Done(w.fs, p, c.limits, Setup(c)[2]);
      case GidMap => assert Done(w.fs, p, c.limits, Setup(c)[3]);
    }
    forall s, k | Belongs(s, k) ensures Holds(w.fs, p, c.limits, Write(s, k)) {
      var i := InConfig(s, k);
      assert Done(w.fs, p, c.limits, Setup(c)[Gate(c) - 24 + i]);
    }
  }

  lemma WrittenAt(fs: Fs, p: nat, limits: Args.Limits, s: Subsystem, k: Knob)
    requires Holds(fs, p, limits, Write(s, k))
    ensures Holding(fs, GroupPath(SubsystemName(s), p, KnobName(k)), KnobText(p, limits, k))
  {
    hide GroupFile, GroupPath, KnobText, SubsystemName, KnobName;
    GroupPathIs(s, p, k);
  }

  lemma MappedAt(fs: Fs, p: nat, limits: Args.Limits)
    requires forall f :: Holds(fs, p, limits, WriteProc(f))
    ensures Holding(fs, "/proc/" + Dec(p) + "/uid_map", "0 1000 1\n")
    ensures Holding(fs, "/proc/" + Dec(p) + "/setgroups", "deny")
    ensures Holding(fs, "/proc/" + Dec(p) + "/gid_map", "0 1000 1\n")
  {
    hide Dec;
    assert Holds(fs, p, limits, WriteProc(UidMap));
    assert Holds(fs, p, limits, WriteProc(Setgroups));
    assert Holds(fs, p, limits, WriteProc(GidMap));
    var proc := "/proc/" + Dec(p);
    Assoc(proc, "/", "uid_map");
    Assoc(proc, "/", "setgroups");
    Assoc(proc, "/", "gid_map");
    assert "/" + "uid_map" == "/uid_map" && "/" + "setgroups" == "/setgroups" && "/" + "gid_map" == "/gid_map";
  }

  /** Launch gate: over every interleaving of any number of engines and every point at
      which parents may fail, a child that has got past the gate has its maps, its limits
      and its groups, now and for as long as it runs. Its network is another matter, see
      NetworkIff. */
  lemma {:induction false} RunningIsContained(w: World, events: seq<Event>, p: nat)
    requires Start(w) && p in w.engines && p in Run(w, events).engines
    requires Run(w, events).engines[p].child in {Released, Running}
    ensures ContainedIn(Run(w, events), p, Run(w, events).engines[p].config)
  {
    hide Run, Holds, Setup, Belongs, Holding, GroupPath, Dec;
    RunInv(w, events);
    var w' := Run(w, events);
    var l := w'.engines[p].config.limits;
    assert EngineInv(w'.fs, p, w'.engines[p]);
    SetupWritten(w', p);
    MappedAt(w'.fs, p, l);
    BelongsTable();
    WrittenAt(w'.fs, p, l, Memory, MemoryLimit);
    WrittenAt(w'.fs, p, l, Cpu, CpuShares);
    WrittenAt(w'.fs, p, l, Cpu, CpuPeriod);
    WrittenAt(w'.fs, p, l, Cpu, CpuQuota);
    WrittenAt(w'.fs, p, l, Blkio, ReadBps);
    WrittenAt(w'.fs, p, l, Blkio, WriteBps);
    WrittenAt(w'.fs, p, l, Memory, Tasks);
    WrittenAt(w'.fs, p, l, Cpu, Tasks);
    WrittenAt(w'.fs, p, l, Blkio, Tasks);
  }

  lemma BelongsTable()
    ensures Belongs(Memory, MemoryLimit) && Belongs(Cpu, CpuShares) && Belongs(Cpu, CpuPeriod)
    ensures Belongs(Cpu, CpuQuota) && Belongs(Blkio, ReadBps) && Belongs(Blkio, WriteBps)
    ensures forall s :: Belongs(s, Tasks)
  {
  }

  /** A parent that has ended stays where it was. */
  lemma {:induction false} DeadStays(w: World, events: seq<Event>, p: nat)
    requires p in w.engines && w.engines[p].dead
    ensures p in Run(w, events).engines
    ensures var e := Run(w, events).engines[p];
            e.dead && e.pc == w.engines[p].pc && e.config == w.engines[p].config
  {
    hide Setup, Program, Effect;
    if events != [] {
      DeadStays(w, Front(events), p);
    }
  }

  lemma {:induction false} RunSplit(w: World, events: seq<Event>, more: seq<Event>)
    ensures Run(w, events + more) == Run(Run(w, events), more)
  {
    hide Step;
    if more == [] {
      assert events + more == events;
    } else {
      RunSplit(w, events, Front(more));
      assert Front(events + more) == events + Front(more) && Last(events + more) == Last(more);
    }
  }

  /** If the parent ends before it has sent its message, the child never runs the command,
      whatever happens afterwards. */
  lemma {:induction false} DeadParentNoCommand(w: World, events: seq<Event>, more: seq<Event>, p: nat)
    requires Start(w) && p in w.engines && p in Run(w, events).engines
    requires var e := Run(w, events).engines[p]; e.dead && e.pc <= Gate(e.config)
    ensures var w' := Run(w, events + more); p in w'.engines && !w'.engines[p].executed
  {
    hide Run, Setup, Done;
    RunSplit(w, events, more);
    DeadStays(Run(w, events), more, p);
    RunInv(w, events + more);
    var w' := Run(w, events + more);
    assert EngineInv(w'.fs, p, w'.engines[p]);
  }

  /** A command that was ever run was let through the gate; and in any run the step that
      takes one of an engine's groups away is made when its child has already ended. */
  lemma {:induction false} Order(w: World, events: seq<Event>, p: nat, event: Event, s: Subsystem)
    requires Start(w) && p in w.engines
    ensures var w' := Run(w, events);
            && p in w'.engines
            && (w'.engines[p].executed ==> w'.engines[p].pc > Gate(w'.engines[p].config))
            && (GroupDir(s, p) in w'.fs.dirs && GroupDir(s, p) !in Step(w', event).fs.dirs ==>
                  w'.engines[p].child == Gone && event.pid == p)
  {
    hide Run, Program, Effect, Step, Done, Gate, GroupDir, SharedDir, GroupFile, ProcPath;
    RunInv(w, events);
    var w' := Run(w, events);
    var e := w'.engines[p];
    assert EngineInv(w'.fs, p, e);
    StepFs(w', event);
    if event.pid != p {
      StepOther(w', event, p);
    } else if Step(w', event).fs != w'.fs {
      var call :| Takes(w', event, Sys(call)) && Step(w', event).fs == Effect(w'.fs, p, e.config.limits, call);
      if call.RmGroup? {
        RemovalPlace(e.config, e.pc, call.s);
      } else {
        DirsStay(w'.fs, p, e.config.limits, call);
      }
    }
  }

  lemma {:induction false} DirsStay(fs: Fs, p: nat, limits: Args.Limits, call: Call)
    requires !call.RmGroup?
    ensures fs.dirs <= Effect(fs, p, limits, call).dirs
  {
  }

  /** Where the program removes which group. */
  function Removal(c: Config, s: Subsystem): nat {
    Gate(c) + match s case Memory => 5 case Cpu => 6 case Blkio => 7
  }

  lemma {:induction false} RemovalPlace(c: Config, i: nat, s: Subsystem)
    requires i < |Program(c)|
    ensures Program(c)[i] == Sys(RmGroup(s)) <==> i == Removal(c, s)
  {
    hide Program, Setup;
    SetupShape(c);
    ProgramShape(c);
    if i < Gate(c) {
      assert Program(c)[i] == Setup(c)[i];
    } else {
      assert i == Gate(c) || i == Gate(c) + 1 || i == Gate(c) + 2 || i == Gate(c) + 3 || i == Gate(c) + 4
             || i == Gate(c) + 5 || i == Gate(c) + 6 || i == Gate(c) + 7;
    }
  }

  /** The group is not there, and neither is any of its files. */
  ghost predicate NoGroup(fs: Fs, p: nat, s: Subsystem) {
    GroupDir(s, p) !in fs.dirs && forall k :: GroupFile(s, p, k) !in fs.files
  }

  ghost predicate SameGroup(fs: Fs, fs': Fs, p: nat, s: Subsystem) {
    && (GroupDir(s, p) in fs.dirs <==> GroupDir(s, p) in fs'.dirs)
    && (NoGroup(fs, p, s) <==> NoGroup(fs', p, s))
  }

  /** In turn i the kernel refused to remove this group. */
  ghost predicate RefusedAt(w: World, events: seq<Event>, i: nat, p: nat, s: Subsystem) {
    && i < |events| && events[i].pid == p && !events[i].ok
    && Takes(Run(w, events[..i]), events[i], Sys(RmGroup(s)))
  }

  lemma {:induction false} OtherRemoval(fs: Fs, p: nat, limits: Args.Limits, s: Subsystem, other: Subsystem)
    ensures other != s ==> SameGroup(fs, Effect(fs, p, limits, RmGroup(other)), p, s)
    ensures NoGroup(Effect(fs, p, limits, RmGroup(s)), p, s)
  {
    hide GroupDir, GroupFile, Under;
    DirsApart(s, p, other, p);
    forall k ensures Under(GroupDir(other, p), GroupFile(s, p, k)) <==> s == other {
      FilesApart(other, p, k, s, p, k);
    }
    forall k ensures Under(GroupDir(s, p), GroupFile(s, p, k)) {
      FilesApart(s, p, k, s, p, k);
    }
  }

  lemma {:induction false} ActionsBehindGate(c: Config, i: nat)
    requires Gate(c) <= i < |Program(c)| && Program(c)[i].Sys?
    ensures Program(c)[i].call.RmGroup?
  {
    hide Program, Setup;
    ProgramShape(c);
    assert i == Gate(c) || i == Gate(c) + 1 || i == Gate(c) + 2 || i == Gate(c) + 3 || i == Gate(c) + 4
           || i == Gate(c) + 5 || i == Gate(c) + 6 || i == Gate(c) + 7;
  }

  /** One step from the gate on, as one group of the engine sees it. */
  lemma {:induction false} GroupStep(w: World, event: Event, p: nat, s: Subsystem)
    requires p in w.engines && w.engines[p].pc >= Gate(w.engines[p].config)
    ensures p in Step(w, event).engines
    ensures var w', e := Step(w, event), w.engines[p];
            var e' := w'.engines[p];
            && e'.config == e.config && e.pc <= e'.pc <= e.pc + 1
            && (e.pc == Removal(e.config, s) < e'.pc <==>
                  event.pid == p && Takes(w, event, Sys(RmGroup(s))))
            && (if e.pc == Removal(e.config, s) < e'.pc && event.ok then NoGroup(w'.fs, p, s)
                else SameGroup(w.fs, w'.fs, p, s))
  {
    hide Effect, Gate, Removal, NoGroup, GroupDir, GroupFile, SharedDir, ProcPath, Program;
    var w', e := Step(w, event), w.engines[p];
    StepFs(w, event);
    StepPc(w, event, p);
    SameMeansGroup(w.fs, w'.fs, p, s);
    if e.pc < |Program(e.config)| {
      RemovalPlace(e.config, e.pc, s);
    }
    if event.pid != p {
      StepOther(w, event, p);
    } else if call :| Takes(w, event, Sys(call)) && event.ok {
      ActionsBehindGate(e.config, e.pc);
      OtherRemoval(w.fs, p, e.config.limits, s, call.s);
    }
  }

  lemma SameMeansGroup(fs: Fs, fs': Fs, p: nat, s: Subsystem)
    ensures SameFor(p, fs, fs') ==> SameGroup(fs, fs', p, s)
    ensures SameGroup(fs, fs, p, s)
  {
    hide GroupDir, GroupFile, SharedDir, ProcPath;
    if SameFor(p, fs, fs') {
      forall k ensures GroupFile(s, p, k) in fs.files <==> GroupFile(s, p, k) in fs'.files {
        assert SameFile(fs, fs', GroupFile(s, p, k));
      }
    }
  }

  /** Where in the setup a group's directory is made. */
  lemma GroupMade(c: Config, s: Subsystem) returns (i: nat)
    ensures i < Gate(c) == |Setup(c)| && Setup(c)[i] == Sys(MkGroup(s))
  {
    hide Setup, ConfigCalls;
    SetupShape(c);
    SetupHas(c);
    GroupCalls();
    var k := match s case Memory => 1 case Cpu => 5 case Blkio => 17;
    assert Setup(c)[Gate(c) - 24 + k] == Sys(ConfigCalls()[k]);
    i := Gate(c) - 24 + k;
  }

  lemma GroupCalls()
    ensures ConfigCalls()[1] == MkGroup(Memory) && ConfigCalls()[5] == MkGroup(Cpu)
    ensures ConfigCalls()[17] == MkGroup(Blkio)
  {
  }

  lemma {:induction false} StepPc(w: World, event: Event, p: nat)
    requires p in w.engines
    ensures p in Step(w, event).engines
    ensures var e, e' := w.engines[p], Step(w, event).engines[p];
            e'.config == e.config && e.pc <= e'.pc <= e.pc + 1 && (e.dead ==> e'.dead && e'.pc == e.pc)
  {
    hide Program, Effect;
  }

  lemma {:induction false} RefusedSplit(w: World, events: seq<Event>, p: nat, s: Subsystem)
    requires events != []
    ensures var last: nat := |events| - 1;
            (exists i: nat :: RefusedAt(w, events, i, p, s))
            <==> (exists i: nat :: RefusedAt(w, Front(events), i, p, s)) || RefusedAt(w, events, last, p, s)
  {
    hide Takes, Run;
    forall i: nat | i < |events| - 1 ensures RefusedAt(w, events, i, p, s) == RefusedAt(w, Front(events), i, p, s) {
      assert Front(events)[..i] == events[..i];
    }
  }

  /** What has become of one of an engine's groups, given whether the kernel refused to
      remove it: there up to its removal, and gone with its files behind it if not refused. */
  ghost predicate GroupState(fs: Fs, p: nat, e: Engine, s: Subsystem, refused: bool) {
    if e.pc <= Removal(e.config, s) then !refused && (Gate(e.config) <= e.pc ==> GroupDir(s, p) in fs.dirs)
    else if refused then GroupDir(s, p) in fs.dirs
    else NoGroup(fs, p, s)
  }

  lemma {:induction false} GroupNext(fs: Fs, fs': Fs, p: nat, e: Engine, e': Engine, s: Subsystem,
                                     before: bool, now: bool, ok: bool)
    requires GroupState(fs, p, e, s, before) && e.pc >= Gate(e.config)
    requires e'.config == e.config && e.pc <= e'.pc <= e.pc + 1
    requires now <==> e.pc == Removal(e.config, s) < e'.pc && !ok
    requires if e.pc == Removal(e.config, s) < e'.pc && ok then NoGroup(fs', p, s) else SameGroup(fs, fs', p, s)
    ensures GroupState(fs', p, e', s, before || now)
  {
    hide Gate, NoGroup, GroupDir;
  }

  /** Cleaning up, in any run with any other engines: up to its removal a group of an
      engine that has got to its gate is there; behind it the group is gone with all its
      files, or still there, exactly as the kernel agreed or refused to remove it. */
  lemma {:induction false} Cleanup(w: World, events: seq<Event>, p: nat, s: Subsystem)
    requires Start(w) && p in w.engines
    ensures p in Run(w, events).engines
    ensures GroupState(Run(w, events).fs, p, Run(w, events).engines[p], s,
                       exists i: nat :: RefusedAt(w, events, i, p, s))
  {
    hide Gate, NoGroup, GroupDir, Step, Takes, Setup, Holds;
    RunInv(w, events);
    var w' := Run(w, events);
    var e' := w'.engines[p];
    if e'.pc == Gate(e'.config) {
      var i := GroupMade(e'.config, s);
      assert EngineInv(w'.fs, p, e');
      assert Done(w'.fs, p, e'.config.limits, Setup(e'.config)[i]);
      MadeIs(w'.fs, p, e'.config.limits, s);
    }
    if events != [] {
      var w0, last := Run(w, Front(events)), Last(events);
      RunInv(w, Front(events));
      Cleanup(w, Front(events), p, s);
      RefusedSplit(w, events, p, s);
      assert events[..|events| - 1] == Front(events);
      StepPc(w0, last, p);
      if w0.engines[p].pc >= Gate(w0.engines[p].config) {
        GroupStep(w0, last, p, s);
        var k: nat := |events| - 1;
        var before := exists i: nat :: RefusedAt(w, Front(events), i, p, s);
        var now := RefusedAt(w, events, k, p, s);
        GroupNext(w0.fs, w'.fs, p, w0.engines[p], e', s, before, now, last.ok);
      } else if last.pid == p && Takes(w0, last, Sys(RmGroup(s))) {
        RemovalOnly(w0, last, p, s);
      }
    }
  }

  lemma MadeIs(fs: Fs, p: nat, limits: Args.Limits, s: Subsystem)
    ensures Holds(fs, p, limits, MkGroup(s)) <==> GroupDir(s, p) in fs.dirs
  {
  }

  lemma {:induction false} RemovalOnly(w: World, event: Event, p: nat, s: Subsystem)
    requires p in w.engines && event.pid == p && Takes(w, event, Sys(RmGroup(s)))
    ensures w.engines[p].pc == Removal(w.engines[p].config, s)
  {
    hide Program;
    RemovalPlace(w.engines[p].config, w.engines[p].pc, s);
  }

  /** In turn i p's child, let through before, gets to its command. */
  ghost predicate ExecutedAt(w: World, events: seq<Event>, i: nat, p: nat) {
    && i < |events| && events[i] == Child(p, true)
    && p in Run(w, events[..i]).engines && Run(w, events[..i]).engines[p].child == Released
  }

  lemma {:induction false} ExecutedSplit(w: World, events: seq<Event>, p: nat)
    requires events != [] && p in Run(w, Front(events)).engines
    ensures (exists i: nat :: ExecutedAt(w, events, i, p)) <==>
            || (exists i: nat :: ExecutedAt(w, Front(events), i, p))
            || (Last(events) == Child(p, true) && Run(w, Front(events)).engines[p].child == Released)
  {
    hide Run;
    var last: nat := |events| - 1;
    assert events[..last] == Front(events);
    forall i: nat | i < last ensures ExecutedAt(w, events, i, p) == ExecutedAt(w, Front(events), i, p) {
      assert Front(events)[..i] == events[..i];
    }
    assert ExecutedAt(w, events, last, p) <==>
           Last(events) == Child(p, true) && Run(w, Front(events)).engines[p].child == Released;
  }

  lemma {:induction false} ExecutedStep(w: World, event: Event, p: nat)
    requires p in w.engines
    ensures p in Step(w, event).engines
    ensures var e, e' := w.engines[p], Step(w, event).engines[p];
            && (e'.executed <==> e.executed || (event == Child(p, true) && e.child == Released))
            && (e'.child == Running ==> e.child == Running || (event == Child(p, true) && e.child == Released))
            && (event == Child(p, true) && e.child == Released ==> e'.child == Running)
  {
    hide Program, Effect;
  }

  /** What having run the command means: in some turn of the run the child, let through
      before, got to it. A child that is running its command has. */
  lemma {:induction false} ExecutedIff(w: World, events: seq<Event>, p: nat)
    requires Start(w) && p in w.engines
    ensures p in Run(w, events).engines
    ensures Run(w, events).engines[p].executed <==> exists i: nat :: ExecutedAt(w, events, i, p)
    ensures Run(w, events).engines[p].child == Running ==> Run(w, events).engines[p].executed
  {
    hide Step;
    if events != [] {
      hide ExecutedAt;
      ExecutedIff(w, Front(events), p);
      ExecutedSplit(w, events, p);
      ExecutedStep(Run(w, Front(events)), Last(events), p);
    }
  }

  /** The first n elements, or all of them. */
  ghost predicate FirstOf<T>(part: seq<T>, all: seq<T>, n: nat) {
    part <= all && (|part| == n || (|part| < n && part == all))
  }

  /** A step that fails ends the parent, unless it is the removal of a group. Some of its
      work may be done: one byte of the message, or as many mounts or unmounts. A child that finds half a
      message ends, and as long as it finds nothing it waits. */
  lemma {:induction false} FailureEnds(w: World, p: nat, action: Action, reached: nat)
    requires p in w.engines
    ensures var w' := Step(w, Parent(p, false, reached));
            && p in w'.engines
            && (Takes(w, Parent(p, false, reached), action) ==>
                  && (w'.engines[p].dead <==> !(action.Sys? && action.call.RmGroup?)) && w'.fs == w.fs
                  && w'.engines[p].pipe == w.engines[p].pipe + (if action.SendOk? && reached % 2 == 1 then "O" else "")
                  && (action.Features? ==>
                        FirstOf(w'.engines[p].mounted, Ledger.Mounts(w.engines[p].config), reached))
                  && (action.Release? ==>
                        FirstOf(w'.engines[p].unmounted, Ledger.Unmounts(w.engines[p].config), reached)))
    ensures w.engines[p].child == Waiting && |w.engines[p].pipe| == 1 ==>
              Step(w, Child(p, true)).engines[p].child == Gone
    ensures w.engines[p].child == Waiting && w.engines[p].pipe == "" ==>
              Step(w, Child(p, true)) == w
  {
    hide Program, Effect, Ledger.Mounts, Ledger.Unmounts;
  }

  lemma {:induction false} ParentStep(w: World, p: nat)
    requires p in w.engines && !w.engines[p].dead && w.engines[p].pc < |Program(w.engines[p].config)|
    requires Program(w.engines[p].config)[w.engines[p].pc] == AwaitChild ==> w.engines[p].child == Gone
    ensures var e := w.engines[p];
            Step(w, Parent(p, true, 0)).engines == w.engines[p := Advance(e, Program(e.config)[e.pc])]
  {
    hide Program, Effect, Advance;
  }

  lemma {:induction false} RunOne(w: World, event: Event, more: seq<Event>)
    ensures Run(w, [event] + more) == Run(Step(w, event), more)
  {
    hide Step;
    RunSplit(w, [event], more);
    assert Front([event]) == [];
  }

  /** No engine gets stuck: as long as its parent has not ended, steps of its own that do
      not depend on any other engine take it to the end of its program. */
  lemma {:induction false} CanFinish(w: World, p: nat) returns (more: seq<Event>)
    requires p in w.engines && !w.engines[p].dead && w.engines[p].pc <= |Program(w.engines[p].config)|
    ensures forall i :: 0 <= i < |more| ==> more[i].pid == p
    ensures var w' := Run(w, more);
            p in w'.engines && !w'.engines[p].dead && w'.engines[p].pc == |Program(w.engines[p].config)|
    decreases |Program(w.engines[p].config)| - w.engines[p].pc, if w.engines[p].child == Gone then 0 else 1
  {
    hide Program, Step, Advance;
    var e := w.engines[p];
    if e.pc == |Program(e.config)| {
      more := [];
    } else {
      var event :=
        if Program(e.config)[e.pc] == AwaitChild && e.child != Gone then Child(p, false) else Parent(p, true, 0);
      if event.Parent? {
        ParentStep(w, p);
        AdvanceMoves(e, Program(e.config)[e.pc]);
      } else {
        ChildEnds(w, p);
      }
      var rest := CanFinish(Step(w, event), p);
      RunOne(w, event, rest);
      more := [event] + rest;
    }
  }

  lemma AdvanceMoves(e: Engine, action: Action)
    ensures var e' := Advance(e, action); e'.config == e.config && e'.pc == e.pc + 1 && e'.dead == e.dead
  {
    hide Ledger.Mounts, Ledger.Unmounts;
  }

  lemma ChildEnds(w: World, p: nat)
    requires p in w.engines
    ensures Step(w, Child(p, false)).engines == w.engines[p := w.engines[p].(child := Gone)]
  {
  }

  lemma {:induction false} SameTrans(p: nat, a: Fs, b: Fs, c: Fs)
    requires SameFor(p, a, b) && SameFor(p, b, c)
    ensures SameFor(p, a, c)
  {
    hide SharedDir, GroupDir, GroupFile, ProcPath;
    forall s, k ensures SameFile(a, c, GroupFile(s, p, k)) {
      assert SameFile(a, b, GroupFile(s, p, k)) && SameFile(b, c, GroupFile(s, p, k));
    }
    forall f ensures SameFile(a, c, ProcPath(p, f)) {
      assert SameFile(a, b, ProcPath(p, f)) && SameFile(b, c, ProcPath(p, f));
    }
  }

  /** Engines do not meet: while one engine does nothing, no run of all the others, from
      any reachable state, changes its groups, its limits, its tasks or its maps. */
  lemma {:induction false} Isolation(w: World, events: seq<Event>, more: seq<Event>, p: nat)
    requires Start(w) && p in w.engines && forall i :: 0 <= i < |more| ==> more[i].pid != p
    ensures var w0, w1 := Run(w, events), Run(w, events + more);
            && p in w0.engines && p in w1.engines && w0.engines[p] == w1.engines[p]
            && SameFor(p, w0.fs, w1.fs)
    decreases |more|
  {
    hide Step, SameFor;
    RunInv(w, events);
    if more == [] {
      assert events + more == events;
      SameSelf(p, Run(w, events).fs);
    } else {
      Isolation(w, events, Front(more), p);
      assert Front(events + more) == events + Front(more) && Last(events + more) == Last(more);
      RunInv(w, events + Front(more));
      assert more[|more| - 1].pid != p;
      StepOther(Run(w, events + Front(more)), Last(more), p);
      SameTrans(p, Run(w, events).fs, Run(w, events + Front(more)).fs, Run(w, events + more).fs);
    }
  }

  // ---- the one interface of the host

  /** In turn i some engine takes the host's interface away from whoever has it. */
  ghost predicate TakenAt(w: World, events: seq<Event>, i: nat) {
    i < |events| && Seizes(Run(w, events[..i]), events[i])
  }

  /** A network set up, or given up only behind the deletion of the old interface. */
  predicate Seizes(w: World, event: Event) {
    Takes(w, event, Netns) && (event.ok || event.reached > 0)
  }

  /** In turn i the network of p's child is set up. */
  ghost predicate WiredAt(w: World, events: seq<Event>, i: nat, p: nat) {
    TakenAt(w, events, i) && events[i].pid == p && events[i].ok
  }

  lemma {:induction false} StepVeth(w: World, event: Event)
    ensures Step(w, event).veth ==
            if Seizes(w, event) then (if event.ok then Some(event.pid) else None) else w.veth
  {
    hide Program, Effect;
  }

  /** The network is the fifth thing a parent sees to, if it is asked for. */
  lemma {:induction false} NetnsPlace(c: Config, i: nat)
    requires i < |Program(c)|
    ensures Program(c)[i] == Netns <==> c.netns && i == 4
  {
    hide ConfigCalls;
  }

  lemma {:induction false} NetnsStep(w: World, event: Event, p: nat)
    requires p in w.engines
    ensures p in Step(w, event).engines
    ensures var e, e' := w.engines[p], Step(w, event).engines[p];
            && (Seizes(w, event) && event.pid == p ==>
                  e.config.netns && e.pc == 4 && !e.dead && (if event.ok then e'.pc == 5 else e'.dead))
            && (e.config.netns && e.pc <= 4 < e'.pc ==> Seizes(w, event) && event.pid == p && event.ok)
  {
    hide Program, Effect;
    var e := w.engines[p];
    if e.pc < |Program(e.config)| {
      NetnsPlace(e.config, e.pc);
    }
  }

  lemma {:induction false} TakenBefore(w: World, events: seq<Event>, i: nat, p: nat)
    requires events != [] && i < |events| - 1
    ensures TakenAt(w, events, i) <==> TakenAt(w, Front(events), i)
    ensures WiredAt(w, events, i, p) <==> WiredAt(w, Front(events), i, p)
  {
    hide Seizes, Run;
    assert Front(events)[..i] == events[..i];
  }

  lemma {:induction false} TakenLast(w: World, events: seq<Event>)
    requires events != []
    ensures var last: nat := |events| - 1;
            TakenAt(w, events, last) <==> Seizes(Run(w, Front(events)), Last(events))
  {
    hide Seizes, Run;
    assert events[..|events| - 1] == Front(events);
  }

  /** The engine has set up its network, or failed to, and does so once at most. */
  ghost predicate OnceOnly(w: World, events: seq<Event>, p: nat, e: Engine) {
    && (forall i: nat :: TakenAt(w, events, i) && events[i].pid == p ==> e.config.netns && (e.pc > 4 || e.dead))
    && (forall i: nat, j: nat ::
          TakenAt(w, events, i) && TakenAt(w, events, j) && events[i].pid == events[j].pid == p ==> i == j)
    && (e.config.netns && e.pc > 4 ==> exists i: nat :: WiredAt(w, events, i, p))
  }

  lemma {:induction false} TakenOnce(w: World, events: seq<Event>, p: nat)
    requires Start(w) && p in w.engines
    ensures p in Run(w, events).engines
    ensures OnceOnly(w, events, p, Run(w, events).engines[p])
  {
    hide Step, Seizes, TakenAt, WiredAt;
    if events == [] {
      assert forall i: nat :: !TakenAt(w, events, i) by { NothingTaken(w); }
    } else {
      var init, n: nat := Front(events), |events| - 1;
      TakenOnce(w, init, p);
      var w0 := Run(w, init);
      StepPc(w0, Last(events), p);
      NetnsStep(w0, Last(events), p);
      TakenLast(w, events);
      WiredLast(w, events, p);
      forall i: nat | i < n
        ensures TakenAt(w, events, i) == TakenAt(w, init, i) && WiredAt(w, events, i, p) == WiredAt(w, init, i, p)
      {
        TakenBefore(w, events, i, p);
      }
      forall i: nat | TakenAt(w, events, i) ensures i <= n { InRange(w, events, i); }
      if w0.engines[p].config.netns && w0.engines[p].pc > 4 {
        var i: nat :| WiredAt(w, init, i, p);
        InRange(w, init, i);
        assert WiredAt(w, events, i, p);
      }
    }
  }

  lemma NothingTaken(w: World)
    ensures forall i: nat :: !TakenAt(w, [], i)
  {
  }

  lemma {:induction false} InRange(w: World, events: seq<Event>, i: nat)
    ensures TakenAt(w, events, i) ==> i < |events|
    ensures forall p :: WiredAt(w, events, i, p) ==> i < |events|
  {
  }

  lemma {:induction false} WiredLast(w: World, events: seq<Event>, p: nat)
    requires events != []
    ensures var last: nat := |events| - 1;
            WiredAt(w, events, last, p)
            <==> Seizes(Run(w, Front(events)), Last(events)) && Last(events).pid == p && Last(events).ok
  {
    hide Seizes, Run;
    assert events[..|events| - 1] == Front(events);
  }

  /** The interface leads to p's child when the last that took it was p, successfully. */
  ghost predicate WiredLastly(w: World, events: seq<Event>, p: nat) {
    exists i: nat :: WiredAt(w, events, i, p) && forall j: nat :: TakenAt(w, events, j) ==> j <= i
  }

  lemma {:induction false} VethIs(w: World, events: seq<Event>, p: nat)
    requires Start(w) && p in w.engines
    ensures Run(w, events).veth == Some(p) <==> WiredLastly(w, events, p)
  {
    hide Step, Seizes, TakenAt, WiredAt;
    if events == [] {
      forall i: nat ensures !WiredAt(w, events, i, p) { InRange(w, events, i); }
    } else {
      var init, n: nat := Front(events), |events| - 1;
      VethIs(w, init, p);
      StepVeth(Run(w, init), Last(events));
      TakenLast(w, events);
      WiredLast(w, events, p);
      forall i: nat | i < n
        ensures TakenAt(w, events, i) == TakenAt(w, init, i) && WiredAt(w, events, i, p) == WiredAt(w, init, i, p)
      {
        TakenBefore(w, events, i, p);
      }
      forall i: nat ensures TakenAt(w, events, i) ==> i <= n { InRange(w, events, i); }
      forall i: nat ensures (TakenAt(w, init, i) ==> i < n) && (WiredAt(w, init, i, p) ==> i < n) {
        InRange(w, init, i);
      }
      forall i: nat ensures WiredAt(w, events, i, p) ==> i <= n { InRange(w, events, i); }
      if TakenAt(w, events, n) {
        assert Run(w, events).veth == Some(p) <==> WiredAt(w, events, n, p);
      } else {
        if i: nat :| WiredAt(w, init, i, p) && forall j: nat :: TakenAt(w, init, j) ==> j <= i {
          assert WiredAt(w, events, i, p);
        }
        if i: nat :| WiredAt(w, events, i, p) && forall j: nat :: TakenAt(w, events, j) ==> j <= i {
          assert i < n && WiredAt(w, init, i, p);
        }
      }
    }
  }

  predicate PastGate(w: World, p: nat) {
    p in w.engines && w.engines[p].child in {Released, Running}
  }

  /** The network of a child past the gate: it was set up once; and the host's interface
      still leads to this child if and only if no other engine has taken it since. */
  lemma {:induction false} NetworkIff(w: World, events: seq<Event>, p: nat)
    requires Start(w) && p in w.engines && PastGate(Run(w, events), p) && Run(w, events).engines[p].config.netns
    ensures exists i: nat :: WiredAt(w, events, i, p)
    ensures Run(w, events).veth == Some(p) <==>
            forall i: nat, j: nat ::
              WiredAt(w, events, i, p) && TakenAt(w, events, j) && events[j].pid != p ==> j < i
  {
    hide Run, Seizes, TakenAt, Setup, Done;
    RunInv(w, events);
    var w' := Run(w, events);
    assert EngineInv(w'.fs, p, w'.engines[p]);
    SetupShape(w'.engines[p].config);
    TakenOnce(w, events, p);
    VethIs(w, events, p);
    forall i: nat ensures TakenAt(w, events, i) ==> i < |events| { InRange(w, events, i); }
    var i: nat :| WiredAt(w, events, i, p);
    assert WiredLastly(w, events, p) <==> forall j: nat :: TakenAt(w, events, j) ==> j <= i;
  }

  /** n successful steps of a parent. */
  function Steps(p: nat, n: nat): seq<Event> {
    if n == 0 then [] else Steps(p, n - 1) + [Parent(p, true, 0)]
  }

  lemma {:induction false} SetupStep(w: World, p: nat)
    requires p in w.engines && !w.engines[p].dead && w.engines[p].pc < Gate(w.engines[p].config)
    ensures var e := w.engines[p]; Step(w, Parent(p, true, 0)).engines == w.engines[p := e.(pc := e.pc + 1)]
  {
    hide Setup, Program, Effect;
    var c := w.engines[p].config;
    SetupShape(c);
    ProgramShape(c);
  }

  /** A parent that is still setting up gets on as long as nothing fails. */
  lemma {:induction false} StepsRun(w: World, p: nat, n: nat)
    requires p in w.engines && !w.engines[p].dead && w.engines[p].pc + n <= Gate(w.engines[p].config)
    ensures var e := w.engines[p]; Run(w, Steps(p, n)).engines == w.engines[p := e.(pc := e.pc + n)]
  {
    hide Step, Gate;
    if n > 0 {
      StepsRun(w, p, n - 1);
      SetupStep(Run(w, Steps(p, n - 1)), p);
      assert Front(Steps(p, n)) == Steps(p, n - 1);
    }
  }

  /** p gets its child to run the command, and then q sets up its network. */
  function LosingRun(w: World, p: nat, q: nat): seq<Event>
    requires p in w.engines
  {
    Steps(p, Gate(w.engines[p].config)) + [Parent(p, true, 0), Child(p, true), Child(p, true)] + Steps(q, 5)
  }

  lemma {:induction false} RunThree(w: World, p: nat)
    requires p in w.engines && !w.engines[p].dead && w.engines[p].pc == Gate(w.engines[p].config)
    requires w.engines[p].child == Waiting && w.engines[p].pipe == ""
    ensures var e, es := w.engines[p], [Parent(p, true, 0), Child(p, true), Child(p, true)];
            Run(w, es).engines == w.engines[p := e.(pc := e.pc + 1, child := Running, executed := true)]
  {
    hide Setup, Program, Effect;
    var e := w.engines[p];
    ProgramShape(e.config);
    var a, b, c := Parent(p, true, 0), Child(p, true), Child(p, true);
    var w1 := Step(w, a);
    var w2 := Step(w1, b);
    ThreeOf(w, a, b, c);
    assert Run(w, [a, b, c]) == Step(w2, c);
  }

  lemma {:induction false} ThreeOf(w: World, a: Event, b: Event, c: Event)
    ensures Run(w, [a, b, c]) == Step(Step(Step(w, a), b), c)
  {
    hide Step;
    assert Front([a]) == [] && Front([a, b]) == [a] && Front([a, b, c]) == [a, b];
    assert Run(w, [a]) == Step(w, a);
    assert Run(w, [a, b]) == Step(Step(w, a), b);
  }

  /** Two engines, of which the second asks for a network: in this run the first one's
      child is running its command while the interface leads to the second one's child. */
  lemma {:induction false} NetworkLost(w: World, p: nat, q: nat)
    requires Start(w) && p in w.engines && q in w.engines && p != q && w.engines[q].config.netns
    ensures var w' := Run(w, LosingRun(w, p, q));
            && p in w'.engines && w'.engines[p].child == Running && w'.engines[p].executed
            && w'.veth == Some(q)
  {
    hide Run, Setup, Program, Effect, Steps;
    var three := [Parent(p, true, 0), Child(p, true), Child(p, true)];
    var front := Steps(p, Gate(w.engines[p].config));
    var w1 := Run(w, front);
    StepsRun(w, p, Gate(w.engines[p].config));
    RunThree(w1, p);
    RunSplit(w, front, three);
    var w2 := Run(w1, three);
    RunSplit(w, front + three, Steps(q, 5));
    SetupShape(w.engines[q].config);
    StepsRun(w2, q, 5);
    StepsRun(w2, q, 4);
    LastOfSteps(w2, q, 4);
    StepVeth(Run(w2, Steps(q, 4)), Parent(q, true, 0));
    NetnsPlace(w.engines[q].config, 4);
    ProgramShape(w.engines[q].config);
  }

  lemma LastOfSteps(w: World, q: nat, n: nat)
    ensures Run(w, Steps(q, n + 1)) == Step(Run(w, Steps(q, n)), Parent(q, true, 0))
  {
    hide Step;
    assert Front(Steps(q, n + 1)) == Steps(q, n);
  }

  lemma {:induction false} ConfigStays(w: World, events: seq<Event>, p: nat)
    requires p in w.engines
    ensures p in Run(w, events).engines && Run(w, events).engines[p].config == w.engines[p].config
  {
    hide Step;
    if events != [] {
      ConfigStays(w, Front(events), p);
      StepPc(Run(w, Front(events)), Last(events), p);
    }
  }

  /** An engine can count on its child's network, in every run and for as long as the child
      is there, if and only if it is the only one that asks for a network. */
  lemma {:induction false} NetworkKeptIff(w: World, p: nat)
    requires Start(w) && p in w.engines && w.engines[p].config.netns
    ensures (forall es: seq<Event> :: PastGate(Run(w, es), p) ==> Run(w, es).veth == Some(p))
       <==> (forall q :: q in w.engines && q != p ==> !w.engines[q].config.netns)
  {
    hide Run, TakenAt;
    if q :| q in w.engines && q != p && w.engines[q].config.netns {
      NetworkLost(w, p, q);
      var es := LosingRun(w, p, q);
      assert PastGate(Run(w, es), p) && Run(w, es).veth != Some(p);
    } else {
      forall es: seq<Event> | PastGate(Run(w, es), p) ensures Run(w, es).veth == Some(p) {
        ConfigStays(w, es, p);
        NetworkIff(w, es, p);
        forall j: nat | TakenAt(w, es, j) ensures j < |es| && es[j].pid == p {
          InRange(w, es, j);
          OnlyAsked(w, es, j);
        }
      }
    }
  }

  lemma {:induction false} OnlyAsked(w: World, events: seq<Event>, j: nat)
    requires Start(w) && TakenAt(w, events, j)
    ensures var q := events[j].pid; q in w.engines && w.engines[q].config.netns
  {
    hide Run, Program;
    var q, w' := events[j].pid, Run(w, events[..j]);
    RunInv(w, events[..j]);
    ConfigStays(w, events[..j], q);
    NetnsPlace(w'.engines[q].config, w'.engines[q].pc);
  }

  // ---- mounts and unmounts

  /** How far an engine has got with its mounts and unmounts. */
  ghost predicate MountInv(e: Engine) {
    var g, ms, us := Gate(e.config), Ledger.Mounts(e.config), Ledger.Unmounts(e.config);
    && (e.pc <= g + 2 ==> if e.dead then e.mounted <= ms else e.mounted == [])
    && (e.pc < g + 2 ==> e.mounted == [])
    && (e.pc > g + 2 ==> e.mounted == ms)
    && (e.pc <= g + 3 ==> e.unmounted == [])
    && (e.pc == g + 4 ==> if e.dead then e.unmounted <= us else e.unmounted == [])
    && (e.pc > g + 4 ==> e.unmounted == us)
  }

  /** One step, as the engine's own variables see it. */
  lemma {:induction false} EngineStep(w: World, event: Event, p: nat)
    requires p in w.engines
    ensures p in Step(w, event).engines
    ensures var e, e' := w.engines[p], Step(w, event).engines[p];
            || e' == e.(child := e'.child, pipe := e'.pipe, executed := e'.executed)
            || (event.Parent? && !e.dead && e.pc < |Program(e.config)|
                && (e' == Advance(e, Program(e.config)[e.pc])
                    || e' == Fall(e, Program(e.config)[e.pc], event.reached)))
  {
    hide Program, Effect, Advance, Fall;
  }

  lemma {:induction false} MountAct(e: Engine, reached: nat)
    requires MountInv(e) && !e.dead && e.pc < |Program(e.config)|
    ensures MountInv(Advance(e, Program(e.config)[e.pc]))
    ensures MountInv(Fall(e, Program(e.config)[e.pc], reached))
  {
    hide Setup, Program, Ledger.Mounts, Ledger.Unmounts;
    SetupShape(e.config);
    ProgramShape(e.config);
  }

  lemma {:induction false} MountStep(w: World, event: Event, p: nat)
    requires p in w.engines && MountInv(w.engines[p])
    ensures p in Step(w, event).engines && MountInv(Step(w, event).engines[p])
  {
    hide Step, Advance, Fall, Program, Gate, Ledger.Mounts, Ledger.Unmounts;
    var e := w.engines[p];
    EngineStep(w, event, p);
    if event.Parent? && !e.dead && e.pc < |Program(e.config)| {
      MountAct(e, event.reached);
    }
  }

  lemma {:induction false} MountRun(w: World, events: seq<Event>, p: nat)
    requires Start(w) && p in w.engines
    ensures p in Run(w, events).engines && MountInv(Run(w, events).engines[p])
  {
    hide Step, Ledger.Mounts, Ledger.Unmounts, Setup;
    if events != [] {
      hide MountInv;
      MountRun(w, Front(events), p);
      MountStep(Run(w, Front(events)), Last(events), p);
    }
  }

  /** Mounts in any run: what has been unmounted belongs, one by one, to the first mounts;
      nothing is mounted before the message and nothing unmounted while the child is
      there; and an engine that has got past its unmounts has undone all of its mounts. */
  lemma {:induction false} MountsUndone(w: World, events: seq<Event>, p: nat)
    requires Start(w) && p in w.engines
    ensures p in Run(w, events).engines
    ensures var e := Run(w, events).engines[p];
            && |e.unmounted| <= |e.mounted|
            && Ledger.Paired(e.mounted[..|e.unmounted|], e.unmounted)
            && (e.mounted != [] ==> e.pc > Gate(e.config))
            && (e.unmounted != [] ==> e.child == Gone)
            && (e.pc > Gate(e.config) + 4 ==>
                  e.mounted == Ledger.Mounts(e.config) && Ledger.Paired(e.mounted, e.unmounted))
  {
    hide Run, Setup, Done, Ledger.Mounts, Ledger.Unmounts, Ledger.Undoes;
    RunInv(w, events);
    MountRun(w, events, p);
    var w' := Run(w, events);
    var e := w'.engines[p];
    assert EngineInv(w'.fs, p, e);
    Ledger.Balanced(e.config);
    SetupShape(e.config);
  }

  // ---- a run without failures

  predicate AllOk(events: seq<Event>) {
    forall i :: 0 <= i < |events| ==> events[i].ok
  }

  lemma {:induction false} StepsOk(p: nat, n: nat)
    ensures AllOk(Steps(p, n))
  {
    if n > 0 {
      StepsOk(p, n - 1);
    }
  }

  lemma {:induction false} TwoOf(w: World, p: nat)
    ensures Run(w, Steps(p, 2)) == Step(Step(w, Parent(p, true, 0)), Parent(p, true, 0))
  {
    hide Step;
    LastOfSteps(w, p, 1);
    LastOfSteps(w, p, 0);
    assert Steps(p, 0) == [] && Run(w, []) == w;
  }

  lemma {:induction false} TwoSteps(w: World, p: nat)
    requires p in w.engines && !w.engines[p].dead && w.engines[p].pc == Gate(w.engines[p].config) + 1
    ensures var e := w.engines[p];
            Run(w, Steps(p, 2)).engines ==
            w.engines[p := e.(pc := e.pc + 2, mounted := Ledger.Mounts(e.config))]
  {
    hide Gate, Setup, Program, Step, Run, Steps, Ledger.Mounts, Ledger.Unmounts;
    var e := w.engines[p];
    ProgramShape(e.config);
    TwoOf(w, p);
    ParentStep(w, p);
    ParentStep(Step(w, Parent(p, true, 0)), p);
  }

  lemma {:induction false} WaitAndRelease(w: World, p: nat)
    requires p in w.engines && !w.engines[p].dead && w.engines[p].pc == Gate(w.engines[p].config) + 3
    requires w.engines[p].child == Gone
    ensures var e := w.engines[p];
            Run(w, Steps(p, 2)).engines ==
            w.engines[p := e.(pc := e.pc + 2, unmounted := Ledger.Unmounts(e.config))]
  {
    hide Gate, Setup, Program, Step, Run, Steps, Ledger.Mounts, Ledger.Unmounts;
    var e := w.engines[p];
    ProgramShape(e.config);
    TwoOf(w, p);
    ParentStep(w, p);
    ParentStep(Step(w, Parent(p, true, 0)), p);
  }

  lemma {:induction false} RemoveStep(w: World, p: nat)
    requires p in w.engines && !w.engines[p].dead
    requires Gate(w.engines[p].config) + 5 <= w.engines[p].pc < |Program(w.engines[p].config)|
    ensures var e := w.engines[p]; Step(w, Parent(p, true, 0)).engines == w.engines[p := e.(pc := e.pc + 1)]
  {
    hide Setup, Program, Step;
    ProgramShape(w.engines[p].config);
    ParentStep(w, p);
  }

  lemma {:induction false} RemoveSteps(w: World, p: nat, n: nat)
    requires p in w.engines && !w.engines[p].dead && Gate(w.engines[p].config) + 5 <= w.engines[p].pc
    requires w.engines[p].pc + n <= |Program(w.engines[p].config)|
    ensures var e := w.engines[p]; Run(w, Steps(p, n)).engines == w.engines[p := e.(pc := e.pc + n)]
  {
    hide Step, Gate, Program;
    if n > 0 {
      RemoveSteps(w, p, n - 1);
      RemoveStep(Run(w, Steps(p, n - 1)), p);
      assert Front(Steps(p, n)) == Steps(p, n - 1);
    }
  }

  /** Setting up, opening the gate, mounting; the command runs and ends; cleaning up. */
  function CleanEvents(p: nat, gate: nat): seq<Event> {
    Steps(p, gate) + [Parent(p, true, 0), Child(p, true), Child(p, true)]
    + Steps(p, 2) + [Child(p, true)] + Steps(p, 2) + Steps(p, 3)
  }

  /** An engine for which nothing fails runs its command, gets to the end of its program
      with all of its mounts made and undone, and leaves no group behind. */
  lemma {:induction false} CleanRun(w: World, p: nat)
    requires Start(w) && p in w.engines
    ensures var w', c := Run(w, CleanEvents(p, Gate(w.engines[p].config))), w.engines[p].config;
            && p in w'.engines
            && w'.engines[p] == Engine(c, |Program(c)|, false, "", Gone, true, Ledger.Mounts(c), Ledger.Unmounts(c))
            && forall s :: NoGroup(w'.fs, p, s)
  {
    hide Run, Setup, Program, Steps, Step, Ledger.Mounts, Ledger.Unmounts, NoGroup, Gate;
    var e := w.engines[p];
    var c, gate := e.config, Gate(e.config);
    ProgramShape(c);
    var three, a := [Parent(p, true, 0), Child(p, true), Child(p, true)], Steps(p, gate);
    StepsRun(w, p, gate);
    RunSplit(w, a, three);
    RunThree(Run(w, a), p);
    var w2 := Run(w, a + three);
    RunSplit(w, a + three, Steps(p, 2));
    TwoSteps(w2, p);
    var w3 := Run(w2, Steps(p, 2));
    var b := a + three + Steps(p, 2);
    RunSplit(w, b, [Child(p, true)]);
    CommandEnds(w3, p);
    var w4 := Run(w3, [Child(p, true)]);
    RunSplit(w, b + [Child(p, true)], Steps(p, 2));
    WaitAndRelease(w4, p);
    RunSplit(w, b + [Child(p, true)] + Steps(p, 2), Steps(p, 3));
    RemoveSteps(Run(w4, Steps(p, 2)), p, 3);
    NothingRefused(w, p, gate);
  }

  lemma {:induction false} CommandEnds(w: World, p: nat)
    requires p in w.engines && w.engines[p].child == Running
    ensures Run(w, [Child(p, true)]).engines == w.engines[p := w.engines[p].(child := Gone)]
  {
    assert Front([Child(p, true)]) == [];
  }

  lemma {:induction false} NothingRefused(w: World, p: nat, gate: nat)
    requires Start(w) && p in w.engines
    ensures var w' := Run(w, CleanEvents(p, gate));
            && p in w'.engines
            && (w'.engines[p].pc >= Gate(w'.engines[p].config) + 8 ==> forall s :: NoGroup(w'.fs, p, s))
  {
    hide Run, Steps, NoGroup, Takes, Gate;
    var es := CleanEvents(p, gate);
    StepsOk(p, gate);
    StepsOk(p, 2);
    StepsOk(p, 3);
    assert AllOk(es);
    RunInv(w, es);
    var e := Run(w, es).engines[p];
    forall s ensures e.pc >= Gate(e.config) + 8 ==> NoGroup(Run(w, es).fs, p, s) {
      Cleanup(w, es, p, s);
      forall i: nat ensures !RefusedAt(w, es, i, p, s) { }
    }
  }

  // ---- what calls need

  /** What must be there for a call to succeed in the kernel: directories above, the
      refusal of setgroups before the group map, a limit before a process joins. */
  ghost predicate Needs(fs: Fs, p: nat, call: Call) {
    match call
    case MkShared(_) => true
    case MkGroup(s) => SharedDir(s) in fs.dirs
    case Write(s, k) =>
      GroupDir(s, p) in fs.dirs
      && (k == Tasks ==> exists limit :: limit != Tasks && GroupFile(s, p, limit) in fs.files)
    case RmGroup(s) => GroupDir(s, p) in fs.dirs
    case WriteProc(file) =>
      file == GidMap ==> Holding(fs, "/proc/" + Dec(p) + "/setgroups", "deny")
  }

  lemma BlockNeeds(i: nat) returns (j: nat, limit: Knob)
    requires i < 24 && !ConfigCalls()[i].MkShared?
    ensures j < i && var c, d := ConfigCalls()[i], ConfigCalls()[j];
            && (c.MkGroup? || c.Write?)
            && (c.MkGroup? ==> d == MkShared(c.s))
            && (c.Write? && c.knob != Tasks ==> d == MkGroup(c.s))
            && (c.Write? && c.knob == Tasks ==> d == Write(c.s, limit) && limit != Tasks)
    ensures ConfigCalls()[i].Write? && ConfigCalls()[i].knob == Tasks ==>
              j >= 1 && ConfigCalls()[j - 1] == MkGroup(ConfigCalls()[i].s)
  {
    j, limit := i - 1, MemoryLimit;
    ConfigFour(i / 4);
    if i % 4 == 3 {
      limit := ConfigCalls()[j].knob;
    }
  }

  lemma ConfigFour(b: nat)
    requires b < 6
    ensures var calls := ConfigCalls();
            && calls[4 * b].MkShared? && calls[4 * b + 1] == MkGroup(calls[4 * b].s)
            && calls[4 * b + 2].Write? && calls[4 * b + 2].s == calls[4 * b].s && calls[4 * b + 2].knob != Tasks
            && calls[4 * b + 3] == Write(calls[4 * b].s, Tasks)
  {
    assert b == 0 || b == 1 || b == 2 || b == 3 || b == 4 || b == 5;
  }

  /** Where a call of the setup stands among those of the groups, if it is one of them. */
  lemma {:induction false} SetupCall(c: Config, i: nat)
    requires i < Gate(c) && Setup(c)[i].Sys?
    ensures i < 4 ==>
              i >= 1 && Setup(c)[i].call == WriteProc(if i == 1 then UidMap else if i == 2 then Setgroups else GidMap)
    ensures i >= 4 ==> i >= Gate(c) - 24 && Setup(c)[i] == Sys(ConfigCalls()[i - (Gate(c) - 24)])
  {
    SetupShape(c);
    SetupHas(c);
    hide ConfigCalls, Setup;
    FirstRecord(c);
  }

  lemma {:induction false} FirstRecord(c: Config)
    ensures Setup(c)[0] == Record
  {
    hide ConfigCalls;
  }

  lemma HoldsMeans(fs: Fs, p: nat, limits: Args.Limits, s: Subsystem, k: Knob)
    ensures Holds(fs, p, limits, MkShared(s)) ==> SharedDir(s) in fs.dirs
    ensures Holds(fs, p, limits, MkGroup(s)) ==> GroupDir(s, p) in fs.dirs
    ensures Holds(fs, p, limits, Write(s, k)) ==> GroupFile(s, p, k) in fs.files
  {
  }

  lemma {:induction false} SetgroupsDenied(fs: Fs, p: nat, limits: Args.Limits)
    requires Holds(fs, p, limits, WriteProc(Setgroups))
    ensures Holding(fs, "/proc/" + Dec(p) + "/setgroups", "deny")
  {
    hide Dec;
    Assoc("/proc/" + Dec(p), "/", "setgroups");
    assert "/" + "setgroups" == "/setgroups";
  }

  /** In every run of any number of engines each call of a parent finds what it needs. */
  lemma {:induction false} CallsFindWhatTheyNeed(w: World, events: seq<Event>, event: Event, call: Call)
    requires Start(w) && Takes(Run(w, events), event, Sys(call))
    ensures Needs(Run(w, events).fs, event.pid, call)
  {
    hide Run, Holds, Setup, ConfigCalls, GroupDir, GroupFile, SharedDir, Holding, Program, Dec;
    RunInv(w, events);
    var fs, p := Run(w, events).fs, event.pid;
    var e := Run(w, events).engines[p];
    var c, limits := e.config, e.config.limits;
    assert EngineInv(fs, p, e);
    SetupShape(c);
    ProgramShape(c);
    if e.pc < Gate(c) {
      SetupCall(c, e.pc);
      SetupHas(c);
      if e.pc == 3 {
        assert Done(fs, p, limits, Setup(c)[2]);
        SetgroupsDenied(fs, p, limits);
      } else if e.pc >= 4 && !call.MkShared? {
        var start := Gate(c) - 24;
        var j, limit := BlockNeeds(e.pc - start);
        assert Setup(c)[start + j] == Sys(ConfigCalls()[j]) && Done(fs, p, limits, Setup(c)[start + j]);
        HoldsMeans(fs, p, limits, call.s, limit);
        if call.Write? && call.knob == Tasks {
          assert Setup(c)[start + j - 1] == Sys(ConfigCalls()[j - 1]);
          assert Done(fs, p, limits, Setup(c)[start + j - 1]);
        }
      }
    } else {
      ActionsBehindGate(c, e.pc);
      RemovalPlace(c, e.pc, call.s);
      Cleanup(w, events, p, call.s);
    }
  }
}
