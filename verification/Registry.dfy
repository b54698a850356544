/** The registry of isles: one text file for each, printed by the engine and read by two
    other programs, one of which removes the entries of isles that have ended. */
module Registry {
  import opened Text

  /** What the engine prints; the time ends in a newline, as ctime gives it. */
  function Record(pid: nat, name: string, time: string): string {
    Dec(pid) + "\n" + name + "\n" + time + "\n"
  }

  function Fields(text: string): seq<string> {
    Split(text, '\n')
  }

  /** The pid that the readers take from a file. */
  function PidOf(text: string): Option<int> {
    Stoi(Fields(text)[0])
  }

  lemma RecordFields(pid: nat, name: string, time: string)
    requires '\n' !in time
    ensures Fields(Record(pid, name, time)) == [Dec(pid)] + Split(name, '\n') + [time, ""]
  {
    hide Split, Dec;
    NoNewline(pid);
    var a := Dec(pid) + "\n" + name;
    var b := a + "\n" + time;
    assert Record(pid, name, time) == b + "\n" + "";
    SplitAt(b, '\n', "");
    SplitAt(a, '\n', time);
    SplitAt(Dec(pid), '\n', name);
    SplitNone("", '\n');
    SplitNone(time, '\n');
    SplitNone(Dec(pid), '\n');
    assert [Dec(pid)] + Split(name, '\n') + [time] + [""] == [Dec(pid)] + Split(name, '\n') + [time, ""];
  }

  lemma {:induction false} NoNewline(pid: nat)
    ensures '\n' !in Dec(pid)
  {
    var d := Dec(pid);
    assert forall i :: 0 <= i < |d| ==> IsDigit(d[i]);
  }

  /** Reading a record gives back the pid always, and pid, name and time all three if and
      only if the name holds no newline. */
  lemma {:induction false} RecordRoundTrip(pid: nat, name: string, time: string)
    requires pid < 0x8000_0000 && '\n' !in time
    ensures var f := Fields(Record(pid, name, time));
            && |f| >= 4 && f[0] == Dec(pid)
            && (f[1] == name && f[2] == time <==> '\n' !in name)
            && (f[1] == name <==> '\n' !in name)
    ensures PidOf(Record(pid, name, time)) == Some(pid)
  {
    hide Split, Dec, Record, Stoi;
    RecordFields(pid, name, time);
    StoiDec(pid);
    var parts := Split(name, '\n');
    SplitSingle(name, '\n');
    SplitFree(name, '\n');
    assert parts[0] in parts;
    if '\n' !in name {
      SplitNone(name, '\n');
    }
  }

  /** An isle called "a", newline, "b" is read back as an isle called "a". */
  lemma {:induction false} NewlineInName(pid: nat, time: string)
    requires '\n' !in time
    ensures var f := Fields(Record(pid, "a\nb", time)); |f| == 5 && f[1] == "a" && f[2] == "b" && f[3] == time
  {
    hide Dec, Record, Split;
    RecordFields(pid, "a\nb", time);
    SplitAt("a", '\n', "b");
    SplitNone("a", '\n');
    SplitNone("b", '\n');
    assert "a" + "\n" + "b" == "a\nb" && ["a"] + ["b"] == ["a", "b"];
  }

  datatype Islenode = Islenode(name: string, pid: string, time: string, path: string)

  predicate Readable(text: string) {
    |Fields(text)| >= 3 && PidOf(text).Some?
  }

  function NodeOf(path: string, text: string): Islenode
    requires Readable(text)
  {
    Islenode(Fields(text)[1], Fields(text)[0], Fields(text)[2], path)
  }

  predicate Alive(text: string, alive: set<int>) {
    PidOf(text).Some? && PidOf(text).value in alive
  }

  /** The files that are left when those of ended isles are gone. */
  function Pruned(files: map<string, string>, alive: set<int>): map<string, string> {
    map f | f in files && Alive(files[f], alive) :: files[f]
  }

  /** The nodes of living isles, in the order in which the files were found. */
  function Listed(files: map<string, string>, order: seq<string>, alive: set<int>): seq<Islenode>
    requires forall f :: f in order ==> f in files && Readable(files[f])
  {
    if order == [] then []
    else
      Listed(files, Front(order), alive)
      + if Alive(files[Last(order)], alive) then [NodeOf(Last(order), files[Last(order)])] else []
  }

  lemma {:induction false} NodeFields(path: string, text: string, alive: set<int>)
    requires Readable(text)
    ensures NodeOf(path, text).path == path
    ensures var pid := Stoi(NodeOf(path, text).pid); pid.Some? && (pid.value in alive <==> Alive(text, alive))
  {
    hide Stoi;
  }

  /** The files that are left when ps has dealt with some of them. */
  function Partly(files: map<string, string>, seen: seq<string>, alive: set<int>): map<string, string> {
    map f | f in files && (f in seen ==> Alive(files[f], alive)) :: files[f]
  }

  lemma {:induction false} PartlyNext(files: map<string, string>, seen: seq<string>, path: string, alive: set<int>)
    requires path in files
    ensures Partly(files, seen + [path], alive)
         == if Alive(files[path], alive) then Partly(files, seen, alive) else Partly(files, seen, alive) - {path}
  {
    hide Alive;
  }

  lemma {:induction false} PartlyEnds(files: map<string, string>, order: seq<string>, alive: set<int>)
    requires forall f :: f in order <==> f in files
    ensures Partly(files, order[..0], alive) == files && Partly(files, order, alive) == Pruned(files, alive)
  {
    hide Alive;
  }

  class Directory {
    const path: string
    var files: map<string, string>

    constructor (path: string)
      ensures this.path == path && files == map[]
    {
      this.path, files := path, map[];
    }

    /** Every file is a record. */
    ghost predicate Valid()
      reads this
    {
      forall f :: f in files ==> Readable(files[f])
    }

    method CreateIslenode(name: string, pid: nat, time: string)
      requires Valid() && pid < 0x8000_0000 && '\n' !in time
      modifies this
      ensures Valid() && files == old(files)[path + name + ".txt" := Dec(pid) + "\n" + name + "\n" + time + "\n"]
    {
      RecordRoundTrip(pid, name, time);
      PathText(path, name);
      hide Fields, PidOf;
      files := files[PathOf(path, name) := Record(pid, name, time)];
    }

    /** Reads all files that were found. */
    method ParseFiles(order: seq<string>) returns (nodes: seq<Islenode>)
      requires Valid() && forall f :: f in order ==> f in files
      ensures |nodes| == |order|
      ensures forall i :: 0 <= i < |order| ==> nodes[i] == NodeOf(order[i], files[order[i]])
    {
      nodes := [];
      for i := 0 to |order|
        invariant |nodes| == i
        invariant forall k :: 0 <= k < i ==> nodes[k] == NodeOf(order[k], files[order[k]])
      {
        var params := Split(files[order[i]], '\n');
        nodes := nodes + [Islenode(params[1], params[0], params[2], order[i])];
      }
    }

    /** ps: removes the files of ended isles and lists the others. */
    method Ps(order: seq<string>, alive: set<int>) returns (listing: seq<Islenode>)
      requires Valid() && forall f :: f in order <==> f in files
      modifies this
      ensures Valid() && files == Pruned(old(files), alive)
      ensures listing == Listed(old(files), order, alive)
    {
      hide Fields, Stoi, Split, Alive, Readable, PidOf, Partly, NodeOf;
      ghost var start := files;
      var nodes := ParseFiles(order);
      listing := [];
      PartlyEnds(start, order, alive);
      for i := 0 to |nodes|
        invariant files == Partly(start, order[..i], alive)
        invariant listing == Listed(start, order[..i], alive)
      {
        assert order[..i + 1] == order[..i] + [order[i]] && Front(order[..i + 1]) == order[..i];
        PartlyNext(start, order[..i], order[i], alive);
        NodeFields(order[i], start[order[i]], alive);
        var pid := Stoi(nodes[i].pid);
        if pid.value in alive {
          listing := listing + [nodes[i]];
        } else {
          files := files - {nodes[i].path};
        }
      }
      assert order[..|order|] == order;
    }

    /** delete: the pid of a named isle, or -1 when there is no such file. */
    method GetPid(name: string) returns (pid: int)
      requires Valid()
      ensures var file := path + name + ".txt";
              if file in files then Some(pid) == PidOf(files[file]) else pid == -1
    {
      PathText(path, name);
      var text := if PathOf(path, name) in files then files[PathOf(path, name)] else "";
      var params := Split(text, '\n');
      if params[0] != "" {
        pid := Stoi(params[0]).value;
      } else {
        pid := -1;
      }
    }
  }

  function PathOf(path: string, name: string): string {
    path + name + "." + "txt"
  }

  lemma PathText(path: string, name: string)
    ensures PathOf(path, name) == path + name + ".txt"
  {
    Assoc(path + name, ".", "txt");
  }

  lemma PathInjective(path: string, m: string, n: string)
    ensures PathOf(path, m) == PathOf(path, n) <==> m == n
  {
    var p, q := PathOf(path, m), PathOf(path, n);
    assert p[|path|..|p| - 4] == m && q[|path|..|q| - 4] == n;
  }

  /** A run: isles are recorded, and ps is called at times when certain pids are alive. */
  datatype Event = Create(name: string, pid: nat, time: string) | Ps(alive: set<int>)

  predicate Legal(e: Event) {
    e.Create? ==> e.pid < 0x8000_0000 && '\n' !in e.time
  }

  function After(path: string, files: map<string, string>, e: Event): map<string, string> {
    match e
    case Create(name, pid, time) => files[PathOf(path, name) := Record(pid, name, time)]
    case Ps(alive) => Pruned(files, alive)
  }

  function Run(path: string, es: seq<Event>): map<string, string> {
    if es == [] then map[] else After(path, Run(path, Front(es)), Last(es))
  }

  /** A later turn leaves the isle's file as it is. */
  predicate Spares(later: Event, isle: Event) {
    && isle.Create?
    && match later
       case Create(name, _, _) => name != isle.name
       case Ps(alive) => isle.pid in alive
  }

  /** Turn k recorded the isle, no later turn recorded one of the same name, and every
      later ps found its pid alive. */
  predicate Survives(es: seq<Event>, k: nat) {
    k < |es| && es[k].Create? && forall j :: k < j < |es| ==> Spares(es[j], es[k])
  }

  lemma {:induction false} SurvivesFront(es: seq<Event>, k: nat)
    requires es != [] && k < |es| - 1
    ensures Survives(es, k) <==> Survives(Front(es), k) && Spares(Last(es), es[k])
  {
    var init := Front(es);
    assert forall j :: 0 <= j < |init| ==> init[j] == es[j];
    assert Last(es) == es[|es| - 1];
    hide Spares;
    if Survives(init, k) && Spares(Last(es), es[k]) {
      forall j | k < j < |es| ensures Spares(es[j], es[k]) {
        assert j < |init| ==> Spares(init[j], init[k]);
      }
    }
  }

  lemma SurvivorsExist(es: seq<Event>)
    ensures forall k: nat :: Survives(es, k) ==> k < |es| && es[k].Create?
    ensures es != [] ==> (Survives(es, |es| - 1) <==> Last(es).Create?)
  {
  }

  /** The registry after any run holds exactly the records of the surviving isles: a name's
      file is there if and only if some recording of that name survives, and then it is
      that recording. */
  lemma {:induction false} RegistryExact(path: string, es: seq<Event>, name: string)
    requires forall i :: 0 <= i < |es| ==> Legal(es[i])
    ensures var f, files := PathOf(path, name), Run(path, es);
            && (f in files <==> exists k: nat :: Survives(es, k) && es[k].name == name)
            && forall k: nat :: Survives(es, k) && es[k].name == name ==>
                 f in files && files[f] == Record(es[k].pid, name, es[k].time)
  {
    hide Record, PathOf, PidOf, Survives;
    SurvivorsExist(es);
    if es != [] {
      var init, e, f := Front(es), Last(es), PathOf(path, name);
      assert forall i :: 0 <= i < |init| ==> init[i] == es[i];
      assert forall i :: 0 <= i < |init| ==> Legal(es[i]);
      RegistryExact(path, init, name);
      SurvivorsExist(init);
      forall k: nat | k < |init| ensures Survives(es, k) <==> Survives(init, k) && Spares(e, init[k]) {
        SurvivesFront(es, k);
      }
      match e {
        case Create(n, pid, time) =>
          PathInjective(path, n, name);
          if n == name {
            assert Survives(es, |init|);
          }
        case Ps(alive) =>
          var files := Run(path, init);
          forall k: nat | Survives(init, k) && init[k].name == name
            ensures f in files && PidOf(files[f]) == Some(init[k].pid)
          {
            RecordRoundTrip(init[k].pid, name, init[k].time);
          }
          if f in files {
            var k: nat :| Survives(init, k) && init[k].name == name;
            assert Survives(es, k) <==> init[k].pid in alive;
          }
      }
    }
  }

  lemma {:induction false} RunReadable(path: string, es: seq<Event>)
    requires forall i :: 0 <= i < |es| ==> Legal(es[i])
    ensures forall f :: f in Run(path, es) ==> Readable(Run(path, es)[f])
  {
    hide Record, PidOf, PathOf;
    if es != [] {
      var init := Front(es);
      assert forall i :: 0 <= i < |init| ==> init[i] == es[i];
      RunReadable(path, init);
      assert Legal(es[|es| - 1]);
      if Last(es).Create? {
        RecordRoundTrip(Last(es).pid, Last(es).name, Last(es).time);
      }
    }
  }

  lemma {:induction false} ListedIff(files: map<string, string>, order: seq<string>, alive: set<int>, node: Islenode)
    requires forall f :: f in order ==> f in files && Readable(files[f])
    ensures node in Listed(files, order, alive)
       <==> node.path in order && Alive(files[node.path], alive) && node == NodeOf(node.path, files[node.path])
  {
    hide Alive, Readable;
    if order != [] {
      assert order == Front(order) + [Last(order)];
      ListedIff(files, Front(order), alive, node);
    }
  }

  /** ps lists the living isles once each and in the order of their files: the nodes listed
      are those of all the living ones among the files, from the first to the last. */
  lemma {:induction false} ListedInOrder(files: map<string, string>, order: seq<string>, alive: set<int>)
    returns (at: seq<nat>)
    requires forall f :: f in order ==> f in files && Readable(files[f])
    ensures |at| == |Listed(files, order, alive)|
    ensures forall i :: 0 <= i < |at| ==>
              at[i] < |order| && Alive(files[order[at[i]]], alive)
              && Listed(files, order, alive)[i] == NodeOf(order[at[i]], files[order[at[i]]])
    ensures forall i, j :: 0 <= i < j < |at| ==> at[i] < at[j]
    ensures forall k: nat :: k < |order| && Alive(files[order[k]], alive) ==> k in at
  {
    hide Alive, Readable, NodeOf;
    at := [];
    if order != [] {
      var n := |order| - 1;
      assert order[n] in order;
      var init := ListedInOrder(files, Front(order), alive);
      if Alive(files[Last(order)], alive) {
        at := init + [n];
        forall k: nat | k < |order| && Alive(files[order[k]], alive) ensures k in at {
          if k < n {
            assert Front(order)[k] == order[k];
            assert k in init;
          } else {
            assert at[|init|] == k;
          }
        }
      } else {
        at := init;
      }
    }
  }

  /** What ps shows after any run: a line is shown exactly for each isle whose recording
      survives this ps too, with the pid and, for a name without newline, the name and the
      time it was recorded with; and delete finds the same pid. */
  lemma {:induction false} PsShowsSurvivors(path: string, es: seq<Event>, alive: set<int>, order: seq<string>, k: nat)
    requires forall i :: 0 <= i < |es| ==> Legal(es[i])
    requires (forall f :: f in order <==> f in Run(path, es)) && k < |es| && es[k].Create?
    requires forall j :: k < j < |es| && es[j].Create? ==> es[j].name != es[k].name
    ensures forall f :: f in order ==> Readable(Run(path, es)[f])
    ensures var e, f, shown := es[k], PathOf(path, es[k].name), Listed(Run(path, es), order, alive);
            && ((exists n :: n in shown && n.path == f) <==> Survives(es + [Ps(alive)], k))
            && (Survives(es, k) ==> f in Run(path, es) && PidOf(Run(path, es)[f]) == Some(e.pid))
            && (Survives(es + [Ps(alive)], k) && '\n' !in e.name ==>
                  Islenode(e.name, Dec(e.pid), e.time, f) in shown)
  {
    hide Record, Survives, Alive, Readable, PidOf, NodeOf, Run, PathOf, Listed;
    var e, f, files := es[k], PathOf(path, es[k].name), Run(path, es);
    RunReadable(path, es);
    RegistryExact(path, es, e.name);
    OnlyLatest(es, k);
    assert Legal(e);
    RecordRoundTrip(e.pid, e.name, e.time);
    SurvivesPs(es, alive, k);
    var shown := Listed(files, order, alive);
    forall n
      ensures n in shown <==>
              n.path in order && Alive(files[n.path], alive) && n == NodeOf(n.path, files[n.path])
    {
      ListedIff(files, order, alive, n);
    }
    if f in files {
      AliveMeans(files[f], alive);
      NodePath(f, files[f]);
      var node := NodeOf(f, files[f]);
      assert node in shown <==> Alive(files[f], alive);
      if '\n' !in e.name && Survives(es, k) {
        NodeOfRecord(f, e);
      }
    }
  }

  lemma {:induction false} OnlyLatest(es: seq<Event>, k: nat)
    requires k < |es| && es[k].Create?
    requires forall j :: k < j < |es| && es[j].Create? ==> es[j].name != es[k].name
    ensures forall i: nat :: Survives(es, i) && es[i].name == es[k].name ==> i == k
  {
    forall i: nat | Survives(es, i) && es[i].name == es[k].name ensures i == k {
      NoLaterNamesake(es, i, k);
    }
  }

  lemma NoLaterNamesake(es: seq<Event>, i: nat, k: nat)
    requires Survives(es, i) && k < |es| && es[k].Create? && es[k].name == es[i].name
    ensures k <= i
  {
  }

  lemma SurvivesPs(es: seq<Event>, alive: set<int>, k: nat)
    requires k < |es| && es[k].Create?
    ensures Survives(es + [Ps(alive)], k) <==> Survives(es, k) && es[k].pid in alive
  {
    assert Front(es + [Ps(alive)]) == es;
    SurvivesFront(es + [Ps(alive)], k);
  }

  lemma AliveMeans(text: string, alive: set<int>)
    requires Readable(text)
    ensures PidOf(text).Some? && (Alive(text, alive) <==> PidOf(text).value in alive)
  {
  }

  lemma NodePath(path: string, text: string)
    requires Readable(text)
    ensures NodeOf(path, text).path == path
  {
  }

  lemma NodeOfRecord(path: string, e: Event)
    requires e.Create? && Legal(e) && '\n' !in e.name && Readable(Record(e.pid, e.name, e.time))
    ensures NodeOf(path, Record(e.pid, e.name, e.time)) == Islenode(e.name, Dec(e.pid), e.time, path)
  {
    hide Record, Dec;
    RecordRoundTrip(e.pid, e.name, e.time);
  }
}
