/** The way of a command from the client's options through the server's session and
    exec to the engine's parser. */
module CommandPath {
  import opened Text
  import opened ClientCommand
  import Args = EngineArgs
  import Session
  import SessionProperties

  /** The server's choice of a program and its argv. */
  function ExecArgs(cmd: string): (args: seq<string>)
    ensures |args| >= 1
  {
    var pieces := Split(cmd, ' ');
    if pieces[0] == "ps" then ["./ps"] + pieces[1..]
    else if pieces[0] == "delete" then ["./delete"] + pieces[1..]
    else ["./islander_engine"] + pieces
  }

  /** Builds the C argv: the first piece may select another program and is then taken
      out, the program's name goes in front, and NULL behind. */
  method ExecCommand(cmd: string) returns (victim: string, argv: seq<Option<string>>)
    ensures victim == ExecArgs(cmd)[0] && |argv| == |ExecArgs(cmd)| + 1 && Last(argv) == None
    ensures forall i :: 0 <= i < |argv| - 1 ==> argv[i] == Some(ExecArgs(cmd)[i])
  {
    hide Split;
    var args := Split(cmd, ' ');
    if args[0] == "ps" {
      victim := "./ps";
      args := args[1..];
    } else if args[0] == "delete" {
      victim := "./delete";
      args := args[1..];
    } else {
      victim := "./islander_engine";
    }
    args := [victim] + args;
    argv := [];
    for i := 0 to |args|
      invariant |argv| == i && forall k :: 0 <= k < i ==> argv[k] == Some(args[k])
    {
      argv := argv + [Some(args[i])];
    }
    argv := argv + [None];
  }

  function Singles(tokens: seq<string>): seq<Args.Item> {
    if tokens == [] then [] else Singles(Front(tokens)) + [[Last(tokens)]]
  }

  /** Values taken two by two. */
  function PairItems(param: string, values: seq<string>): seq<Args.Item> {
    var n := |values|;
    if n < 2 then []
    else PairItems(param, values[..n - 2]) + [["--" + param, "src", values[n - 2], "dst", values[n - 1]]]
  }

  function PairList(values: seq<string>): seq<Args.Pair> {
    var n := |values|;
    if n < 2 then [] else PairList(values[..n - 2]) + [Args.Pair(values[n - 2], values[n - 1])]
  }

  function ValuesOf(given: Option<seq<string>>): seq<string> {
    if given.Some? then given.value else []
  }

  function LimitItems(o: Options): seq<Args.Item> {
    [["--memory-in-bytes", ValueOr(o.memory, DEFAULT_MEMORY_IN_BYTES)],
     ["--cpu-shares", DEFAULT_CPU_SHARES], ["--cpu-period", DEFAULT_CPU_PERIOD], ["--cpu-quota", DEFAULT_CPU_QUOTA],
     ["--device-read-bps", ValueOr(o.readBps, DEFAULT_DEVICE_READ_BPS)],
     ["--device-write-bps", ValueOr(o.writeBps, DEFAULT_DEVICE_WRITE_BPS)],
     ["--name", o.name]]
  }

  function VectorItems(param: string, given: Option<seq<string>>): seq<Args.Item> {
    if given.None? then [] else [[""]] + PairItems(param, given.value)
  }

  function FlagItems(o: Options): seq<Args.Item> {
    (if o.netns then [["--netns", "True"]] else []) + (if o.detach then [["-d"]] else [])
  }

  function TmpfsItems(given: Option<seq<string>>): seq<Args.Item>
    requires GoodTmpfs(given)
  {
    if given.None? then []
    else
      var v := given.value;
      [["--tmpfs", "", "", "--dst", v[0], "--size", v[1]], ["--nr_inodes"], [v[2]]]
  }

  /** How the engine cuts the client's tokens. */
  function ClientItems(o: Options): seq<Args.Item>
    requires Acceptable(o)
  {
    Singles(Split(o.bin, ' ')) + LimitItems(o) + VectorItems("mount", o.mounts)
    + VectorItems("volume", o.volumes) + FlagItems(o) + TmpfsItems(o.tmpfs)
  }

  ghost predicate PlainTokens(tokens: seq<string>) {
    forall t :: t in tokens ==> Args.KindOf(t) == Args.Plain
  }

  function EmptyIfGiven(given: Option<seq<string>>): seq<string> {
    if given.None? then [] else [""]
  }

  /** What the client's options ask for. */
  function Intended(o: Options): Args.Params
    requires Acceptable(o)
  {
    Args.Params(
      Args.Limits(ValueOr(o.memory, DEFAULT_MEMORY_IN_BYTES), DEFAULT_CPU_SHARES, DEFAULT_CPU_PERIOD,
                  DEFAULT_CPU_QUOTA, ValueOr(o.readBps, DEFAULT_DEVICE_READ_BPS),
                  ValueOr(o.writeBps, DEFAULT_DEVICE_WRITE_BPS)),
      None, None, None, o.detach, PairList(ValuesOf(o.mounts)), PairList(ValuesOf(o.volumes)),
      if o.tmpfs.None? then None
      else Some(Args.Tmpfs(o.tmpfs.value[0], o.tmpfs.value[1], o.tmpfs.value[2])),
      Some(o.name), o.netns, Split(o.bin, ' '))
  }

  /** What the engine makes of them. Each list of mounts or volumes leaves an empty token
      in the command; two empty tokens behind --tmpfs move its operands by one, and the
      last two of its tokens end up in the command. */
  function Recovered(o: Options): Args.Params
    requires Acceptable(o)
  {
    var p := Intended(o);
    var q := p.(command := p.command + EmptyIfGiven(o.mounts) + EmptyIfGiven(o.volumes));
    if o.tmpfs.None? then q
    else
      q.(tmpfs := Some(Args.Tmpfs("", o.tmpfs.value[0], o.tmpfs.value[1])),
         command := q.command + ["--nr_inodes", o.tmpfs.value[2]])
  }

  lemma {:induction false} EmptyIsItem()
    ensures Args.IsItem([""])
  {
    FlagsStartWithDash("");
    hide Args.KindOf;
  }

  lemma KindsOfFlags()
    ensures Args.KindOf("--memory-in-bytes") == Args.Memory
    ensures Args.KindOf("--cpu-shares") == Args.CpuShares
    ensures Args.KindOf("--cpu-period") == Args.CpuPeriod
    ensures Args.KindOf("--cpu-quota") == Args.CpuQuota
    ensures Args.KindOf("--device-read-bps") == Args.ReadBps
    ensures Args.KindOf("--device-write-bps") == Args.WriteBps
    ensures Args.KindOf("--name") == Args.Name
    ensures Args.KindOf("--netns") == Args.Netns
    ensures Args.KindOf("-d") == Args.Detach
    ensures Args.KindOf("--tmpfs") == Args.TmpfsMount
    ensures Args.KindOf("--" + "mount") == Args.Mount
    ensures Args.KindOf("--" + "volume") == Args.Volume
    ensures Args.KindOf("--nr_inodes") == Args.Plain
    ensures Args.KindOf("") == Args.Plain
  {
    assert "--" + "mount" == "--mount" && "--" + "volume" == "--volume";
  }

  lemma FlagsStartWithDash(token: string)
    requires token == "" || token[0] != '-'
    ensures Args.KindOf(token) == Args.Plain
  {
  }

  lemma {:induction false} AmountIsPlain(s: string)
    requires IsAmount(s)
    ensures Args.KindOf(s) == Args.Plain && ' ' !in s
  {
    hide Args.KindOf;
    assert s == Front(s) + [Last(s)];
    if |s| > 1 {
      assert IsDigit(Front(s)[0]);
    }
    FlagsStartWithDash(s);
  }

  lemma {:induction false} SinglesFlatten(tokens: seq<string>)
    ensures Args.Flatten(Singles(tokens)) == tokens
    ensures PlainTokens(tokens) ==> Args.Shaped(Singles(tokens))
  {
    hide Args.KindOf;
    if tokens != [] {
      var init := Front(tokens);
      SinglesFlatten(init);
      Args.FlattenSnoc(Singles(init), [Last(tokens)]);
      assert tokens == init + [Last(tokens)];
      if PlainTokens(tokens) {
        assert Last(tokens) in tokens;
        assert PlainTokens(init);
      }
    }
  }

  lemma {:induction false} SinglesMeaning(items: seq<Args.Item>, tokens: seq<string>)
    requires PlainTokens(tokens)
    ensures Args.Meaning(items + Singles(tokens))
         == var p := Args.Meaning(items); p.(command := p.command + tokens)
  {
    hide Args.KindOf, Args.Meaning;
    if tokens == [] {
      assert items + [] == items && Args.Meaning(items).command + [] == Args.Meaning(items).command;
    } else {
      var init, t := Front(tokens), Last(tokens);
      assert t in tokens && PlainTokens(init);
      SinglesMeaning(items, init);
      Assoc(items, Singles(init), [[t]]);
      Args.MeaningSnoc(items + Singles(init), [t]);
      Assoc(Args.Meaning(items).command, init, [t]);
      assert tokens == init + [t];
    }
  }

  lemma {:induction false} PairItemsFlatten(param: string, values: seq<string>)
    requires |values| % 2 == 0
    ensures Args.Flatten(PairItems(param, values)) == PairTokens(param, values)
    decreases |values|
  {
    var n := |values|;
    if n >= 2 {
      var init := values[..n - 2];
      PairItemsFlatten(param, init);
      Args.FlattenSnoc(PairItems(param, init), ["--" + param, "src", values[n - 2], "dst", values[n - 1]]);
      PairTokensTwice(param, values);
    }
  }

  lemma PairTokensLast(param: string, values: seq<string>)
    requires values != []
    ensures PairTokens(param, values) == PairTokens(param, Front(values))
            + if |values| % 2 == 1 then ["--" + param, "src", Last(values)] else ["dst", Last(values)]
  {
  }

  lemma PairTokensTwice(param: string, values: seq<string>)
    requires |values| % 2 == 0 && |values| >= 2
    ensures var n := |values|;
            PairTokens(param, values) ==
            PairTokens(param, values[..n - 2]) + ["--" + param, "src", values[n - 2], "dst", values[n - 1]]
  {
    hide PairTokens, Front, Last;
    var n := |values|;
    FrontTwice(values);
    PairTokensLast(param, values);
    PairTokensLast(param, Front(values));
    Chain(PairTokens(param, values[..n - 2]), PairTokens(param, Front(values)), PairTokens(param, values),
          "--" + param, values[n - 2], values[n - 1]);
  }

  lemma FrontTwice<T>(values: seq<T>)
    requires |values| >= 2
    ensures var n := |values|;
            && |Front(values)| == n - 1 && Front(Front(values)) == values[..n - 2]
            && Last(Front(values)) == values[n - 2] && Last(values) == values[n - 1]
  {
  }

  lemma Chain(two: seq<string>, one: seq<string>, all: seq<string>, flag: string, src: string, dst: string)
    requires one == two + [flag, "src", src] && all == one + ["dst", dst]
    ensures all == two + [flag, "src", src, "dst", dst]
  {
  }

  lemma {:induction false} PairItemsMeaning(items: seq<Args.Item>, param: string, values: seq<string>)
    requires |values| % 2 == 0 && (param == "mount" || param == "volume")
    ensures Args.Shaped(PairItems(param, values))
    ensures var p := Args.Meaning(items);
            Args.Meaning(items + PairItems(param, values)) ==
              if param == "mount" then p.(mounts := p.mounts + PairList(values))
              else p.(volumes := p.volumes + PairList(values))
    decreases |values|
  {
    hide Args.KindOf, Args.Meaning;
    var n, p := |values|, Args.Meaning(items);
    if n < 2 {
      assert items + [] == items && p.mounts + [] == p.mounts && p.volumes + [] == p.volumes;
    } else {
      var init := values[..n - 2];
      var item := ["--" + param, "src", values[n - 2], "dst", values[n - 1]];
      PairItemsMeaning(items, param, init);
      KindsOfFlags();
      Assoc(items, PairItems(param, init), [item]);
      Args.MeaningSnoc(items + PairItems(param, init), item);
      Assoc(p.mounts, PairList(init), [Args.Pair(values[n - 2], values[n - 1])]);
      Assoc(p.volumes, PairList(init), [Args.Pair(values[n - 2], values[n - 1])]);
    }
  }

  lemma LimitItemsShape(o: Options)
    ensures Args.Flatten(LimitItems(o)) == LimitTokens(o) && Args.Shaped(LimitItems(o))
  {
    hide Args.KindOf;
    KindsOfFlags();
    var it := LimitItems(o);
    FlattenTwo(it[0], it[1]);
    FlattenTwo(it[2], it[3]);
    FlattenTwo(it[4], it[5]);
    Args.FlattenAppend([it[0], it[1]], [it[2], it[3]]);
    Args.FlattenAppend([it[0], it[1], it[2], it[3]], [it[4], it[5]]);
    Args.FlattenSnoc([it[0], it[1], it[2], it[3], it[4], it[5]], it[6]);
    assert [it[0], it[1]] + [it[2], it[3]] == [it[0], it[1], it[2], it[3]];
    assert [it[0], it[1], it[2], it[3]] + [it[4], it[5]] == [it[0], it[1], it[2], it[3], it[4], it[5]];
    assert it == [it[0], it[1], it[2], it[3], it[4], it[5]] + [it[6]];
  }

  lemma FlattenTwo(a: Args.Item, b: Args.Item)
    ensures Args.Flatten([a]) == a && Args.Flatten([a, b]) == a + b
  {
    assert [a, b][1..] == [b] && [a][1..] == [] && [b][1..] == [];
  }

  lemma VectorItemsShape(param: string, given: Option<seq<string>>)
    requires GoodPairs(given) && (param == "mount" || param == "volume")
    ensures Args.Flatten(VectorItems(param, given)) == VectorTokens(param, given)
    ensures Args.Shaped(VectorItems(param, given))
  {
    hide Args.KindOf, PairTokens, PairItems, Args.Shaped, Args.IsItem, Args.Flatten, Args.Meaning, PairList;
    NoneShaped();
    if given.Some? {
      PairItemsFlatten(param, given.value);
      PairItemsMeaning([], param, given.value);
      FlattenTwo([""], [""]);
      EmptyIsItem();
      OneShaped([""]);
      Both([[""]], PairItems(param, given.value));
    }
  }

  lemma NoneShaped()
    ensures Args.Shaped([]) && Args.Flatten([]) == []
  {
  }

  lemma OneShaped(a: Args.Item)
    requires Args.IsItem(a)
    ensures Args.Shaped([a])
  {
  }

  lemma {:induction false} ShapedAppend(a: seq<Args.Item>, b: seq<Args.Item>)
    requires Args.Shaped(a) && Args.Shaped(b)
    ensures Args.Shaped(a + b)
  {
    hide Args.KindOf, Args.IsItem;
  }

  lemma FlagItemsShape(o: Options)
    ensures Args.Flatten(FlagItems(o)) == FlagTokens(o) && Args.Shaped(FlagItems(o))
  {
    hide Args.KindOf;
    KindsOfFlags();
    FlattenTwo(["--netns", "True"], ["-d"]);
    FlattenTwo(["-d"], ["-d"]);
    assert [["--netns", "True"]] + [["-d"]] == [["--netns", "True"], ["-d"]];
  }

  lemma TmpfsItemsShape(given: Option<seq<string>>)
    requires GoodTmpfs(given)
    ensures Args.Flatten(TmpfsItems(given)) == TmpfsOption(given) && Args.Shaped(TmpfsItems(given))
  {
    hide Args.KindOf, IsAmount;
    KindsOfFlags();
    if given.Some? {
      var v := given.value;
      AmountIsPlain(v[2]);
      var first := ["--tmpfs", "", "", "--dst", v[0], "--size", v[1]];
      FlattenTwo(first, ["--nr_inodes"]);
      Args.FlattenSnoc([first, ["--nr_inodes"]], [v[2]]);
      assert TmpfsItems(given) == [first, ["--nr_inodes"]] + [[v[2]]];
      assert first + ["--nr_inodes"] + [v[2]] == ["--tmpfs", ""] + TmpfsTokens(v);
    }
  }

  /** The engine cuts the client's tokens into exactly these items. */
  lemma {:induction false} ClientItemsShape(o: Options)
    requires Acceptable(o) && PlainTokens(Split(o.bin, ' '))
    ensures Args.Flatten(ClientItems(o)) == Split(o.bin, ' ') + Tokens(o)
    ensures Args.Shaped(ClientItems(o))
  {
    hide Args.KindOf, Args.IsItem, Singles, LimitItems, LimitTokens, VectorItems, VectorTokens, FlagItems, FlagTokens,
         TmpfsItems, TmpfsOption, Split, Args.Flatten, Args.Shaped;
    var bin := Split(o.bin, ' ');
    SinglesFlatten(bin);
    LimitItemsShape(o);
    VectorItemsShape("mount", o.mounts);
    VectorItemsShape("volume", o.volumes);
    FlagItemsShape(o);
    TmpfsItemsShape(o.tmpfs);
    var a := Singles(bin);
    Both(a, LimitItems(o));
    var b := a + LimitItems(o);
    Both(b, VectorItems("mount", o.mounts));
    var c := b + VectorItems("mount", o.mounts);
    Both(c, VectorItems("volume", o.volumes));
    var d := c + VectorItems("volume", o.volumes);
    Both(d, FlagItems(o));
    Both(d + FlagItems(o), TmpfsItems(o.tmpfs));
    FivePieces(bin, LimitTokens(o), VectorTokens("mount", o.mounts), VectorTokens("volume", o.volumes),
               FlagTokens(o), TmpfsOption(o.tmpfs));
  }

  lemma Both(a: seq<Args.Item>, b: seq<Args.Item>)
    requires Args.Shaped(a) && Args.Shaped(b)
    ensures Args.Flatten(a + b) == Args.Flatten(a) + Args.Flatten(b) && Args.Shaped(a + b)
  {
    Args.FlattenAppend(a, b);
    ShapedAppend(a, b);
  }

  lemma {:induction false} FivePieces<T>(x: seq<T>, a: seq<T>, b: seq<T>, c: seq<T>, d: seq<T>, e: seq<T>)
    ensures x + a + b + c + d + e == x + (a + b + c + d + e)
  {
    Assoc(x, a, b);
    Assoc(x, a + b, c);
    Assoc(x, a + b + c, d);
    Assoc(x, a + b + c + d, e);
  }

  function WithLimits(p: Args.Params, o: Options): Args.Params {
    p.(limits := Args.Limits(
         ValueOr(o.memory, DEFAULT_MEMORY_IN_BYTES), DEFAULT_CPU_SHARES, DEFAULT_CPU_PERIOD, DEFAULT_CPU_QUOTA,
         ValueOr(o.readBps, DEFAULT_DEVICE_READ_BPS), ValueOr(o.writeBps, DEFAULT_DEVICE_WRITE_BPS)),
       name := Some(o.name))
  }

  lemma {:induction false} CpuMeaning(items: seq<Args.Item>, o: Options)
    ensures var p, it := Args.Meaning(items), LimitItems(o);
            Args.Meaning(items + [it[0]] + [it[1]] + [it[2]] + [it[3]]) ==
              p.(limits := p.limits.(memory := ValueOr(o.memory, DEFAULT_MEMORY_IN_BYTES),
                                     cpuShares := DEFAULT_CPU_SHARES, cpuPeriod := DEFAULT_CPU_PERIOD,
                                     cpuQuota := DEFAULT_CPU_QUOTA))
  {
    hide Args.Meaning, Args.KindOf, ValueOr;
    KindsOfFlags();
    var it := LimitItems(o);
    var a := items + [it[0]];
    var b := a + [it[1]];
    Args.MeaningSnoc(items, it[0]);
    Args.MeaningSnoc(a, it[1]);
    Args.MeaningSnoc(b, it[2]);
    Args.MeaningSnoc(b + [it[2]], it[3]);
  }

  lemma {:induction false} DeviceMeaning(items: seq<Args.Item>, o: Options)
    ensures var p, it := Args.Meaning(items), LimitItems(o);
            Args.Meaning(items + [it[4]] + [it[5]] + [it[6]]) ==
              p.(limits := p.limits.(readBps := ValueOr(o.readBps, DEFAULT_DEVICE_READ_BPS),
                                     writeBps := ValueOr(o.writeBps, DEFAULT_DEVICE_WRITE_BPS)),
                 name := Some(o.name))
  {
    hide Args.Meaning, Args.KindOf, ValueOr;
    KindsOfFlags();
    var it := LimitItems(o);
    var a := items + [it[4]];
    Args.MeaningSnoc(items, it[4]);
    Args.MeaningSnoc(a, it[5]);
    Args.MeaningSnoc(a + [it[5]], it[6]);
  }

  lemma {:induction false} LimitsMeaning(items: seq<Args.Item>, o: Options)
    ensures Args.Meaning(items + LimitItems(o)) == WithLimits(Args.Meaning(items), o)
  {
    hide Args.Meaning, ValueOr;
    var it := LimitItems(o);
    var cpu := items + [it[0]] + [it[1]] + [it[2]] + [it[3]];
    CpuMeaning(items, o);
    DeviceMeaning(cpu, o);
    assert items + it == cpu + [it[4]] + [it[5]] + [it[6]];
  }

  lemma VectorMeaning(items: seq<Args.Item>, param: string, given: Option<seq<string>>)
    requires GoodPairs(given) && (param == "mount" || param == "volume")
    ensures var p := Args.Meaning(items);
            var q := p.(command := p.command + EmptyIfGiven(given));
            Args.Meaning(items + VectorItems(param, given)) ==
              if param == "mount" then q.(mounts := q.mounts + PairList(ValuesOf(given)))
              else q.(volumes := q.volumes + PairList(ValuesOf(given)))
  {
    hide Args.Meaning, Args.KindOf, PairItems;
    var p := Args.Meaning(items);
    if given.None? {
      assert items + [] == items && p.command + [] == p.command;
      assert p.mounts + [] == p.mounts && p.volumes + [] == p.volumes;
    } else {
      FlagsStartWithDash("");
      Args.MeaningSnoc(items, [""]);
      PairItemsMeaning(items + [[""]], param, given.value);
      Assoc(items, [[""]], PairItems(param, given.value));
    }
  }

  lemma FlagsMeaning(items: seq<Args.Item>, o: Options)
    ensures var p := Args.Meaning(items);
            Args.Meaning(items + FlagItems(o)) ==
              p.(netns := p.netns || o.netns, detached := p.detached || o.detach)
  {
    hide Args.Meaning, Args.KindOf;
    KindsOfFlags();
    var n, d := ["--netns", "True"], ["-d"];
    Args.MeaningSnoc(items, n);
    Args.MeaningSnoc(items, d);
    Args.MeaningSnoc(items + [n], d);
    assert items + FlagItems(o) ==
           if o.netns && o.detach then items + [n] + [d]
           else if o.netns then items + [n] else if o.detach then items + [d] else items;
  }

  lemma TmpfsMeaning(items: seq<Args.Item>, given: Option<seq<string>>)
    requires GoodTmpfs(given)
    ensures var p := Args.Meaning(items);
            Args.Meaning(items + TmpfsItems(given)) ==
              if given.None? then p
              else p.(tmpfs := Some(Args.Tmpfs("", given.value[0], given.value[1])),
                      command := p.command + ["--nr_inodes", given.value[2]])
  {
    hide Args.Meaning, Args.KindOf, IsAmount;
    if given.None? {
      assert items + [] == items;
    } else {
      var v, p := given.value, Args.Meaning(items);
      KindsOfFlags();
      AmountIsPlain(v[2]);
      var it := TmpfsItems(given);
      var a := items + [it[0]];
      var b := a + [it[1]];
      Args.MeaningSnoc(items, it[0]);
      Args.MeaningSnoc(a, it[1]);
      Args.MeaningSnoc(b, it[2]);
      assert items + it == b + [it[2]];
      assert p.command + ["--nr_inodes"] + [v[2]] == p.command + ["--nr_inodes", v[2]];
    }
  }

  lemma NothingButBin(tokens: seq<string>)
    requires PlainTokens(tokens)
    ensures Args.Meaning(Singles(tokens)) ==
            Args.Params(Args.DEFAULT_LIMITS, None, None, None, false, [], [], None, None, false, tokens)
  {
    Args.NothingMeant();
    hide Args.Meaning;
    SinglesMeaning([], tokens);
    assert [] + Singles(tokens) == Singles(tokens) && [] + tokens == tokens;
  }

  /** What the engine understands of the client's items, option by option. */
  lemma {:induction false} ClientMeaning(o: Options)
    requires Acceptable(o) && PlainTokens(Split(o.bin, ' '))
    ensures Args.Meaning(ClientItems(o)) == Recovered(o)
  {
    hide Args.Meaning, Args.KindOf, Split, Singles, LimitItems, VectorItems, FlagItems, TmpfsItems, PairList,
         ValueOr, PlainTokens;
    var bin := Split(o.bin, ' ');
    NothingButBin(bin);
    var a := Singles(bin);
    LimitsMeaning(a, o);
    var b := a + LimitItems(o);
    VectorMeaning(b, "mount", o.mounts);
    var c := b + VectorItems("mount", o.mounts);
    VectorMeaning(c, "volume", o.volumes);
    var d := c + VectorItems("volume", o.volumes);
    FlagsMeaning(d, o);
    TmpfsMeaning(d + FlagItems(o), o.tmpfs);
    assert [] + PairList(ValuesOf(o.mounts)) == PairList(ValuesOf(o.mounts));
    assert [] + PairList(ValuesOf(o.volumes)) == PairList(ValuesOf(o.volumes));
  }

  /** No value that is printed holds a space. Amounts never do. */
  predicate SpaceFree(o: Options) {
    && ' ' !in o.name
    && (forall v :: v in ValuesOf(o.mounts) ==> ' ' !in v)
    && (forall v :: v in ValuesOf(o.volumes) ==> ' ' !in v)
    && (o.tmpfs.Some? && |o.tmpfs.value| > 0 ==> ' ' !in o.tmpfs.value[0])
  }

  lemma {:induction false} PairTokensFree(param: string, values: seq<string>)
    requires ' ' !in param && forall v :: v in values ==> ' ' !in v
    ensures Free(PairTokens(param, values), ' ')
  {
    if values != [] {
      PairTokensFree(param, Front(values));
      assert Last(values) in values;
      assert ' ' !in "--" + param;
    }
  }

  lemma {:induction false} AmountsFree(o: Options)
    requires Acceptable(o)
    ensures Free([ValueOr(o.memory, DEFAULT_MEMORY_IN_BYTES), ValueOr(o.readBps, DEFAULT_DEVICE_READ_BPS),
                  ValueOr(o.writeBps, DEFAULT_DEVICE_WRITE_BPS)], ' ')
    ensures o.tmpfs.Some? ==> ' ' !in o.tmpfs.value[1] && ' ' !in o.tmpfs.value[2]
  {
    hide IsAmount, Args.KindOf;
    DefaultsAreAmounts();
    AmountIsPlain(ValueOr(o.memory, DEFAULT_MEMORY_IN_BYTES));
    AmountIsPlain(ValueOr(o.readBps, DEFAULT_DEVICE_READ_BPS));
    AmountIsPlain(ValueOr(o.writeBps, DEFAULT_DEVICE_WRITE_BPS));
    if o.tmpfs.Some? {
      AmountIsPlain(o.tmpfs.value[1]);
      AmountIsPlain(o.tmpfs.value[2]);
    }
  }

  lemma FreeAppend(a: seq<string>, b: seq<string>)
    requires Free(a, ' ') && Free(b, ' ')
    ensures Free(a + b, ' ')
  {
  }

  lemma {:induction false} LimitTokensFree(o: Options)
    requires Acceptable(o) && SpaceFree(o)
    ensures Free(LimitTokens(o), ' ')
  {
    hide IsAmount;
    AmountsFree(o);
    var amounts := [ValueOr(o.memory, DEFAULT_MEMORY_IN_BYTES), ValueOr(o.readBps, DEFAULT_DEVICE_READ_BPS),
                    ValueOr(o.writeBps, DEFAULT_DEVICE_WRITE_BPS)];
    assert amounts[0] in amounts && amounts[1] in amounts && amounts[2] in amounts;
  }

  lemma VectorTokensFree(param: string, given: Option<seq<string>>)
    requires ' ' !in param && forall v :: v in ValuesOf(given) ==> ' ' !in v
    ensures Free(VectorTokens(param, given), ' ')
  {
    if given.Some? {
      PairTokensFree(param, given.value);
      FreeAppend([""], PairTokens(param, given.value));
    }
  }

  lemma TokensFree(o: Options)
    requires Acceptable(o) && SpaceFree(o)
    ensures Free(Tokens(o), ' ')
  {
    LimitTokensFree(o);
    VectorTokensFree("mount", o.mounts);
    VectorTokensFree("volume", o.volumes);
    AmountsFree(o);
    assert Free(FlagTokens(o), ' ');
    assert Free(TmpfsOption(o.tmpfs), ' ');
    hide LimitTokens, VectorTokens, FlagTokens, TmpfsOption, Free;
    var a := LimitTokens(o) + VectorTokens("mount", o.mounts);
    FreeAppend(LimitTokens(o), VectorTokens("mount", o.mounts));
    FreeAppend(a, VectorTokens("volume", o.volumes));
    FreeAppend(a + VectorTokens("volume", o.volumes), FlagTokens(o));
    FreeAppend(a + VectorTokens("volume", o.volumes) + FlagTokens(o), TmpfsOption(o.tmpfs));
  }

  /** The line that the client sends for a container. */
  function Line(o: Options): string
    requires Acceptable(o)
  {
    o.bin + Lead(Tokens(o))
  }

  /** Round trip of the text: what the client prints, split on single spaces and cut by
      the engine's rules, means what Recovered says, whatever the values look like; and
      that is what was asked for if and only if no mounts, no volumes and no tmpfs were.
      Without tmpfs only the command is not what was asked for. */
  lemma {:induction false} RoundTrip(o: Options)
    requires Acceptable(o) && SpaceFree(o) && PlainTokens(Split(o.bin, ' '))
    ensures Args.Items(Split(Line(o), ' ')) == Some(ClientItems(o))
    ensures Args.Meaning(ClientItems(o)) == Recovered(o)
    ensures Recovered(o) == Intended(o) <==> o.tmpfs.None? && o.mounts.None? && o.volumes.None?
    ensures o.tmpfs.None? <==> Recovered(o) == Intended(o).(command := Recovered(o).command)
  {
    hide Args.Items, Args.Meaning, Args.KindOf, ClientItems, Tokens, PlainTokens, SpaceFree, Split;
    TokensFree(o);
    SplitLead(o.bin, Tokens(o));
    ClientItemsShape(o);
    Args.ItemsOfFlatten(ClientItems(o));
    ClientMeaning(o);
    CommandLonger(Split(o.bin, ' '), o.mounts, o.volumes);
    if o.tmpfs.Some? {
      assert o.tmpfs.value[1] != "";
    }
  }

  lemma {:induction false} CommandLonger(bin: seq<string>, mounts: Option<seq<string>>, volumes: Option<seq<string>>)
    ensures var command := bin + EmptyIfGiven(mounts) + EmptyIfGiven(volumes);
            command == bin <==> mounts.None? && volumes.None?
  {
    assert |bin + EmptyIfGiven(mounts) + EmptyIfGiven(volumes)|
        == |bin| + (if mounts.None? then 0 else 1) + (if volumes.None? then 0 else 1);
  }

  lemma BashRoundTrip(o: Options)
    requires o == BASH.(mounts := o.mounts, tmpfs := o.tmpfs) && Acceptable(o) && SpaceFree(o)
    ensures Args.Items(Split(Line(o), ' ')).Some?
    ensures Args.Meaning(Args.Items(Split(Line(o), ' ')).value) == Recovered(o)
    ensures Intended(o).command == ["bash"]
  {
    hide Args.Items, Args.Meaning, Line, Recovered, Acceptable, SpaceFree;
    SplitNone("bash", ' ');
    FlagsStartWithDash("bash");
    RoundTrip(o);
  }

  /** With one mount the program gets an empty argument that nobody gave. */
  lemma {:induction false} MountLeavesEmptyArgument()
    ensures var o := BASH.(mounts := Some(["a", "b"]));
            && Acceptable(o) && Args.Items(Split(Line(o), ' ')).Some?
            && Args.Meaning(Args.Items(Split(Line(o), ' ')).value).command == ["bash", ""]
            && Intended(o).command == ["bash"]
  {
    hide Args.Items, Args.Meaning, Args.KindOf, Line, Split;
    BashRoundTrip(BASH.(mounts := Some(["a", "b"])));
  }

  /** A tmpfs asked for at t with size 1g and 2k nodes becomes one at the empty path with
      size t and 1g nodes, and the program gets two more arguments. */
  lemma {:induction false} TmpfsMoved()
    ensures var o := BASH.(tmpfs := Some(["t", "1g", "2k"]));
            && Acceptable(o) && Args.Items(Split(Line(o), ' ')).Some?
            && var p := Args.Meaning(Args.Items(Split(Line(o), ' ')).value);
               && p.tmpfs == Some(Args.Tmpfs("", "t", "1g")) && p.command == ["bash", "--nr_inodes", "2k"]
               && Intended(o).tmpfs == Some(Args.Tmpfs("t", "1g", "2k")) && Intended(o).command == ["bash"]
  {
    hide Args.Items, Args.Meaning, Args.KindOf, Line, Split;
    BashRoundTrip(BASH.(tmpfs := Some(["t", "1g", "2k"])));
  }

  /** A line that starts with the name of no other program goes to the engine whole. */
  predicate ForEngine(bin: string) {
    Split(bin, ' ')[0] != "ps" && Split(bin, ' ')[0] != "delete"
  }

  /** A container's line goes to the engine, and whole, if and only if its program is not
      called like one of the server's own. */
  lemma {:induction false} EngineArgv(o: Options)
    requires Acceptable(o) && SpaceFree(o)
    ensures ExecArgs(Line(o)) == ["./islander_engine"] + Split(Line(o), ' ') <==> ForEngine(o.bin)
    ensures ExecArgs(Line(o))[0] == "./islander_engine" <==> ForEngine(o.bin)
  {
    hide Tokens, SpaceFree, Split;
    TokensFree(o);
    SplitLead(o.bin, Tokens(o));
    assert (Split(o.bin, ' ') + Tokens(o))[0] == Split(o.bin, ' ')[0];
  }

  lemma {:induction false} FirstLine(line: string, more: string)
    requires '\n' !in line
    ensures Split(line + "\n" + more, '\n') == [line] + Split(more, '\n')
  {
    SplitAt(line, '\n', more);
    SplitNone(line, '\n');
  }

  lemma {:induction false} TypedRest(s: Session.State, line: string, more: string)
    requires SessionProperties.Serving(s, line + "\n" + more) && '\n' !in line
    ensures s.launches == [line] && s.typed + s.accumulated == more
  {
    hide Split, Session.Terminated;
    FirstLine(line, more);
    var parts := Split(line + "\n" + more, '\n');
    SessionProperties.FrontLast([line], Split(more, '\n'));
    assert Front(parts) == [line] + Front(Split(more, '\n'));
    assert Front(parts)[1..] == Front(Split(more, '\n'));
    SessionProperties.JoinLast(Front(Split(more, '\n')), Last(Split(more, '\n')));
    assert Split(more, '\n') == Front(Split(more, '\n')) + [Last(Split(more, '\n'))];
    JoinSplit(more, '\n');
  }

  /** The lines for other programs: delete with the name of an isle, ps, and attach, which
      is the engine's. Names with spaces arrive in pieces. */
  lemma {:induction false} OtherPrograms(o: Options)
    requires Acceptable(o)
    ensures o.delete != "" ==> ExecArgs(ClientLine(o)) == ["./delete"] + Split(o.delete, ' ')
    ensures o.delete == "" && o.ps ==> ExecArgs(ClientLine(o)) == ["./ps"]
    ensures o.delete == "" && !o.ps && o.attach != "" ==>
              ExecArgs(ClientLine(o)) == ["./islander_engine", "attach"] + Split(o.attach, ' ')
  {
    hide Split, Tokens, Lead;
    assert "delete" + " " == "delete " && "attach" + " " == "attach ";
    FirstToken("delete", o.delete);
    FirstToken("attach", o.attach);
    SplitNone("ps", ' ');
  }

  lemma {:induction false} FirstToken(word: string, rest: string)
    requires ' ' !in word
    ensures Split(word + " " + rest, ' ') == [word] + Split(rest, ' ')
    ensures ([word] + Split(rest, ' '))[0] == word && ([word] + Split(rest, ' '))[1..] == Split(rest, ' ')
    ensures ["./islander_engine"] + ([word] + Split(rest, ' ')) == ["./islander_engine", word] + Split(rest, ' ')
  {
    SplitAt(word, ' ', rest);
    SplitNone(word, ' ');
  }

  /** An isle that is to run ps never reaches the engine. */
  lemma {:induction false} PsIsNotRun()
    ensures Acceptable(BASH.(bin := "ps")) && ExecArgs(Line(BASH.(bin := "ps")))[0] == "./ps"
  {
    var o := BASH.(bin := "ps");
    TokensFree(o);
    SplitLead(o.bin, Tokens(o));
    SplitNone("ps", ' ');
  }

  /** From the client's options to a program with its arguments: once the client has been
      authenticated and its line has arrived, followed by whatever is typed later, all cut
      into chunks in any way, the session has launched exactly that line and handed the
      rest on. The program is delete, ps or the engine, as the options say; and for a
      container, the engine is given arguments that mean what Recovered says. */
  lemma {:induction false} EndToEnd(es: seq<Session.Event>, k: nat, o: Options, more: string)
    requires SessionProperties.AuthAt(es, k) && Acceptable(o)
    requires '\n' !in ClientLine(o) && SessionProperties.Stream(es[k + 1..]) == ClientLine(o) + "\n" + more
    ensures var s, args := Session.Run(Session.INIT, es), ExecArgs(ClientLine(o));
            && s.launches == [ClientLine(o)] && s.typed + s.accumulated == more && '\n' !in s.accumulated
            && (o.delete != "" ==> args == ["./delete"] + Split(o.delete, ' '))
            && (o.delete == "" && o.ps ==> args == ["./ps"])
            && (o.delete == "" && !o.ps && o.attach != "" ==>
                  args == ["./islander_engine", "attach"] + Split(o.attach, ' '))
            && (IsContainer(o) && SpaceFree(o) && PlainTokens(Split(o.bin, ' ')) && ForEngine(o.bin) ==>
                  && args[0] == "./islander_engine" && |args| >= 2
                  && Args.Items(args[1..]).Some? && Args.Meaning(Args.Items(args[1..]).value) == Recovered(o))
  {
    hide Args.Items, Args.Meaning, ClientItems, Recovered, Acceptable, SpaceFree, PlainTokens, Session.Run, Split,
         SessionProperties.AuthAt, SessionProperties.Stream, SessionProperties.Serving, ExecArgs, Tokens, Lead,
         ForEngine;
    SessionProperties.AfterAuth(es, k);
    SessionProperties.Conservation(es, k);
    TypedRest(Session.Run(Session.INIT, es), ClientLine(o), more);
    OtherPrograms(o);
    if IsContainer(o) && SpaceFree(o) && PlainTokens(Split(o.bin, ' ')) && ForEngine(o.bin) {
      EngineArgv(o);
      RoundTrip(o);
      assert ExecArgs(Line(o))[1..] == Split(Line(o), ' ');
    }
  }

  predicate IsContainer(o: Options) {
    o.delete == "" && !o.ps && o.attach == ""
  }
}
