/** The engine's argument parser: options that are 1, 2, 5 or 7 tokens wide are taken
    out of argv, and what is left is the command to run. */
module EngineArgs {
  import opened Text

  datatype Kind =
    | Memory | CpuShares | CpuPeriod | CpuQuota | ReadBps | WriteBps
    | Aws | Az | Gcp | Detach | Mount | Volume | TmpfsMount | Name | Netns | Plain

  /** The branch of the parser that a token takes when it is examined. */
  function KindOf(token: string): Kind {
    if token == "--memory-in-bytes" then Memory
    else if token == "--cpu-shares" then CpuShares
    else if token == "--cpu-period" then CpuPeriod
    else if token == "--cpu-quota" then CpuQuota
    else if token == "--device-read-bps" then ReadBps
    else if token == "--device-write-bps" then WriteBps
    else if token == "--mount-aws" then Aws
    else if token == "--mount-az" then Az
    else if token == "--mount-gcp" then Gcp
    else if token == "--detach" || token == "-d" then Detach
    else if token == "--mount" then Mount
    else if token == "--volume" then Volume
    else if token == "--tmpfs" then TmpfsMount
    else if token == "--name" then Name
    else if token == "--netns" then Netns
    else Plain
  }

  function Width(kind: Kind): (w: nat)
    ensures w >= 1
  {
    match kind
    case Detach => 1
    case Plain => 1
    case Aws => 5
    case Az => 5
    case Gcp => 5
    case Mount => 5
    case Volume => 5
    case TmpfsMount => 7
    case _ => 2
  }

  predicate IsLimit(kind: Kind) {
    kind.Memory? || kind.CpuShares? || kind.CpuPeriod? || kind.CpuQuota? || kind.ReadBps? || kind.WriteBps?
  }

  /** An option with all its tokens, or one token of the command. */
  type Item = seq<string>

  ghost predicate IsItem(item: Item) {
    |item| >= 1 && |item| == Width(KindOf(item[0]))
  }

  ghost predicate Shaped(items: seq<Item>) {
    forall i :: 0 <= i < |items| ==> IsItem(items[i])
  }

  function Flatten(items: seq<Item>): seq<string> {
    if items == [] then [] else items[0] + Flatten(items[1..])
  }

  /** The complete items that the tokens are cut into from the left. */
  function Complete(ts: seq<string>): seq<Item> {
    if ts == [] then []
    else
      var w := Width(KindOf(ts[0]));
      if w > |ts| then [] else [ts[..w]] + Complete(ts[w..])
  }

  /** What is left of the tokens behind them: an option that lacks some of its tokens. */
  function Rest(ts: seq<string>): seq<string> {
    if ts == [] then []
    else
      var w := Width(KindOf(ts[0]));
      if w > |ts| then ts else Rest(ts[w..])
  }

  /** Nothing, or an option that lacks some of its tokens. */
  predicate Lacking(rest: seq<string>) {
    rest != [] ==> |rest| < Width(KindOf(rest[0]))
  }

  /** The items of tokens of which nothing is left over. */
  function Items(ts: seq<string>): Option<seq<Item>> {
    if Rest(ts) == [] then Some(Complete(ts)) else None
  }

  lemma {:induction false} CutCover(ts: seq<string>)
    ensures Flatten(Complete(ts)) + Rest(ts) == ts && Shaped(Complete(ts)) && Lacking(Rest(ts))
    decreases |ts|
  {
    hide KindOf, Width;
    if ts != [] {
      var w := Width(KindOf(ts[0]));
      if w <= |ts| {
        CutCover(ts[w..]);
        var items := Complete(ts);
        assert items[1..] == Complete(ts[w..]) && ts == ts[..w] + ts[w..];
        Assoc(ts[..w], Flatten(items[1..]), Rest(ts));
        assert forall i :: 1 <= i < |items| ==> items[i] == items[1..][i - 1];
      }
    }
  }

  lemma {:induction false} CutStep(item: Item, ts: seq<string>)
    requires IsItem(item)
    ensures Complete(item + ts) == [item] + Complete(ts) && Rest(item + ts) == Rest(ts)
  {
    hide KindOf, Width;
    assert (item + ts)[0] == item[0] && (item + ts)[..|item|] == item && (item + ts)[|item|..] == ts;
  }

  lemma CutNone(rest: seq<string>)
    requires Lacking(rest)
    ensures Complete([] + rest) == [] && Rest([] + rest) == rest
  {
    assert [] + rest == rest;
  }

  lemma ShapedTail(items: seq<Item>)
    requires Shaped(items) && items != []
    ensures IsItem(items[0]) && Shaped(items[1..]) && [items[0]] + items[1..] == items
  {
    hide IsItem;
    assert forall i :: 0 <= i < |items[1..]| ==> items[1..][i] == items[i + 1];
  }

  lemma {:induction false} CutOnly(items: seq<Item>, rest: seq<string>)
    requires Shaped(items) && Lacking(rest)
    ensures Complete(Flatten(items) + rest) == items && Rest(Flatten(items) + rest) == rest
  {
    hide Complete, Rest, Shaped, Lacking, IsItem;
    if items == [] {
      CutNone(rest);
    } else {
      ShapedTail(items);
      CutOnly(items[1..], rest);
      CutStep(items[0], Flatten(items[1..]) + rest);
      Assoc(items[0], Flatten(items[1..]), rest);
    }
  }

  /** Every token belongs to exactly one item or to the rest, in order: the cut is the only
      one whose pieces are as wide as their first tokens say and whose rest is less wide. */
  lemma {:induction false} CutIff(ts: seq<string>, items: seq<Item>, rest: seq<string>)
    ensures Complete(ts) == items && Rest(ts) == rest
       <==> Flatten(items) + rest == ts && Shaped(items) && Lacking(rest)
  {
    hide KindOf;
    CutCover(ts);
    if Flatten(items) + rest == ts && Shaped(items) && Lacking(rest) {
      CutOnly(items, rest);
    }
  }

  lemma {:induction false} ItemsCover(ts: seq<string>)
    requires Items(ts).Some?
    ensures Flatten(Items(ts).value) == ts && Shaped(Items(ts).value)
  {
    hide KindOf, Complete, Rest;
    CutCover(ts);
    assert Flatten(Complete(ts)) + [] == Flatten(Complete(ts));
  }

  lemma {:induction false} ItemsOfFlatten(items: seq<Item>)
    requires Shaped(items)
    ensures Items(Flatten(items)) == Some(items)
  {
    hide KindOf, Complete, Rest;
    CutOnly(items, []);
    assert Flatten(items) + [] == Flatten(items);
  }

  /** The same for tokens of which nothing is left over. */
  lemma {:induction false} ItemsIff(ts: seq<string>, items: seq<Item>)
    ensures Items(ts) == Some(items) <==> Flatten(items) == ts && Shaped(items)
  {
    hide KindOf, Complete, Rest, Flatten, Shaped;
    if Items(ts) == Some(items) {
      ItemsCover(ts);
    }
    if Flatten(items) == ts && Shaped(items) {
      ItemsOfFlatten(items);
    }
  }

  lemma {:induction false} FlattenAppend(a: seq<Item>, b: seq<Item>)
    ensures Flatten(a + b) == Flatten(a) + Flatten(b)
  {
    if a == [] {
      assert a + b == b;
    } else {
      FlattenAppend(a[1..], b);
      assert (a + b)[1..] == a[1..] + b;
      Assoc(a[0], Flatten(a[1..]), Flatten(b));
    }
  }

  datatype Limits = Limits(memory: string, cpuShares: string, cpuPeriod: string, cpuQuota: string,
                           readBps: string, writeBps: string)
  datatype Pair = Pair(src: string, dst: string)
  datatype Tmpfs = Tmpfs(dst: string, size: string, inodes: string)
  datatype Params = Params(
    limits: Limits, aws: Option<Pair>, az: Option<Pair>, gcp: Option<Pair>, detached: bool,
    mounts: seq<Pair>, volumes: seq<Pair>, tmpfs: Option<Tmpfs>, name: Option<string>,
    netns: bool, command: seq<string>)

  const DEFAULT_LIMITS: Limits :=
    Limits("500M", "100", "1000000", "100000", "524288000", "104857600")

  /** The items of one kind, in order. */
  function Of(items: seq<Item>, kind: Kind): seq<Item> {
    if items == [] then []
    else if Last(items) != [] && KindOf(Last(items)[0]) == kind then Of(Front(items), kind) + [Last(items)]
    else Of(Front(items), kind)
  }

  lemma {:induction false} OfShaped(items: seq<Item>, kind: Kind)
    requires Shaped(items)
    ensures forall i :: 0 <= i < |Of(items, kind)| ==> |Of(items, kind)[i]| == Width(kind)
  {
    if items != [] {
      assert IsItem(items[|items| - 1]);
      OfShaped(Front(items), kind);
    }
  }

  /** The operand of the last option of this kind, if there is one. */
  function LastOperand(items: seq<Item>, kind: Kind): Option<string> {
    var found := Of(items, kind);
    if found == [] || |Last(found)| < 2 then None else Some(Last(found)[1])
  }

  function OrElse(given: Option<string>, default: string): string {
    if given.Some? then given.value else default
  }

  function PairOf(item: Item): Pair {
    if |item| < 5 then Pair("", "") else Pair(item[2], item[4])
  }

  function PairsOf(items: seq<Item>): seq<Pair> {
    seq(|items|, i requires 0 <= i < |items| => PairOf(items[i]))
  }

  function LastPair(items: seq<Item>, kind: Kind): Option<Pair> {
    var found := Of(items, kind);
    if found == [] then None else Some(PairOf(Last(found)))
  }

  function LastTmpfs(items: seq<Item>): Option<Tmpfs> {
    var found := Of(items, TmpfsMount);
    if found == [] || |Last(found)| < 7 then None
    else Some(Tmpfs(Last(found)[2], Last(found)[4], Last(found)[6]))
  }

  /** What a list of items asks for, said once for the whole list: of every option that
      holds one value the last one counts, mounts and volumes are all kept in order, and
      the command is made of all plain tokens in order. */
  function Meaning(items: seq<Item>): Params {
    Params(
      Limits(
        OrElse(LastOperand(items, Memory), DEFAULT_LIMITS.memory),
        OrElse(LastOperand(items, CpuShares), DEFAULT_LIMITS.cpuShares),
        OrElse(LastOperand(items, CpuPeriod), DEFAULT_LIMITS.cpuPeriod),
        OrElse(LastOperand(items, CpuQuota), DEFAULT_LIMITS.cpuQuota),
        OrElse(LastOperand(items, ReadBps), DEFAULT_LIMITS.readBps),
        OrElse(LastOperand(items, WriteBps), DEFAULT_LIMITS.writeBps)),
      LastPair(items, Aws), LastPair(items, Az), LastPair(items, Gcp),
      Of(items, Detach) != [],
      PairsOf(Of(items, Mount)), PairsOf(Of(items, Volume)),
      LastTmpfs(items), LastOperand(items, Name),
      LastOperand(items, Netns) == Some("True"),
      Flatten(Of(items, Plain)))
  }

  /** What one more item changes. */
  function Apply(p: Params, item: Item): Params
    requires |item| >= 1 && |item| == Width(KindOf(item[0]))
  {
    match KindOf(item[0])
    case Memory => p.(limits := p.limits.(memory := item[1]))
    case CpuShares => p.(limits := p.limits.(cpuShares := item[1]))
    case CpuPeriod => p.(limits := p.limits.(cpuPeriod := item[1]))
    case CpuQuota => p.(limits := p.limits.(cpuQuota := item[1]))
    case ReadBps => p.(limits := p.limits.(readBps := item[1]))
    case WriteBps => p.(limits := p.limits.(writeBps := item[1]))
    case Aws => p.(aws := Some(Pair(item[2], item[4])))
    case Az => p.(az := Some(Pair(item[2], item[4])))
    case Gcp => p.(gcp := Some(Pair(item[2], item[4])))
    case Detach => p.(detached := true)
    case Mount => p.(mounts := p.mounts + [Pair(item[2], item[4])])
    case Volume => p.(volumes := p.volumes + [Pair(item[2], item[4])])
    case TmpfsMount => p.(tmpfs := Some(Tmpfs(item[2], item[4], item[6])))
    case Name => p.(name := Some(item[1]))
    case Netns => p.(netns := item[1] == "True")
    case Plain => p.(command := p.command + [item[0]])
  }

  lemma {:induction false} OfSnoc(items: seq<Item>, item: Item, kind: Kind)
    requires item != []
    ensures Of(items + [item], kind) == Of(items, kind) + if KindOf(item[0]) == kind then [item] else []
  {
    assert Front(items + [item]) == items;
  }

  lemma PairsSnoc(items: seq<Item>, item: Item)
    ensures PairsOf(items + [item]) == PairsOf(items) + [PairOf(item)]
  {
  }

  lemma LastSnoc<T>(a: seq<T>, x: T)
    ensures Last(a + [x]) == x && a + [] == a
  {
  }

  lemma FlattenSnoc(items: seq<Item>, item: Item)
    ensures Flatten(items + [item]) == Flatten(items) + item
  {
    FlattenAppend(items, [item]);
    assert [item][1..] == [];
  }

  lemma {:induction false} OperandSnoc(items: seq<Item>, item: Item, kind: Kind)
    requires IsItem(item) && Width(kind) == 2
    ensures LastOperand(items + [item], kind)
         == if KindOf(item[0]) == kind then Some(item[1]) else LastOperand(items, kind)
  {
    hide KindOf;
    OfSnoc(items, item, kind);
    LastSnoc(Of(items, kind), item);
  }

  lemma {:induction false} PairSnoc(items: seq<Item>, item: Item, kind: Kind)
    requires IsItem(item) && Width(kind) == 5
    ensures var here := KindOf(item[0]) == kind;
            && LastPair(items + [item], kind)
               == (if here then Some(Pair(item[2], item[4])) else LastPair(items, kind))
            && PairsOf(Of(items + [item], kind))
               == PairsOf(Of(items, kind)) + if here then [Pair(item[2], item[4])] else []
  {
    hide KindOf;
    OfSnoc(items, item, kind);
    LastSnoc(Of(items, kind), item);
    PairsSnoc(Of(items, kind), item);
    assert PairsOf(Of(items, kind)) + [] == PairsOf(Of(items, kind));
  }

  lemma {:induction false} TmpfsSnoc(items: seq<Item>, item: Item)
    requires IsItem(item)
    ensures LastTmpfs(items + [item])
         == if KindOf(item[0]) == TmpfsMount then Some(Tmpfs(item[2], item[4], item[6])) else LastTmpfs(items)
  {
    hide KindOf, Of;
    OfSnoc(items, item, TmpfsMount);
    LastSnoc(Of(items, TmpfsMount), item);
  }

  lemma {:induction false} PlainSnoc(items: seq<Item>, item: Item)
    requires IsItem(item)
    ensures Flatten(Of(items + [item], Plain))
         == Flatten(Of(items, Plain)) + if KindOf(item[0]) == Plain then [item[0]] else []
  {
    hide KindOf, Of, Flatten;
    OfSnoc(items, item, Plain);
    FlattenSnoc(Of(items, Plain), item);
    LastSnoc(Of(items, Plain), item);
    LastSnoc(Flatten(Of(items, Plain)), "");
    if KindOf(item[0]) == Plain {
      assert item == [item[0]];
    }
  }

  lemma {:induction false} DetachSnoc(items: seq<Item>, item: Item)
    requires IsItem(item)
    ensures Of(items + [item], Detach) != [] <==> Of(items, Detach) != [] || KindOf(item[0]) == Detach
  {
    hide KindOf, Of;
    OfSnoc(items, item, Detach);
  }

  lemma LimitsSnoc(items: seq<Item>, item: Item)
    requires IsItem(item)
    ensures Meaning(items + [item]).limits == Apply(Meaning(items), item).limits
    ensures Meaning(items + [item]).name == Apply(Meaning(items), item).name
    ensures Meaning(items + [item]).netns == Apply(Meaning(items), item).netns
  {
    hide KindOf, Of, Flatten, PairsOf, LastOperand, LastPair, LastTmpfs;
    OperandSnoc(items, item, Memory);
    OperandSnoc(items, item, CpuShares);
    OperandSnoc(items, item, CpuPeriod);
    OperandSnoc(items, item, CpuQuota);
    OperandSnoc(items, item, ReadBps);
    OperandSnoc(items, item, WriteBps);
    OperandSnoc(items, item, Name);
    OperandSnoc(items, item, Netns);
  }

  lemma CloudSnoc(items: seq<Item>, item: Item)
    requires IsItem(item)
    ensures Meaning(items + [item]).aws == Apply(Meaning(items), item).aws
    ensures Meaning(items + [item]).az == Apply(Meaning(items), item).az
    ensures Meaning(items + [item]).gcp == Apply(Meaning(items), item).gcp
  {
    hide KindOf, Of, Flatten, PairsOf, LastOperand, LastPair, LastTmpfs;
    PairSnoc(items, item, Aws);
    PairSnoc(items, item, Az);
    PairSnoc(items, item, Gcp);
  }

  lemma PairsMeaningSnoc(items: seq<Item>, item: Item)
    requires IsItem(item)
    ensures Meaning(items + [item]).mounts == Apply(Meaning(items), item).mounts
    ensures Meaning(items + [item]).volumes == Apply(Meaning(items), item).volumes
  {
    hide KindOf, Of, Flatten, PairsOf, LastOperand, LastPair, LastTmpfs;
    PairSnoc(items, item, Mount);
    PairSnoc(items, item, Volume);
    LastSnoc(PairsOf(Of(items, Mount)), Pair("", ""));
    LastSnoc(PairsOf(Of(items, Volume)), Pair("", ""));
  }

  lemma RestSnoc(items: seq<Item>, item: Item)
    requires IsItem(item)
    ensures Meaning(items + [item]).detached == Apply(Meaning(items), item).detached
    ensures Meaning(items + [item]).tmpfs == Apply(Meaning(items), item).tmpfs
    ensures Meaning(items + [item]).command == Apply(Meaning(items), item).command
  {
    hide KindOf, Of, Flatten, PairsOf, LastOperand, LastPair, LastTmpfs;
    DetachSnoc(items, item);
    TmpfsSnoc(items, item);
    PlainSnoc(items, item);
    LastSnoc(Flatten(Of(items, Plain)), "");
  }

  /** Taking one item after another gives the meaning of the whole list. */
  lemma {:induction false} MeaningSnoc(items: seq<Item>, item: Item)
    requires IsItem(item)
    ensures Meaning(items + [item]) == Apply(Meaning(items), item)
  {
    hide KindOf, Meaning, Apply, Width;
    LimitsSnoc(items, item);
    CloudSnoc(items, item);
    PairsMeaningSnoc(items, item);
    RestSnoc(items, item);
  }

  /** What tokens mean of which nothing is left over but a name option without its name:
      that takes the NULL behind argv, which stands for no name. */
  function Understood(ts: seq<string>): Params {
    var p := Meaning(Complete(ts));
    if Rest(ts) == [] then p else p.(name := None)
  }

  /** How parsing ends: no arguments at all; all taken; an option stores the NULL behind
      argv as its last operand; or one reads beyond that. */
  datatype Outcome = Exited | Parsed | NullOperand | PastEnd

  /** The engine's parameters. Mounts, volumes and the command are arrays of a fixed
      size that the parser fills from the front; the arrays of sources and of
      destinations, which always have the same index, are one array of pairs. */
  class ProcessParams {
    var limits: Limits
    var aws: Option<Pair>
    var az: Option<Pair>
    var gcp: Option<Pair>
    var isDetached: bool
    var isMount: bool
    var mnt: array<Pair>
    var mntNum: nat
    var isVolume: bool
    var vlm: array<Pair>
    var vlmNum: nat
    var tmpfs: Option<Tmpfs>
    var name: Option<string>
    var hasNetns: bool
    var argv: array<Option<string>>
    var argIdx: nat
    var argc: nat

    /** The defaults that are set before the arguments are read. */
    constructor ()
      ensures Blank()
    {
      limits := DEFAULT_LIMITS;
      aws, az, gcp, tmpfs, name := None, None, None, None, None;
      isDetached, isMount, isVolume, hasNetns := false, false, false, false;
      mntNum, vlmNum, argIdx, argc := 0, 0, 0, 0;
      mnt, vlm, argv := new Pair[0], new Pair[0], new Option<string>[0];
    }

    ghost predicate Blank()
      reads this
    {
      && limits == DEFAULT_LIMITS && aws.None? && az.None? && gcp.None? && tmpfs.None? && name.None?
      && !isDetached && !isMount && !isVolume && !hasNetns && mntNum == vlmNum == argIdx == 0
    }

    /** The counters stay inside the arrays, which are different ones, and the command's
        tokens are all there. */
    ghost predicate Valid()
      reads this, argv
    {
      && mntNum <= mnt.Length && vlmNum <= vlm.Length && argIdx <= argv.Length && mnt != vlm
      && (isMount <==> mntNum > 0) && (isVolume <==> vlmNum > 0)
      && forall k :: 0 <= k < argIdx ==> argv[k].Some?
    }

    /** Each array of pairs has room for a fifth of the tokens. */
    ghost predicate Sized()
      reads this
    {
      mnt.Length == vlm.Length == argv.Length / 5
    }

    /** How many tokens the stored ones have taken up at least. */
    ghost function Stored(): nat
      reads this
    {
      5 * (mntNum + vlmNum) + argIdx
    }

    /** The parameters as values; the command's tokens are those in front of argIdx. */
    ghost function View(): Params
      requires Valid()
      reads this, mnt, vlm, argv
    {
      Params(limits, aws, az, gcp, isDetached, mnt[..mntNum], vlm[..vlmNum], tmpfs, name, hasNetns,
             Strings(argv[..argIdx]))
    }

    lemma BlankMeansNothing()
      requires Blank() && Valid()
      ensures View() == Meaning([])
    {
      hide Meaning;
      NothingMeant();
      assert |Strings(argv[..argIdx])| == 0;
    }

    method AddMount(src: string, dst: string)
      requires Valid() && mntNum < mnt.Length
      modifies this`isMount, this`mntNum, mnt
      ensures Valid() && mntNum == old(mntNum) + 1
      ensures View() == old(View()).(mounts := old(View()).mounts + [Pair(src, dst)])
    {
      isMount := true;
      mnt[mntNum] := Pair(src, dst);
      mntNum := mntNum + 1;
      assert mnt[..mntNum] == old(mnt[..mntNum]) + [Pair(src, dst)];
    }

    method AddVolume(src: string, dst: string)
      requires Valid() && vlmNum < vlm.Length
      modifies this`isVolume, this`vlmNum, vlm
      ensures Valid() && vlmNum == old(vlmNum) + 1
      ensures View() == old(View()).(volumes := old(View()).volumes + [Pair(src, dst)])
    {
      isVolume := true;
      vlm[vlmNum] := Pair(src, dst);
      vlmNum := vlmNum + 1;
      assert vlm[..vlmNum] == old(vlm[..vlmNum]) + [Pair(src, dst)];
    }

    method AddArgument(token: string)
      requires Valid() && argIdx < argv.Length
      modifies this`argIdx, argv
      ensures Valid() && argIdx == old(argIdx) + 1
      ensures View() == old(View()).(command := old(View()).command + [token])
    {
      argv[argIdx] := Some(token);
      argIdx := argIdx + 1;
      assert argv[..argIdx] == old(argv[..argIdx]) + [Some(token)];
      StringsSnoc(old(argv[..argIdx]), token);
    }

    /** The resource limits. */
    method SetLimit(kind: Kind, item: Item)
      requires Valid() && IsItem(item) && kind == KindOf(item[0]) && IsLimit(kind)
      modifies this`limits
      ensures Valid() && View() == Apply(old(View()), item)
    {
      hide KindOf, Strings;
      match kind
      case Memory => limits := limits.(memory := item[1]);
      case CpuShares => limits := limits.(cpuShares := item[1]);
      case CpuPeriod => limits := limits.(cpuPeriod := item[1]);
      case CpuQuota => limits := limits.(cpuQuota := item[1]);
      case ReadBps => limits := limits.(readBps := item[1]);
      case WriteBps => limits := limits.(writeBps := item[1]);
    }

    /** The other options that hold one value each. */
    method SetOption(kind: Kind, item: Item)
      requires Valid() && IsItem(item) && kind == KindOf(item[0])
      requires !IsLimit(kind) && kind != Mount && kind != Volume && kind != Plain
      modifies this`aws, this`az, this`gcp, this`isDetached, this`tmpfs, this`name, this`hasNetns
      ensures Valid() && View() == Apply(old(View()), item)
    {
      hide KindOf, Strings;
      match kind
      case Aws => aws := Some(Pair(item[2], item[4]));
      case Az => az := Some(Pair(item[2], item[4]));
      case Gcp => gcp := Some(Pair(item[2], item[4]));
      case Detach => isDetached := true;
      case TmpfsMount => tmpfs := Some(Tmpfs(item[2], item[4], item[6]));
      case Name => name := Some(item[1]);
      case Netns => hasNetns := item[1] == "True";
    }

    /** The arrays for argc tokens: a fifth of them for each kind of pair. */
    method Allocate(count: nat)
      requires Blank()
      modifies this
      ensures Valid() && Blank() && Sized() && argv.Length == count
      ensures fresh(argv) && fresh(mnt) && fresh(vlm)
    {
      argv := new Option<string>[count](i => None);
      mnt := new Pair[count / 5];
      vlm := new Pair[count / 5];
      hasNetns := false;
    }

    /** One turn of the parser's loop, for an option whose tokens are all there. */
    method TakeItem(item: Item, ghost used: nat)
      requires Valid() && IsItem(item) && Sized()
      requires Stored() <= used && used + |item| < argv.Length
      modifies this`limits, this`aws, this`az, this`gcp, this`isDetached, this`tmpfs, this`name, this`hasNetns
      modifies this`isMount, this`mntNum, mnt, this`isVolume, this`vlmNum, vlm, this`argIdx, argv
      ensures Valid() && View() == Apply(old(View()), item) && Stored() <= used + |item|
    {
      hide KindOf, Apply, View, Valid, IsItem, Width, IsLimit, Strings;
      ItemWidths(item);
      ApplyIs(View(), item);
      var kind := KindOf(item[0]);
      if kind == Mount {
        AddMount(item[2], item[4]);
      } else if kind == Volume {
        AddVolume(item[2], item[4]);
      } else if kind == Plain {
        AddArgument(item[0]);
      } else {
        SetValue(kind, item);
      }
    }

    /** The options that hold one value each. */
    method SetValue(kind: Kind, item: Item)
      requires Valid() && IsItem(item) && kind == KindOf(item[0])
      requires kind != Mount && kind != Volume && kind != Plain
      modifies this`limits, this`aws, this`az, this`gcp, this`isDetached, this`tmpfs, this`name, this`hasNetns
      ensures Valid() && View() == Apply(old(View()), item)
    {
      hide KindOf, Apply, View, Valid, Strings;
      if IsLimit(kind) {
        SetLimit(kind, item);
      } else {
        SetOption(kind, item);
      }
    }

    /** The name option takes the NULL behind argv. */
    method SetNoName()
      requires Valid()
      modifies this`name
      ensures Valid() && View() == old(View()).(name := None)
    {
      name := None;
    }

    /** Closes the command with NULL. */
    method EndCommand()
      requires Valid() && argIdx < argv.Length
      modifies this`argc, argv
      ensures Valid() && View() == old(View()) && argc == argIdx + 1 && argv[argIdx].None?
    {
      ghost var command := argv[..argIdx];
      argv[argIdx] := None;
      argc := argIdx + 1;
      assert argv[..argIdx] == command;
    }

    /** Parses argv, whose first token is the program's name. The arrays hold a fifth of
        argv each; that is always enough, and the closing NULL has its place too. With the
        outcomes NullOperand and PastEnd the parameters are those in front of the option
        that lacks operands. */
    method ParseArgs(tokens: seq<string>) returns (o: Outcome)
      requires Blank()
      modifies this
      ensures o.Exited? <==> |tokens| < 2
      ensures o.Parsed? <==> |tokens| >= 2 && (Rest(tokens[1..]) == [] || Rest(tokens[1..]) == ["--name"])
      ensures o.NullOperand? <==>
                |tokens| >= 2 && var r := Rest(tokens[1..]);
                                 r != [] && r != ["--name"] && |r| + 1 == Width(KindOf(r[0]))
      ensures o.Parsed? ==> Valid() && View() == Understood(tokens[1..])
      ensures o.NullOperand? || o.PastEnd? ==> Valid() && View() == Meaning(Complete(tokens[1..]))
      ensures o.Parsed? ==> 5 * (mntNum + vlmNum) <= |tokens| - 1
      ensures o.Parsed? ==> argc == argIdx + 1 <= argv.Length == |tokens| && argv[argIdx].None?
    {
      hide KindOf, Meaning, Apply, View, Complete, Rest, Taken, Lacking;
      if |tokens| < 2 {
        return Exited;
      }
      Allocate(|tokens|);
      BlankMeansNothing();
      var i;
      ghost var done;
      i, done := TakeItems(tokens);
      LastTaken(done, tokens, i);
      LackingAt(tokens, i);
      if i < |tokens| {
        var width := Width(KindOf(tokens[i]));
        if i + width > |tokens| + 1 {
          return PastEnd;
        }
        if KindOf(tokens[i]) != Name {
          return NullOperand;
        }
        SetNoName();
      }
      EndCommand();
      o := Parsed;
    }

    /** The parser's loop, up to the end or to an option that lacks operands. */
    method TakeItems(tokens: seq<string>) returns (i: nat, ghost done: seq<Item>)
      requires Valid() && Sized() && |tokens| >= 2 && argv.Length == |tokens| && Stored() == 0
      requires View() == Meaning([])
      modifies this`limits, this`aws, this`az, this`gcp, this`isDetached, this`tmpfs, this`name, this`hasNetns
      modifies this`isMount, this`mntNum, mnt, this`isVolume, this`vlmNum, vlm, this`argIdx, argv
      ensures Valid() && 1 <= i <= |tokens| && Lacking(tokens[i..]) && Stored() <= i - 1
      ensures View() == Meaning(done) && Taken(done, tokens, i)
    {
      hide KindOf, Width, Meaning, Apply, View, Taken, Lacking;
      i, done := 1, [];
      NothingDone(tokens);
      while i < |tokens| && i + Width(KindOf(tokens[i])) <= |tokens|
        invariant 1 <= i <= |tokens| && Valid()
        invariant Stored() <= i - 1
        invariant View() == Meaning(done) && Taken(done, tokens, i)
      {
        var width := Width(KindOf(tokens[i]));
        var item := tokens[i..i + width];
        NextTaken(done, tokens, i);
        MeaningSnoc(done, item);
        TakeItem(item, i - 1);
        i, done := i + width, done + [item];
      }
      LackingAt(tokens, i);
    }
  }

  /** These items are the tokens in front of position i, completely. */
  ghost predicate Taken(done: seq<Item>, tokens: seq<string>, i: nat) {
    1 <= i <= |tokens| && Shaped(done) && Flatten(done) == tokens[1..i]
  }

  lemma NothingDone(tokens: seq<string>)
    requires |tokens| >= 1
    ensures Taken([], tokens, 1)
  {
  }

  lemma NextTaken(done: seq<Item>, tokens: seq<string>, i: nat)
    requires i < |tokens| && Taken(done, tokens, i) && i + Width(KindOf(tokens[i])) <= |tokens|
    ensures var w := Width(KindOf(tokens[i]));
            IsItem(tokens[i..i + w]) && Taken(done + [tokens[i..i + w]], tokens, i + w)
  {
    hide KindOf, Width, Flatten;
    var w := Width(KindOf(tokens[i]));
    FlattenSnoc(done, tokens[i..i + w]);
    Slices(tokens, 1, i, i + w);
  }

  /** At the last option, or at the end, the rest of the tokens is what Rest says. */
  lemma {:induction false} LastTaken(done: seq<Item>, tokens: seq<string>, i: nat)
    requires Taken(done, tokens, i) && Lacking(tokens[i..])
    ensures Complete(tokens[1..]) == done && Rest(tokens[1..]) == tokens[i..]
  {
    hide Complete, Rest, Flatten, Shaped, Lacking;
    TailSplit(tokens, i);
    CutOnly(done, tokens[i..]);
  }

  lemma TailSplit(tokens: seq<string>, i: nat)
    requires 1 <= i <= |tokens|
    ensures tokens[1..i] + tokens[i..] == tokens[1..]
  {
  }

  lemma {:induction false} LackingAt(tokens: seq<string>, i: nat)
    requires i <= |tokens|
    ensures Lacking(tokens[i..]) <==> i < |tokens| ==> i + Width(KindOf(tokens[i])) > |tokens|
    ensures i < |tokens| && Lacking(tokens[i..]) ==> (tokens[i..] == ["--name"] <==> KindOf(tokens[i]) == Name)
  {
    if i < |tokens| {
      assert tokens[i..][0] == tokens[i];
      if KindOf(tokens[i]) == Name {
        assert tokens[i] == "--name";
      }
    }
  }

  lemma ItemWidths(item: Item)
    requires IsItem(item)
    ensures |item| >= 1 && |item| == Width(KindOf(item[0]))
    ensures KindOf(item[0]) == Mount || KindOf(item[0]) == Volume ==> |item| == 5
  {
  }

  function Strings(tokens: seq<Option<string>>): seq<string> {
    seq(|tokens|, i requires 0 <= i < |tokens| => OrElse(tokens[i], ""))
  }

  lemma StringsSnoc(tokens: seq<Option<string>>, token: string)
    ensures Strings(tokens + [Some(token)]) == Strings(tokens) + [token]
  {
  }

  lemma NothingMeant()
    ensures Meaning([]) == Params(DEFAULT_LIMITS, None, None, None, false, [], [], None, None, false, [])
  {
  }

  lemma ApplyIs(p: Params, item: Item)
    requires IsItem(item)
    ensures KindOf(item[0]) == Mount ==> Apply(p, item) == p.(mounts := p.mounts + [Pair(item[2], item[4])])
    ensures KindOf(item[0]) == Volume ==> Apply(p, item) == p.(volumes := p.volumes + [Pair(item[2], item[4])])
    ensures KindOf(item[0]) == Plain ==> Apply(p, item) == p.(command := p.command + [item[0]])
  {
  }

  /** The engine's own look at argv, before the parser: any token that asks for
      detaching, wherever it stands. */
  method PreScan(tokens: seq<string>) returns (detached: bool)
    ensures detached <==> exists i :: 1 <= i < |tokens| && (tokens[i] == "--detach" || tokens[i] == "-d")
  {
    detached := false;
    var i := 1;
    while i < |tokens|
      invariant i >= 1 && !detached
      invariant forall k :: 1 <= k < i && k < |tokens| ==> tokens[k] != "--detach" && tokens[k] != "-d"
    {
      if tokens[i] == "--detach" || tokens[i] == "-d" {
        detached := true;
        break;
      }
      i := i + 1;
    }
  }

  lemma {:induction false} DetachIff(token: string)
    ensures KindOf(token) == Detach <==> token == "--detach" || token == "-d"
  {
  }

  /** The tokens that are options; all others belong to the command. */
  lemma {:induction false} PlainIff(token: string)
    ensures KindOf(token) != Plain <==>
            || token == "--memory-in-bytes" || token == "--cpu-shares" || token == "--cpu-period"
            || token == "--cpu-quota" || token == "--device-read-bps" || token == "--device-write-bps"
            || token == "--mount-aws" || token == "--mount-az" || token == "--mount-gcp"
            || token == "--detach" || token == "-d" || token == "--mount" || token == "--volume"
            || token == "--tmpfs" || token == "--name" || token == "--netns"
  {
  }

  /** What each option with a limit says, behind any others. */
  lemma {:induction false} LimitOptions(items: seq<Item>, x: string)
    ensures var p := Meaning(items);
            && Meaning(items + [["--memory-in-bytes", x]]) == p.(limits := p.limits.(memory := x))
            && Meaning(items + [["--cpu-shares", x]]) == p.(limits := p.limits.(cpuShares := x))
            && Meaning(items + [["--cpu-period", x]]) == p.(limits := p.limits.(cpuPeriod := x))
            && Meaning(items + [["--cpu-quota", x]]) == p.(limits := p.limits.(cpuQuota := x))
            && Meaning(items + [["--device-read-bps", x]]) == p.(limits := p.limits.(readBps := x))
            && Meaning(items + [["--device-write-bps", x]]) == p.(limits := p.limits.(writeBps := x))
  {
    hide Meaning;
    MeaningSnoc(items, ["--memory-in-bytes", x]);
    MeaningSnoc(items, ["--cpu-shares", x]);
    MeaningSnoc(items, ["--cpu-period", x]);
    MeaningSnoc(items, ["--cpu-quota", x]);
    MeaningSnoc(items, ["--device-read-bps", x]);
    MeaningSnoc(items, ["--device-write-bps", x]);
  }

  /** What each option with a source and a destination says; x and y are not looked at. */
  lemma {:induction false} PairOptions(items: seq<Item>, x: string, a: string, y: string, b: string)
    ensures var p := Meaning(items);
            && Meaning(items + [["--mount", x, a, y, b]]) == p.(mounts := p.mounts + [Pair(a, b)])
            && Meaning(items + [["--volume", x, a, y, b]]) == p.(volumes := p.volumes + [Pair(a, b)])
            && Meaning(items + [["--mount-aws", x, a, y, b]]) == p.(aws := Some(Pair(a, b)))
            && Meaning(items + [["--mount-az", x, a, y, b]]) == p.(az := Some(Pair(a, b)))
            && Meaning(items + [["--mount-gcp", x, a, y, b]]) == p.(gcp := Some(Pair(a, b)))
  {
    hide Meaning;
    MeaningSnoc(items, ["--mount", x, a, y, b]);
    MeaningSnoc(items, ["--volume", x, a, y, b]);
    MeaningSnoc(items, ["--mount-aws", x, a, y, b]);
    MeaningSnoc(items, ["--mount-az", x, a, y, b]);
    MeaningSnoc(items, ["--mount-gcp", x, a, y, b]);
  }

  /** What the other options say. */
  lemma {:induction false} OtherOptions(items: seq<Item>, x: string, a: string, y: string, b: string, z: string,
                                        c: string)
    ensures var p := Meaning(items);
            && Meaning(items + [["--detach"]]) == p.(detached := true)
            && Meaning(items + [["-d"]]) == p.(detached := true)
            && Meaning(items + [["--name", x]]) == p.(name := Some(x))
            && Meaning(items + [["--netns", x]]) == p.(netns := x == "True")
            && Meaning(items + [["--tmpfs", x, a, y, b, z, c]]) == p.(tmpfs := Some(Tmpfs(a, b, c)))
  {
    hide Meaning;
    MeaningSnoc(items, ["--detach"]);
    MeaningSnoc(items, ["-d"]);
    MeaningSnoc(items, ["--name", x]);
    MeaningSnoc(items, ["--netns", x]);
    MeaningSnoc(items, ["--tmpfs", x, a, y, b, z, c]);
  }

  /** A token that is no option goes to the command; and what holds with no options at all. */
  lemma {:induction false} PlainToken(items: seq<Item>, token: string)
    requires KindOf(token) == Plain
    ensures var p := Meaning(items); Meaning(items + [[token]]) == p.(command := p.command + [token])
    ensures Meaning([]) == Params(Limits("500M", "100", "1000000", "100000", "524288000", "104857600"),
                                  None, None, None, false, [], [], None, None, false, [])
  {
    NothingMeant();
    hide Meaning, KindOf;
    MeaningSnoc(items, [token]);
  }

  /** The example of an isle that is to be detached from the start. */
  lemma {:induction false} DetachFirst()
    ensures var tokens := ["engine", "--detach", "bash"];
            Understood(tokens[1..]).detached && Understood(tokens[1..]).command == ["bash"]
  {
    var items := [["--detach"], ["bash"]];
    NothingMeant();
    hide Meaning;
    assert Flatten(items) + [] == ["--detach", "bash"] by {
      assert items[1..] == [["bash"]] && [["bash"]][1..] == [];
    }
    CutOnly(items, []);
    assert ["engine", "--detach", "bash"][1..] == ["--detach", "bash"];
    assert [] + [["--detach"]] == [["--detach"]] && [["--detach"]] + [["bash"]] == items;
    MeaningSnoc([], ["--detach"]);
    MeaningSnoc([["--detach"]], ["bash"]);
  }

  /** A token that was taken as part of an option, unexamined, asks for detaching. */
  ghost predicate SkippedDetach(items: seq<Item>) {
    exists i, k :: 0 <= i < |items| && 1 <= k < |items[i]| && KindOf(items[i][k]) == Detach
  }

  ghost predicate Detaches(ts: seq<string>) {
    exists i :: 0 <= i < |ts| && KindOf(ts[i]) == Detach
  }

  lemma {:induction false} DetachesFlatten(items: seq<Item>)
    ensures Detaches(Flatten(items)) <==> exists i :: 0 <= i < |items| && Detaches(items[i])
  {
    hide KindOf;
    if items != [] {
      DetachesFlatten(items[1..]);
      DetachesAppend(items[0], Flatten(items[1..]));
      if Detaches(Flatten(items[1..])) {
        var i :| 0 <= i < |items[1..]| && Detaches(items[1..][i]);
        assert Detaches(items[i + 1]);
      }
      if i :| 0 <= i < |items| && Detaches(items[i]) {
        assert i > 0 ==> Detaches(items[1..][i - 1]);
      }
    }
  }

  lemma DetachesAppend(a: seq<string>, b: seq<string>)
    ensures Detaches(a + b) <==> Detaches(a) || Detaches(b)
  {
    hide KindOf;
    if i :| 0 <= i < |a| && KindOf(a[i]) == Detach {
      assert (a + b)[i] == a[i];
    }
    if i :| 0 <= i < |b| && KindOf(b[i]) == Detach {
      assert (a + b)[|a| + i] == b[i];
    }
  }

  lemma {:induction false} OfNonempty(items: seq<Item>, kind: Kind)
    requires Shaped(items)
    ensures Of(items, kind) != [] <==> exists i :: 0 <= i < |items| && KindOf(items[i][0]) == kind
  {
    hide KindOf;
    if items != [] {
      OfNonempty(Front(items), kind);
      assert IsItem(items[|items| - 1]);
      if i :| 0 <= i < |items| && KindOf(items[i][0]) == kind {
        assert i < |items| - 1 ==> Front(items)[i] == items[i];
      }
    }
  }

  /** Some token that the parser skips as an operand asks for detaching. */
  ghost predicate Skipped(ts: seq<string>) {
    SkippedDetach(Complete(ts)) || Detaches(Rest(ts))
  }

  lemma {:induction false} ItemsDetach(items: seq<Item>)
    requires Shaped(items)
    ensures Detaches(Flatten(items)) <==> Meaning(items).detached || SkippedDetach(items)
  {
    hide KindOf, Of, Flatten;
    OfNonempty(items, Detach);
    DetachesFlatten(items);
    if j :| 0 <= j < |items| && Detaches(items[j]) {
      var k :| 0 <= k < |items[j]| && KindOf(items[j][k]) == Detach;
    }
    if j, k :| 0 <= j < |items| && 1 <= k < |items[j]| && KindOf(items[j][k]) == Detach {
      assert Detaches(items[j]);
    }
    if j :| 0 <= j < |items| && KindOf(items[j][0]) == Detach {
      assert IsItem(items[j]);
      assert Detaches(items[j]);
    }
  }

  lemma {:induction false} DetachesTail(tokens: seq<string>)
    requires |tokens| >= 1
    ensures Detaches(tokens[1..]) <==> exists i :: 1 <= i < |tokens| && (tokens[i] == "--detach" || tokens[i] == "-d")
  {
    forall t ensures KindOf(t) == Detach <==> t == "--detach" || t == "-d" { DetachIff(t); }
    hide KindOf;
    if i :| 1 <= i < |tokens| && (tokens[i] == "--detach" || tokens[i] == "-d") {
      assert tokens[1..][i - 1] == tokens[i];
    }
    if Detaches(tokens[1..]) {
      var i :| 0 <= i < |tokens[1..]| && KindOf(tokens[1..][i]) == Detach;
      assert tokens[i + 1] == tokens[1..][i];
    }
  }

  /** The two looks at any argv: the first sees a wish to detach exactly when the parser
      does or skips one unexamined; so they differ exactly when the parser sees none and
      skips one. */
  lemma {:induction false} TwoScanners(tokens: seq<string>)
    requires |tokens| >= 1
    ensures var ts := tokens[1..];
            var first := exists i :: 1 <= i < |tokens| && (tokens[i] == "--detach" || tokens[i] == "-d");
            var second := Understood(ts).detached;
            && (first <==> second || Skipped(ts))
            && ((first <==> second) <==> !Skipped(ts) || second)
  {
    hide KindOf, Complete, Rest, Meaning, Flatten;
    var ts := tokens[1..];
    CutCover(ts);
    ItemsDetach(Complete(ts));
    DetachesAppend(Flatten(Complete(ts)), Rest(ts));
    DetachesTail(tokens);
  }

  /** A name option in last place, without a name, takes back any name given before. */
  lemma {:induction false} LastNameIsNone(items: seq<Item>)
    requires Shaped(items)
    ensures Understood(Flatten(items) + ["--name"]) == Meaning(items).(name := None)
  {
    assert KindOf("--name") == Name && Width(Name) == 2;
    hide Meaning, Complete, Rest, Flatten, KindOf, Width;
    assert ["--name"][0] == "--name";
    CutOnly(items, ["--name"]);
  }

  lemma NameItem(name: string)
    ensures Complete(["--name", name]) == [["--name", name]] && Rest(["--name", name]) == []
    ensures Meaning([["--name", name]]) == Meaning([]).(name := Some(name))
  {
    var item := ["--name", name];
    NothingMeant();
    hide Meaning;
    assert Flatten([item]) == item by { assert [item][1..] == []; }
    assert item + [] == item && [] + [item] == [item];
    MeaningSnoc([], item);
    CutOnly([item], []);
  }

  /** An isle called -d: the engine forks for detached mode, and the parser then does not
      detach. */
  lemma {:induction false} NameLikeDetach()
    ensures var tokens := ["engine", "--name", "-d"];
            && KindOf(tokens[2]) == Detach
            && !Understood(tokens[1..]).detached && Understood(tokens[1..]).name == Some("-d")
  {
    NothingMeant();
    hide Meaning, Complete, Rest;
    NameItem("-d");
    assert ["engine", "--name", "-d"][1..] == ["--name", "-d"];
  }
}
