/** The client's command line: checked option values, printed into one line of text. */
module ClientCommand {
  import opened Text

  const WRONG_UNIT: string := "-3"
  const TYPE_ERROR: string := "-4"
  const WRONG_ARGUMENTS: string := "-5"

  const DEFAULT_MEMORY_IN_BYTES: string := "500M"
  const DEFAULT_DEVICE_READ_BPS: string := "500M"
  const DEFAULT_DEVICE_WRITE_BPS: string := "100M"
  const DEFAULT_CPU_SHARES: string := "100"
  const DEFAULT_CPU_PERIOD: string := "100000"
  const DEFAULT_CPU_QUOTA: string := "1000000"

  /** The options as the option library delivers them. A name that is not given is
      replaced by a random one, which is part of the input here. */
  datatype Options = Options(
    bin: string, memory: Option<string>, readBps: Option<string>, writeBps: Option<string>,
    cpuGiven: bool, mounts: Option<seq<string>>, volumes: Option<seq<string>>,
    name: string, netns: bool, detach: bool, tmpfs: Option<seq<string>>,
    delete: string, ps: bool, attach: string)

  /** How the client gets on: it throws, it stops with an error, or it sends a line. */
  datatype Outcome = Threw | Failed | Send(line: string)

  predicate IsUnit(c: char) {
    c == 'b' || c == 'B' || c == 'k' || c == 'K' || c == 'm' || c == 'M' || c == 'g' || c == 'G'
  }

  /** Digits and one unit letter. */
  predicate IsAmount(s: string) {
    |s| >= 1 && AllDigits(Front(s)) && IsUnit(Last(s))
  }

  /** Spelled out: any number of digits and one of eight letters. */
  lemma {:induction false} AmountIff(s: string)
    ensures IsAmount(s) <==>
            exists digits: string, unit: char ::
              && s == digits + [unit] && (forall c :: c in digits ==> '0' <= c <= '9')
              && unit in "bBkKmMgG"
  {
    if IsAmount(s) {
      assert s == Front(s) + [Last(s)];
      assert forall c :: c in Front(s) ==> IsDigit(c);
      UnitIff(Last(s));
    }
    if digits: string, unit: char :|
      s == digits + [unit] && (forall c :: c in digits ==> '0' <= c <= '9') && unit in "bBkKmMgG"
    {
      assert Front(s) == digits;
      assert forall i :: 0 <= i < |digits| ==> digits[i] in digits;
      UnitIff(unit);
    }
  }

  lemma UnitIff(c: char)
    ensures IsUnit(c) <==> c in "bBkKmMgG"
  {
    assert "bBkKmMgG" == ['b', 'B', 'k', 'K', 'm', 'M', 'g', 'G'];
  }

  method IsNumber(s: string) returns (b: bool)
    ensures b <==> AllDigits(s)
  {
    for i := 0 to |s|
      invariant forall k :: 0 <= k < i ==> IsDigit(s[k])
    {
      if !IsDigit(s[i]) {
        return false;
      }
    }
    return true;
  }

  /** A number with a unit comes back as it is; anything else comes back as a marker. */
  method ParseUnitNumber(s: string) returns (r: string)
    requires s != ""
    ensures IsAmount(s) <==> r == s && r != TYPE_ERROR && r != WRONG_UNIT
    ensures !IsAmount(s) ==> r == if AllDigits(Front(s)) then WRONG_UNIT else TYPE_ERROR
  {
    var number := s[..|s| - 1];
    var isNumber := IsNumber(number);
    if !isNumber {
      return TYPE_ERROR;
    }
    assert Front("-3")[0] == '-' && Front("-4")[0] == '-';
    if !IsUnit(s[|s| - 1]) {
      return WRONG_UNIT;
    }
    return s;
  }

  /** Every token with a space in front of it. */
  function Lead(tokens: seq<string>): string {
    if tokens == [] then "" else " " + tokens[0] + Lead(tokens[1..])
  }

  lemma {:induction false} LeadAppend(a: seq<string>, b: seq<string>)
    ensures Lead(a + b) == Lead(a) + Lead(b)
  {
    if a == [] {
      assert a + b == b;
    } else {
      LeadAppend(a[1..], b);
      assert (a + b)[1..] == a[1..] + b;
      Assoc(" " + a[0], Lead(a[1..]), Lead(b));
    }
  }

  /** Printed tokens are found again by splitting on single spaces. */
  lemma {:induction false} SplitLead(text: string, tokens: seq<string>)
    requires Free(tokens, ' ')
    ensures Split(text + Lead(tokens), ' ') == Split(text, ' ') + tokens
    decreases tokens
  {
    if tokens == [] {
      assert text + "" == text;
    } else {
      var more := text + " " + tokens[0];
      Assoc(text, " " + tokens[0], Lead(tokens[1..]));
      assert text + (" " + tokens[0]) == more;
      assert Free(tokens[1..], ' ');
      SplitLead(more, tokens[1..]);
      SplitAt(text, ' ', tokens[0]);
      assert tokens[0] in tokens;
      SplitNone(tokens[0], ' ');
      assert [tokens[0]] + tokens[1..] == tokens;
      Assoc(Split(text, ' '), [tokens[0]], tokens[1..]);
    }
  }

  /** The tokens of the pairs that are complete or begun in a list of values. */
  function PairTokens(param: string, values: seq<string>): seq<string> {
    if values == [] then []
    else PairTokens(param, Front(values))
         + if |values| % 2 == 1 then ["--" + param, "src", Last(values)] else ["dst", Last(values)]
  }

  /** mount and volume values as text: an empty token, then "--mount src A dst B" for
      each pair; the marker when the number of values is not even or is zero. */
  method ParseVectorParam(param: string, given: Option<seq<string>>) returns (text: string)
    ensures given.None? ==> text == ""
    ensures given.Some? && (|given.value| < 2 || |given.value| % 2 != 0) ==> text == WRONG_ARGUMENTS
    ensures given.Some? && |given.value| >= 2 && |given.value| % 2 == 0
            ==> text == Lead([""] + PairTokens(param, given.value))
  {
    text := " ";
    if given.None? {
      return "";
    }
    var values := given.value;
    if |values| < 2 || |values| % 2 != 0 {
      return WRONG_ARGUMENTS;
    }
    assert [""] + PairTokens(param, values[..0]) == [""];
    for i := 0 to |values|
      invariant text == Lead([""] + PairTokens(param, values[..i]))
    {
      ghost var before := text;
      if i % 2 == 0 {
        text := text + (" --" + param + " src ");
      } else {
        text := text + " dst ";
      }
      text := text + values[i];
      PairTokensNext(param, values, i, before, text);
    }
    assert values[..|values|] == values;
  }

  lemma PairTokensNext(param: string, values: seq<string>, i: nat, before: string, after: string)
    requires i < |values| && before == Lead([""] + PairTokens(param, values[..i]))
    requires after == before + (if i % 2 == 0 then " --" + param + " src " else " dst ") + values[i]
    ensures after == Lead([""] + PairTokens(param, values[..i + 1]))
  {
    var v := values[..i + 1];
    assert Front(v) == values[..i] && Last(v) == values[i];
    var more := if i % 2 == 0 then ["--" + param, "src", values[i]] else ["dst", values[i]];
    Assoc([""], PairTokens(param, values[..i]), more);
    LeadAppend([""] + PairTokens(param, values[..i]), more);
    if i % 2 == 0 {
      LeadThree("--" + param, "src", values[i]);
    } else {
      LeadThree("", "dst", values[i]);
    }
  }

  lemma LeadPair(a: string, b: string)
    ensures Lead([a, b]) == " " + a + " " + b
  {
    var t := [a, b];
    assert t[1..] == [b] && t[1..][1..] == [];
    assert Lead(t[1..]) == " " + b;
    Assoc(" " + a, " ", b);
  }

  lemma LeadThree(a: string, b: string, c: string)
    ensures Lead([a, b, c]) == " " + a + " " + b + " " + c
    ensures Lead([b, c]) == " " + b + " " + c
  {
    var t := [a, b, c];
    LeadPair(b, c);
    assert t[1..] == [b, c];
    assert Lead(t) == " " + a + Lead(t[1..]);
    hide Lead;
    Assoc(" " + a, " " + b + " ", c);
    Assoc(" " + a, " " + b, " ");
    Assoc(" " + a, " ", b);
  }

  /** The tmpfs values as the client prints them. */
  function TmpfsTokens(values: seq<string>): (tokens: seq<string>)
    requires |values| == 3
    ensures |tokens| == 7
  {
    ["", "--dst", values[0], "--size", values[1], "--nr_inodes", values[2]]
  }

  predicate GoodTmpfs(given: Option<seq<string>>) {
    given.Some? ==> |given.value| == 3 && IsAmount(given.value[1]) && IsAmount(given.value[2])
  }

  /** The amounts of a tmpfs option that the client looks into are not empty. */
  predicate TmpfsGiven(given: Option<seq<string>>) {
    given.Some? && |given.value| == 3 ==>
      given.value[1] != "" && (IsAmount(given.value[1]) ==> given.value[2] != "")
  }

  method ParseTmpfs(given: Option<seq<string>>) returns (text: string)
    requires TmpfsGiven(given)
    ensures given.None? ==> text == ""
    ensures !GoodTmpfs(given) ==> text == WRONG_ARGUMENTS
    ensures given.Some? && GoodTmpfs(given) ==> text == Lead(TmpfsTokens(given.value))
  {
    if given.None? {
      return "";
    }
    var values := given.value;
    if |values| != 3 {
      return WRONG_ARGUMENTS;
    }
    hide IsAmount, Lead, TmpfsTokens;
    LeadOne("");
    text := " ";
    var names := ["dst", "size", "nr_inodes"];
    ghost var tokens := TmpfsTokens(values);
    TmpfsTokensAt(values, names);
    for i := 0 to 3
      invariant text == Lead(tokens[..1 + 2 * i])
      invariant (i > 1 ==> IsAmount(values[1])) && (i > 2 ==> IsAmount(values[2]))
    {
      var good;
      good, text := AppendPart(text, names[i], values[i], i == 0, tokens, 1 + 2 * i);
      if !good {
        return WRONG_ARGUMENTS;
      }
    }
    assert tokens[..7] == tokens;
  }

  /** One value of the option behind its name; all values but the first are amounts. */
  method AppendPart(text: string, name: string, value: string, first: bool, ghost tokens: seq<string>, ghost at: nat)
    returns (good: bool, r: string)
    requires !first ==> value != ""
    requires at + 2 <= |tokens| && tokens[at] == "--" + name && tokens[at + 1] == value
    requires text == Lead(tokens[..at])
    ensures good <==> first || IsAmount(value)
    ensures good ==> r == Lead(tokens[..at + 2])
  {
    hide IsAmount, Lead;
    good, r := true, "";
    if !first {
      var parsed := ParseUnitNumber(value);
      good := parsed != TYPE_ERROR && parsed != WRONG_UNIT;
    }
    if good {
      TwoMore(tokens, at, text, "--" + name, value);
      r := text + (" " + ("--" + name) + " ") + value;
    }
  }

  lemma {:induction false} TmpfsTokensAt(values: seq<string>, names: seq<string>)
    requires |values| == 3 && names == ["dst", "size", "nr_inodes"]
    ensures var t := TmpfsTokens(values);
            t[..1] == [""] && forall i :: 0 <= i < 3 ==> t[1 + 2 * i] == "--" + names[i] && t[2 + 2 * i] == values[i]
  {
    var t := TmpfsTokens(values);
    assert "--" + "dst" == "--dst" && "--" + "size" == "--size" && "--" + "nr_inodes" == "--nr_inodes";
    forall i | 0 <= i < 3 ensures t[1 + 2 * i] == "--" + names[i] && t[2 + 2 * i] == values[i] {
      assert i == 0 || i == 1 || i == 2;
    }
  }

  lemma {:induction false} TwoMore(tokens: seq<string>, i: nat, before: string, flag: string, value: string)
    requires i + 2 <= |tokens| && tokens[i] == flag && tokens[i + 1] == value && before == Lead(tokens[..i])
    ensures before + (" " + flag + " ") + value == Lead(tokens[..i + 2])
  {
    assert tokens[..i + 2] == tokens[..i] + [flag, value];
    LeadAppend(tokens[..i], [flag, value]);
    LeadPair(flag, value);
    hide Lead;
    Assoc(before, " " + flag + " ", value);
  }

  function ValueOr(given: Option<string>, default: string): string {
    if given.Some? then given.value else default
  }

  predicate GoodAmount(given: Option<string>) {
    given.Some? ==> IsAmount(given.value)
  }

  predicate GoodPairs(given: Option<seq<string>>) {
    given.Some? ==> |given.value| >= 2 && |given.value| % 2 == 0
  }

  predicate IsMarker(s: string) {
    s == WRONG_UNIT || s == TYPE_ERROR || s == WRONG_ARGUMENTS
  }

  /** The option values that the client lets through. */
  predicate Acceptable(o: Options) {
    && GoodAmount(o.memory) && GoodAmount(o.readBps) && GoodAmount(o.writeBps)
    && GoodPairs(o.mounts) && GoodPairs(o.volumes) && GoodTmpfs(o.tmpfs)
    && !IsMarker(o.name) && !IsMarker(o.delete) && !IsMarker(o.attach)
  }

  /** No amount that the client looks into is the empty string. */
  predicate Given(o: Options) {
    && (o.memory.Some? ==> o.memory.value != "")
    && (o.readBps.Some? ==> o.readBps.value != "")
    && (o.writeBps.Some? ==> o.writeBps.value != "")
    && TmpfsGiven(o.tmpfs)
  }

  function LimitTokens(o: Options): seq<string> {
    ["--memory-in-bytes", ValueOr(o.memory, DEFAULT_MEMORY_IN_BYTES),
     "--cpu-shares", DEFAULT_CPU_SHARES, "--cpu-period", DEFAULT_CPU_PERIOD, "--cpu-quota", DEFAULT_CPU_QUOTA,
     "--device-read-bps", ValueOr(o.readBps, DEFAULT_DEVICE_READ_BPS),
     "--device-write-bps", ValueOr(o.writeBps, DEFAULT_DEVICE_WRITE_BPS),
     "--name", o.name]
  }

  function VectorTokens(param: string, given: Option<seq<string>>): seq<string> {
    if given.None? then [] else [""] + PairTokens(param, given.value)
  }

  function FlagTokens(o: Options): seq<string> {
    (if o.netns then ["--netns", "True"] else []) + (if o.detach then ["-d"] else [])
  }

  function TmpfsOption(given: Option<seq<string>>): seq<string>
    requires GoodTmpfs(given)
  {
    if given.None? then [] else ["--tmpfs", ""] + TmpfsTokens(given.value)
  }

  /** The tokens that the client puts behind the program to run. */
  function Tokens(o: Options): seq<string>
    requires Acceptable(o)
  {
    LimitTokens(o) + VectorTokens("mount", o.mounts) + VectorTokens("volume", o.volumes)
    + FlagTokens(o) + TmpfsOption(o.tmpfs)
  }

  /** A value with a unit, or its default. */
  method GetAmount(given: Option<string>, default: string) returns (r: string)
    requires (given.Some? ==> given.value != "") && IsAmount(default)
    ensures GoodAmount(given) ==> r == ValueOr(given, default) && !IsMarker(r)
    ensures !GoodAmount(given) ==> IsMarker(r)
  {
    if given.None? {
      r := default;
    } else {
      r := ParseUnitNumber(given.value);
    }
    AmountNoMarker(r);
  }

  lemma {:induction false} AmountNoMarker(s: string)
    ensures IsAmount(s) ==> !IsMarker(s)
  {
    if IsMarker(s) {
      assert Front(s)[0] == '-';
    }
  }

  lemma LeadNoMarker(tokens: seq<string>)
    ensures !IsMarker(Lead(tokens))
  {
    if tokens != [] {
      assert Lead(tokens)[0] == ' ';
    }
  }

  /** The line that the client sends: for another program, or for a container. */
  function ClientLine(o: Options): string
    requires Acceptable(o)
  {
    if o.delete != "" then "delete " + o.delete
    else if o.ps then "ps"
    else if o.attach != "" then "attach " + o.attach
    else o.bin + Lead(Tokens(o))
  }

  /** The client's main program up to the line that it sends. */
  method BuildCommand(o: Options) returns (r: Outcome)
    requires Given(o)
    ensures r.Threw? <==> o.cpuGiven
    ensures r.Send? <==> !o.cpuGiven && Acceptable(o)
    ensures r.Send? ==> r.line == ClientLine(o)
  {
    hide Lead, PairTokens, IsAmount;
    DefaultsAreAmounts();
    var memory := GetAmount(o.memory, DEFAULT_MEMORY_IN_BYTES);
    if o.cpuGiven {
      return Threw;
    }
    var readBps := GetAmount(o.readBps, DEFAULT_DEVICE_READ_BPS);
    var writeBps := GetAmount(o.writeBps, DEFAULT_DEVICE_WRITE_BPS);
    var mount := ParseVectorParam("mount", o.mounts);
    var volume := ParseVectorParam("volume", o.volumes);
    var tmpfs := ParseTmpfs(o.tmpfs);
    TextsNoMarker(o);
    if IsMarker(memory) || IsMarker(readBps) || IsMarker(writeBps) || IsMarker(mount) || IsMarker(volume)
       || IsMarker(o.name) || IsMarker(o.delete) || IsMarker(o.attach) || IsMarker(tmpfs)
    {
      return Failed;
    }
    var command := PrintCommand(o, memory, readBps, writeBps, mount, volume, tmpfs);
    if o.delete != "" {
      command := "delete " + o.delete;
    } else if o.ps {
      command := "ps";
    } else if o.attach != "" {
      command := "attach " + o.attach;
    }
    r := Send(command);
  }

  /** The options of an example: a program without arguments, and nothing else. */
  const BASH: Options :=
    Options("bash", None, None, None, false, None, None, "isle", false, false, None, "", false, "")

  /** Options that are sent make the client throw when a cpu option joins them. */
  method CpuOptionThrows() returns (without: Outcome, with: Outcome)
    ensures without.Send? && with.Threw?
  {
    without := BuildCommand(BASH);
    with := BuildCommand(BASH.(cpuGiven := true));
  }

  /** The name of an isle must not look like one of the client's own error marks. */
  method MarkerNamesFail() returns (unit: Outcome, number: Outcome, arguments: Outcome)
    ensures unit.Failed? && number.Failed? && arguments.Failed?
  {
    unit := BuildCommand(BASH.(name := "-3"));
    number := BuildCommand(BASH.(name := "-4"));
    arguments := BuildCommand(BASH.(name := "-5"));
  }

  lemma NoAmounts()
    ensures !IsAmount("5T") && !IsAmount("x5M") && IsAmount("5g")
  {
    assert Last("5T") == 'T' && Front("x5M")[0] == 'x' && Last("5g") == 'g' && Front("5g") == ['5'];
  }

  /** Mounts come in pairs; an amount is digits and one of eight letters. */
  method BadValuesFail() returns (mounts: Outcome, unit: Outcome, number: Outcome, good: Outcome)
    ensures mounts.Failed? && unit.Failed? && number.Failed? && good.Send?
  {
    hide IsAmount, Tokens, ClientLine;
    NoAmounts();
    mounts := BuildCommand(BASH.(mounts := Some(["a", "b", "c"])));
    unit := BuildCommand(BASH.(memory := Some("5T")));
    number := BuildCommand(BASH.(memory := Some("x5M")));
    good := BuildCommand(BASH.(memory := Some("5g")));
  }

  /** The tokens of an isle for which nothing is asked for but a program. */
  lemma {:induction false} BashTokens()
    ensures Acceptable(BASH)
    ensures Tokens(BASH) == ["--memory-in-bytes", "500M", "--cpu-shares", "100", "--cpu-period", "100000",
                             "--cpu-quota", "1000000", "--device-read-bps", "500M", "--device-write-bps", "100M",
                             "--name", "isle"]
  {
  }

  lemma DefaultsAreAmounts()
    ensures IsAmount(DEFAULT_MEMORY_IN_BYTES) && IsAmount(DEFAULT_DEVICE_READ_BPS)
    ensures IsAmount(DEFAULT_DEVICE_WRITE_BPS)
  {
  }

  lemma TextsNoMarker(o: Options)
    ensures forall t: seq<string> :: !IsMarker(Lead(t))
    ensures !IsMarker("") && IsMarker(WRONG_ARGUMENTS) && Lead([]) == ""
  {
    forall t: seq<string> ensures !IsMarker(Lead(t)) {
      LeadNoMarker(t);
    }
  }

  /** The line for a container: each option is appended with a space in front. */
  method PrintCommand(o: Options, memory: string, readBps: string, writeBps: string,
                      mount: string, volume: string, tmpfs: string) returns (command: string)
    requires Acceptable(o)
    requires memory == ValueOr(o.memory, DEFAULT_MEMORY_IN_BYTES)
    requires readBps == ValueOr(o.readBps, DEFAULT_DEVICE_READ_BPS)
    requires writeBps == ValueOr(o.writeBps, DEFAULT_DEVICE_WRITE_BPS)
    requires mount == Lead(VectorTokens("mount", o.mounts))
    requires volume == Lead(VectorTokens("volume", o.volumes))
    requires tmpfs == Lead(if o.tmpfs.None? then [] else TmpfsTokens(o.tmpfs.value))
    ensures command == o.bin + Lead(Tokens(o))
  {
    hide Lead, PairTokens, TmpfsTokens;
    command := o.bin;
    ghost var tokens: seq<string> := [];
    LeadNone(command);
    command := AppendOption(command, "--memory-in-bytes", memory, o.bin, tokens);
    tokens := tokens + ["--memory-in-bytes", memory];
    command := AppendOption(command, "--cpu-shares", DEFAULT_CPU_SHARES, o.bin, tokens);
    tokens := tokens + ["--cpu-shares", DEFAULT_CPU_SHARES];
    command := AppendOption(command, "--cpu-period", DEFAULT_CPU_PERIOD, o.bin, tokens);
    tokens := tokens + ["--cpu-period", DEFAULT_CPU_PERIOD];
    command := AppendOption(command, "--cpu-quota", DEFAULT_CPU_QUOTA, o.bin, tokens);
    tokens := tokens + ["--cpu-quota", DEFAULT_CPU_QUOTA];
    command := AppendOption(command, "--device-read-bps", readBps, o.bin, tokens);
    tokens := tokens + ["--device-read-bps", readBps];
    command := AppendOption(command, "--device-write-bps", writeBps, o.bin, tokens);
    tokens := tokens + ["--device-write-bps", writeBps];
    command := AppendOption(command, "--name", o.name, o.bin, tokens);
    tokens := tokens + ["--name", o.name];
    assert tokens == LimitTokens(o);
    LeadMore(o.bin, tokens, VectorTokens("mount", o.mounts));
    command := command + mount;
    tokens := tokens + VectorTokens("mount", o.mounts);
    LeadMore(o.bin, tokens, VectorTokens("volume", o.volumes));
    command := command + volume;
    tokens := tokens + VectorTokens("volume", o.volumes);
    command := AppendFlags(o, command, tokens);
    tokens := tokens + FlagTokens(o);
    command := AppendTmpfs(o, command, tmpfs, tokens);
  }

  method AppendOption(command: string, flag: string, value: string, ghost bin: string, ghost tokens: seq<string>)
    returns (r: string)
    requires command == bin + Lead(tokens)
    ensures r == bin + Lead(tokens + [flag, value])
  {
    LeadMore(bin, tokens, [flag, value]);
    LeadThree("", flag, value);
    r := command + (" " + flag + " " + value);
  }

  method AppendFlags(o: Options, command: string, ghost tokens: seq<string>) returns (r: string)
    requires command == o.bin + Lead(tokens)
    ensures r == o.bin + Lead(tokens + FlagTokens(o))
  {
    hide Lead;
    r := command;
    LeadNotEmpty([]);
    if o.netns {
      LeadThree("", "--netns", "True");
      r := r + " --netns True";
    }
    if o.detach {
      LeadOne("-d");
      r := r + " -d";
    }
    ghost var netns, detach := if o.netns then ["--netns", "True"] else [], if o.detach then ["-d"] else [];
    LeadMore(o.bin, tokens, netns);
    LeadMore(o.bin, tokens + netns, detach);
    Assoc(tokens, netns, detach);
    assert r == command + Lead(netns) + Lead(detach);
  }

  method AppendTmpfs(o: Options, command: string, tmpfs: string, ghost tokens: seq<string>) returns (r: string)
    requires GoodTmpfs(o.tmpfs) && command == o.bin + Lead(tokens)
    requires tmpfs == Lead(if o.tmpfs.None? then [] else TmpfsTokens(o.tmpfs.value))
    ensures r == o.bin + Lead(tokens + TmpfsOption(o.tmpfs))
  {
    hide Lead, TmpfsTokens;
    r := command;
    LeadNotEmpty(if o.tmpfs.None? then [] else TmpfsTokens(o.tmpfs.value));
    if tmpfs != "" {
      LeadTwo("--tmpfs");
      assert r + " --tmpfs " == o.bin + Lead(tokens + ["--tmpfs", ""]) by {
        assert " " + "--tmpfs" + " " == " --tmpfs ";
        LeadMore(o.bin, tokens, ["--tmpfs", ""]);
      }
      LeadMore(o.bin, tokens, ["--tmpfs", ""]);
      LeadMore(o.bin, tokens + ["--tmpfs", ""], TmpfsTokens(o.tmpfs.value));
      Assoc(tokens, ["--tmpfs", ""], TmpfsTokens(o.tmpfs.value));
      r := r + " --tmpfs " + tmpfs;
    } else {
      assert tokens + [] == tokens;
    }
  }

  lemma LeadMore(bin: string, tokens: seq<string>, more: seq<string>)
    ensures bin + Lead(tokens + more) == bin + Lead(tokens) + Lead(more)
  {
    LeadAppend(tokens, more);
    Assoc(bin, Lead(tokens), Lead(more));
  }

  lemma LeadNone(bin: string)
    ensures bin + Lead([]) == bin
  {
  }

  lemma {:induction false} LeadOne(a: string)
    ensures Lead([a]) == " " + a
  {
    assert [a][1..] == [];
  }

  lemma LeadTwo(a: string)
    ensures Lead([a, ""]) == " " + a + " "
  {
    assert [a, ""][1..] == [""] && [""][1..] == [];
  }

  lemma LeadNotEmpty(tokens: seq<string>)
    ensures Lead(tokens) == "" <==> tokens == []
  {
  }
}
