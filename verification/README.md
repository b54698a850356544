# Islander, modelled and proved

Islander is a small container engine. A client prints its options as one line of text; a
server puts the line together from chunks, authenticates the client, launches the engine
with it and relays the terminal; the engine parses its arguments, clones a child, sets up
its name spaces, network and control groups, lets it go through a pipe, and cleans up when
it has ended; isles are recorded in text files that two more programs read. This project
models the parts of that chain that are algorithms or protocols and proves what holds of
them for all inputs and all runs.

| file | what it models |
|---|---|
| `Text.dfy` | strings: splitting, joining, C strings, searching, decimal numbers |
| `NetlinkFormat.dfy` | the attribute format of RFC 3549, section 2.2: encoder, decoder, both inverse |
| `NetlinkBuilder.dfy` | the engine's message buffer, filled and patched in place |
| `Transfer.dfy` | the loops that move whole buffers in spite of short counts and signals |
| `Session.dfy`, `SessionProperties.dfy` | the server's session, and what every run of it keeps |
| `Display.dfy` | what the client prints of the server's messages |
| `ClientCommand.dfy` | the client's options and the line it sends |
| `EngineArgs.dfy` | the engine's argument parser |
| `CommandPath.dfy` | the way of a command from the client's options to the engine's parameters |
| `Cgroups.dfy` | the control group paths and calls |
| `Launch.dfy` | parents and children of any number of engines, interleaved |
| `Ledger.dfy` | mounts and unmounts |
| `Registry.dfy` | the files of the isles, `ps` and `delete` |

Main results, hardest first:

- `NetlinkBuilder.BuildRequest` with `NetlinkFormat.DecodeIffEnc`: for any attribute trees the
  in-place calls succeed exactly when the message fits, and decoding the bytes that are sent
  gives exactly these trees. A strict decoder and the encoder are inverse in both directions.
  `NetlinkBuilder.CreateVeth` is the same for the source's own sequence of calls and any two
  names, with the exact bound on the size.
- `Launch.RunningIsContained`, `DeadParentNoCommand`, `Isolation`, `Cleanup`, `MountsUndone`: over
  every interleaving of any number of engines and every failing step, a child that runs has its
  maps, limits and groups now; a parent that ends before its message never gets its command run;
  engines never touch each other's groups, limits, tasks or maps; behind its end an engine's groups
  are gone unless the kernel refused, and its mounts are undone one by one. `CanFinish`, `CleanRun`
  and `CallsFindWhatTheyNeed`: no engine gets stuck, one for which nothing fails does all of its
  work, and every call finds what it needs.
- `Launch.NetworkIff`, `Launch.NetworkKeptIff`: the network is not kept like that. All engines set up
  one and the same interface of the host; it leads to a running child exactly as long as no other
  engine has taken it since, and an engine can count on it in all runs if and only if no other
  engine asks for a network.
- `CommandPath.EndToEnd` (on `SessionProperties.AfterAuth` and `CommandPath.RoundTrip`): the
  client's options, printed, cut into chunks in any way with whatever is typed behind them, put
  together, split and parsed, give the engine parameters that are stated exactly; they are the ones
  that were asked for if and only if there are no mounts, no volumes and no tmpfs.
- `SessionProperties.Safety`, `Conservation`, `ChunkIndependence`, `StrippedIff`, and
  `Display.TerminalToScreen`: the session's safety, conservation of the received text, when echo is
  stripped, and that the client prints what was shown if and only if every framed text fits in one
  read.
- `EngineArgs.ParseArgs` with `CutIff` and `TwoScanners`; `Registry.RegistryExact` and
  `PsShowsSurvivors`; `Cgroups.ConfigureThenRemove`.

Where the source does not do what it seems meant to do, the code is kept, the exact condition is
proved, and an input shows the failure:

| what fails | exactly when | an input |
|---|---|---|
| a container's network is lost to another engine | `Launch.NetworkKeptIff` | `Launch.NetworkLost` |
| the program gets an empty argument for a list of mounts or volumes | `CommandPath.RoundTrip` | `CommandPath.MountLeavesEmptyArgument` |
| the client's tmpfs option arrives moved by one operand | `CommandPath.RoundTrip` | `CommandPath.TmpfsMoved` |
| a message longer than one client read is not printed whole | `Display.Fidelity` | `Display.LongTextIsCut` |
| the engine detaches for an operand `-d`, its parser does not | `EngineArgs.TwoScanners` | `EngineArgs.NameLikeDetach` |
| a container that is to run `ps` or `delete` does not reach the engine | `CommandPath.EngineArgv` | `CommandPath.PsIsNotRun` |
| an isle's name with a newline is read back cut | `Registry.RecordRoundTrip` | `Registry.NewlineInName` |
| an interface name wraps its 16-bit length | `NetlinkBuilder.CreateVeth` | `NetlinkBuilder.LongNames` |
| a cpu option makes the client throw | `ClientCommand.BuildCommand` | `ClientCommand.CpuOptionThrows` |

Inputs from outside (reads of the connection and the terminal, counts and errors of system calls,
the set of living pids, the random name, the time, which calls fail and when) are parameters.
Methods are proved against functions on plain values, and the lemmas are about these functions.

## Model

| member | source | states |
|---|---|---|
| NetlinkFormat.EncShape | isle/inc/netnamespace.h:74-89 | an attribute is its header, its payload and zero padding up to a multiple of four |
| NetlinkFormat.HeaderBytes | isle/inc/netnamespace.h:80-83 | the four bytes of a header: length, then type, low bytes first |
| NetlinkFormat.DecodeEnc | isle/inc/netnamespace.h:74-108 | decoding any encoded trees gives back types, payload bytes, order and nesting |
| NetlinkFormat.EncDecode | isle/inc/netnamespace.h:74-108 | encoding what a strict reader decoded gives back the same bytes |
| NetlinkFormat.DecodeConforms | isle/inc/netnamespace.h:74-108 | what a strict reader decoded has the nesting and the lengths that the format allows |
| NetlinkFormat.DecodeIffEnc | isle/inc/netnamespace.h:74-108 | encoder and strict decoder are inverse, both directions |
| NetlinkFormat.LenientPadding | isle/inc/netnamespace.h:74-89 | a reader that is not strict takes any padding, and the last one may be missing |
| NetlinkBuilder.NlReq.constructor | isle/inc/netnamespace.h:119-124 | a new request is aligned, 32 bytes long, zero behind that; its header holds type, flags and family at their places, and zeros |
| NetlinkBuilder.NewLength | isle/inc/netnamespace.h:75-77 | the 16-bit length and the new tail are right exactly while four plus the length fits 16 bits; otherwise the tail hardly moves |
| NetlinkBuilder.NlReq.AddAttr | isle/inc/netnamespace.h:74-89 | returns exactly when length and message fit; then the message is the old one, untouched, plus the encoded attribute, aligned and zero behind it; copies past the buffer exactly when the length wraps and the wrapped one still passes the check |
| NetlinkBuilder.NlReq.AddNest | isle/inc/netnamespace.h:96-100 | the offset returned is where the header was written; exact bound |
| NetlinkBuilder.Patch | isle/inc/netnamespace.h:106-108 | storing the distance to the tail turns an open header into one that covers its content, and changes nothing else |
| NetlinkBuilder.NlReq.NestEnd | isle/inc/netnamespace.h:106-108 | the closed nest's length covers exactly its content; everything else is unchanged |
| NetlinkBuilder.NlReq.Reserve | isle/inc/netnamespace.h:145-145 | the unchecked addition takes zero bytes that are already there |
| NetlinkBuilder.NlReq.Serialize | isle/inc/netnamespace.h:74-108 | any tree is written behind the old message exactly when it fits |
| NetlinkBuilder.NlReq.Send | isle/inc/netnamespace.h:154-154 | the bytes sent carry their own length and the counted serial number |
| NetlinkBuilder.HeaderOf | isle/inc/netnamespace.h:119-124 | the 32 bytes in front of the attributes, byte by byte |
| NetlinkBuilder.BuildRequest | isle/inc/netnamespace.h:74-108 | any trees: sent exactly when they fit, and the bytes sent are the header and decode to these trees |
| NetlinkBuilder.OpenVeth | isle/inc/netnamespace.h:130-148 | the appending calls succeed exactly under the size bound, the last check covering the unchecked addition; and exactly when they copy past the buffer |
| NetlinkBuilder.CloseVeth | isle/inc/netnamespace.h:150-152 | nests close innermost first and the message is the encoded tree |
| NetlinkBuilder.CreateVeth | isle/inc/netnamespace.h:117-155 | for all names: sent if and only if 72 plus both padded names is at most 1056 and no length wraps; that sum is the length sent; the first 32 bytes are the header of message type 16 and flags 0x605, the others decode to name, veth kind and peer; past the buffer if and only if the first length wraps, or the second one with all before it fitting |
| NetlinkBuilder.VethRequest | isle/inc/netnamespace.h:117-155 | the 96 bytes sent for veth0 and veth1 |
| NetlinkBuilder.LongNames | isle/inc/netnamespace.h:75-86 | names of 65530, 65531 and 65535 characters end the process, overrun the buffer, and are sent as empty |
| NetlinkBuilder.MoveToPidNetns | isle/inc/netnamespace.h:163-174 | exact bounds for sending and for the overrun; the bytes sent are the header with flags 5 and decode to descriptor and name |
| NetlinkBuilder.IntBytesRead | isle/inc/netnamespace.h:171-171 | the descriptor can be read back from its four bytes |
| NetlinkBuilder.MoveRequest | isle/inc/netnamespace.h:163-174 | the 52 bytes sent for veth1 and descriptor 3 |
| Transfer.WriteBuffer | islander-server/src/encrypted_server.cpp:117-135 | for every trace of answers: a prefix is delivered, as long as the answers allowed, and all of it if and only if the loop finishes; it asks again exactly while something is left and nothing has failed |
| Transfer.ReadInBuffer | isle/src/syscall_wrappers.c:8-28 | the buffer holds the first n stream bytes and is otherwise untouched; the loop reads on exactly until the buffer is full, a read finds the end, or one fails |
| Session.Server.StripEcho | islander-server/src/encrypted_server.cpp:197-206 | split, join and trim is everything behind the first newline, or nothing if there is none |
| Session.Server.ShowOutput | islander-server/src/encrypted_server.cpp:188-210 | one read of the terminal is framed, stripped when the flag is up, and the flag goes down |
| Session.Server.HandleCommand | islander-server/src/encrypted_server.cpp:244-278 | one complete line authenticates, is launched, or is typed |
| Session.Server.ReadUntilNewline | islander-server/src/encrypted_server.cpp:184-235 | the inner loop stops with a newline accumulated or with the end of the session |
| Session.Server.ProcessNewClient | islander-server/src/encrypted_server.cpp:155-280 | over any turns the session's state is the one that turn by turn steps give |
| SessionProperties.Phases | islander-server/src/encrypted_server.cpp:182-279 | every run is quiet so far, or has one turn that authenticates or refuses |
| SessionProperties.Authenticated | islander-server/src/encrypted_server.cpp:229-277 | the authenticating chunk is one line, leaves the accumulator empty and does nothing else |
| SessionProperties.Refused | islander-server/src/encrypted_server.cpp:266-277 | any other first line ends the session with nothing launched or typed, for good |
| SessionProperties.RefusedSends | islander-server/src/encrypted_server.cpp:266-277 | a refused session has sent what it showed before and, unless it was closed, the refusal and a delimiter |
| SessionProperties.RefusedSession | islander-server/src/encrypted_server.cpp:266-277 | the session of a wrong first line, with its texts |
| SessionProperties.ServeChunk | islander-server/src/encrypted_server.cpp:228-262 | one chunk extends the stream that the state is a function of |
| SessionProperties.AfterAuth | islander-server/src/encrypted_server.cpp:212-262 | after authentication the state is a function of the concatenated stream: first line launched, further ones typed, the rest accumulated |
| SessionProperties.Conservation | islander-server/src/encrypted_server.cpp:212-262 | launched line, newline, typed text and accumulated text are the stream; the accumulated text holds no newline |
| SessionProperties.ChunkIndependence | islander-server/src/encrypted_server.cpp:228-242 | equal streams, cut in any way, have equal effects |
| SessionProperties.Safety | islander-server/src/encrypted_server.cpp:229-277 | launching happens at most once, before any typing, and if and only if the valid message came first and a line followed |
| SessionProperties.SkipIffPending | islander-server/src/encrypted_server.cpp:194-210 | the flag is up if and only if a line was typed and nothing has been shown since |
| SessionProperties.StrippedIff | islander-server/src/encrypted_server.cpp:188-210 | a read of the terminal is stripped if and only if it is the first shown since a line was typed |
| SessionProperties.SentIsMessages | islander-server/src/encrypted_server.cpp:188-226 | what an authenticated session has sent is the texts shown before, the greeting and the texts shown since, in order, one delimiter each, and notices of failed reads |
| SessionProperties.AcceptedSession | islander-server/src/encrypted_server.cpp:182-279 | a session from login to output, with its texts: one line launched, one typed in two chunks, its echo stripped, a failed read |
| Display.RecvCmdOutput | islander-client/src/communication_functions.cpp:17-56 | which read ends the loop and is returned, and what is printed of the reads up to it |
| Display.NoBorder | islander-client/inc/defined_vars.h:15-15 | no proper end of the delimiter is a beginning of it |
| Display.OnlyAtEnd | islander-client/src/communication_functions.cpp:42-43 | in a text without the delimiter, followed by it, the first match is the appended one |
| Display.PrintedPiece | islander-client/src/communication_functions.cpp:37-51 | one read of a framed text prints nothing unless it holds the whole delimiter |
| Display.PrintedMessage | islander-client/src/communication_functions.cpp:37-51 | a framed text is printed whole exactly when one read returns all of it |
| Display.Fidelity | islander-client/src/communication_functions.cpp:21-51 | the client prints exactly the framed texts if and only if each fits in one read of 1024 bytes |
| Display.LongTextIsCut | islander-client/src/communication_functions.cpp:37-51 | a text of 1001 characters is printed whole, one of 1002 is not |
| Display.TerminalToScreen | islander-server/src/encrypted_server.cpp:188-209 | from the session's reads of the terminal to the client's output: what was shown behind the greeting is printed if and only if each text fits |
| ClientCommand.IsNumber | islander-client/src/utils.cpp:7-12 | all characters are digits |
| ClientCommand.AmountIff | islander-client/src/options_parser.cpp:95-120 | an amount is digits and one of eight letters |
| ClientCommand.ParseUnitNumber | islander-client/src/options_parser.cpp:95-120 | digits and a unit come back unchanged; otherwise the marker that says what is wrong |
| ClientCommand.GetAmount | islander-client/src/options_parser.cpp:122-129 | the value or its default, or a marker, never both |
| ClientCommand.SplitLead | islander-client/src/main.cpp:70-87 | tokens printed with a space in front are found again by splitting |
| ClientCommand.ParseVectorParam | islander-client/src/options_parser.cpp:176-199 | pairs print as an empty token and five tokens each; a wrong number gives the marker |
| ClientCommand.ParseTmpfs | islander-client/src/options_parser.cpp:211-240 | three good values print as seven tokens, the first of them empty; otherwise the marker |
| ClientCommand.PrintCommand | islander-client/src/main.cpp:70-91 | the line is the program and every token with a space in front |
| ClientCommand.BuildCommand | islander-client/src/main.cpp:24-101 | throws exactly with a cpu option, sends exactly acceptable options, and which line is sent |
| ClientCommand.CpuOptionThrows | islander-client/src/options_parser.cpp:131-142 | options that are sent make the client throw when a cpu option joins them |
| ClientCommand.MarkerNamesFail | islander-client/src/main.cpp:58-68 | isles called -3, -4 or -5 are not sent |
| ClientCommand.BadValuesFail | islander-client/src/options_parser.cpp:95-199 | three values for mounts, a wrong unit and a wrong number are not sent, a good amount is |
| ClientCommand.BashTokens | islander-client/src/main.cpp:70-77 | the tokens with their defaults when nothing is asked for but a program |
| EngineArgs.CutIff | isle/src/helper_functions.c:27-110 | the cut of any argv into options, command tokens and a last option without all its operands covers every token once, in order, and is the only one that does |
| EngineArgs.ItemsIff | isle/src/helper_functions.c:27-110 | the same for argv of which nothing is left over |
| EngineArgs.MeaningSnoc | isle/src/helper_functions.c:28-109 | taking options one by one gives the meaning of the list: last value wins, pairs and command in order |
| EngineArgs.LimitOptions | isle/src/helper_functions.c:29-46 | what each limit option says, literally |
| EngineArgs.PairOptions | isle/src/helper_functions.c:49-83 | what each mount, volume and cloud option says, literally, and which tokens it does not look at |
| EngineArgs.OtherOptions | isle/src/helper_functions.c:68-104 | what --detach, -d, --name, --netns and --tmpfs say, literally |
| EngineArgs.PlainToken | isle/src/cgroup_functions.c:14-22 | a token that is no option joins the command; the defaults without any option |
| EngineArgs.PlainIff | isle/src/helper_functions.c:28-109 | the sixteen tokens that are options |
| EngineArgs.DetachIff | isle/src/helper_functions.c:68-69 | the two tokens that ask for detaching |
| EngineArgs.ProcessParams.AddMount | isle/src/helper_functions.c:72-76 | one pair is stored behind the others |
| EngineArgs.ProcessParams.AddVolume | isle/src/helper_functions.c:79-83 | one pair is stored behind the others |
| EngineArgs.ProcessParams.AddArgument | isle/src/helper_functions.c:106-109 | one token is stored behind the command |
| EngineArgs.ProcessParams.SetLimit | isle/src/helper_functions.c:29-46 | one limit is replaced, nothing else |
| EngineArgs.ProcessParams.SetOption | isle/src/helper_functions.c:49-104 | one single-valued option is replaced, nothing else |
| EngineArgs.ProcessParams.TakeItem | isle/src/helper_functions.c:27-110 | one turn of the loop, with room for what it stores |
| EngineArgs.ProcessParams.TakeItems | isle/src/helper_functions.c:27-110 | the whole loop, up to the end or to an option without all its operands |
| EngineArgs.ProcessParams.ParseArgs | isle/src/helper_functions.c:10-128 | which argv ends how; the parameters are the meaning of argv, a last name option without a name standing for none; five times the pairs is below argc, so the arrays of a fifth suffice; NULL closes the command inside its array |
| EngineArgs.LastNameIsNone | isle/src/helper_functions.c:94-96 | a last name option without a name takes back any name given before |
| EngineArgs.PreScan | isle/src/main.c:149-155 | some token behind the first is --detach or -d |
| EngineArgs.DetachFirst | isle/src/helper_functions.c:68-69 | an isle with --detach in front is detached and its command is what follows |
| EngineArgs.TwoScanners | isle/src/main.c:149-155 | for every argv: the first scanner sees a wish to detach exactly when the parser does or skips one as an operand; they agree if and only if none is skipped or the parser sees one too |
| EngineArgs.NameLikeDetach | isle/src/main.c:149-155 | an isle called -d is detached for one scanner only |
| CommandPath.ExecCommand | islander-server/src/execution_functs.cpp:51-87 | the program chosen and its argv, closed by NULL |
| CommandPath.ClientItemsShape | islander-client/src/main.cpp:70-91 | how the engine cuts the client's tokens, including empty ones |
| CommandPath.ClientMeaning | isle/src/helper_functions.c:27-127 | what the engine understands of them, option by option |
| CommandPath.RoundTrip | islander-client/src/options_parser.cpp:176-240 | what the engine recovers from the printed options, flag-like values too; it is what was asked for if and only if there are no mounts, no volumes and no tmpfs |
| CommandPath.MountLeavesEmptyArgument | islander-client/src/options_parser.cpp:177-189 | with one mount the command has an empty argument |
| CommandPath.TmpfsMoved | islander-client/src/main.cpp:89-91 | a tmpfs option of the client as the engine understands it |
| CommandPath.EngineArgv | islander-server/src/execution_functs.cpp:51-73 | a container's line goes to the engine, cut into its pieces, if and only if its program is not called ps or delete |
| CommandPath.PsIsNotRun | islander-server/src/execution_functs.cpp:56-59 | a container that is to run ps starts the server's ps instead |
| CommandPath.OtherPrograms | islander-server/src/execution_functs.cpp:56-73 | the client's lines for delete, ps and attach start these programs with these arguments |
| CommandPath.EndToEnd | islander-server/src/encrypted_server.cpp:228-262 | for every cut into chunks and anything typed behind the line: exactly the client's line is launched, the rest is handed on or accumulated; delete, ps and attach start with their arguments, and for a container the engine parses its options from the line |
| Cgroups.FilesApart | isle/src/cgroup_functions.c:62-85 | group files and directories of different pids, subsystems or limits are different paths |
| Cgroups.DirsApart | isle/src/cgroup_functions.c:52-67 | the same for directories, which are never shared ones |
| Cgroups.GroupNameInjective | isle/src/helper_functions.c:308-320 | decimal printing keeps pids apart |
| Cgroups.Foreign | isle/src/cgroup_functions.c:50-116 | no call of one engine changes anything of another |
| Cgroups.Own | isle/src/cgroup_functions.c:50-90 | an engine does not undo its own setup |
| Cgroups.ConfigureThenRemove | isle/src/cgroup_functions.c:25-109 | configuring and removing deletes exactly the engine's three groups with their files and leaves the shared directories |
| Cgroups.Kernel.ConfigCgroupSubsystem | isle/src/cgroup_functions.c:50-90 | the four calls in order, up to the first failure |
| Cgroups.Kernel.ConfigCgroupLimits | isle/src/cgroup_functions.c:25-47 | the six limits in order, up to the first failure |
| Cgroups.Kernel.RmCgroupDir | isle/src/cgroup_functions.c:103-116 | one group and its files go, unless the kernel refuses |
| Cgroups.Kernel.RmCgroupDirs | isle/src/cgroup_functions.c:93-100 | the three groups go, as far as the kernel lets them |
| Launch.StepInv | isle/src/main.c:74-144 | every step of every engine keeps: nothing past the gate before the setup, nothing taken down before the child has ended, everything that the calls set up stays in place |
| Launch.RunningIsContained | isle/src/main.c:95-135 | a child past the gate has its maps, six limits and its pid in three groups, at this moment |
| Launch.NetworkIff | isle/inc/netnamespace.h:188-254 | the network of a child past the gate was set up, and the host's interface leads to it if and only if no other engine has taken it since |
| Launch.NetworkKeptIff | isle/inc/netnamespace.h:177-202 | in all runs a running child keeps its network if and only if no other engine asks for one |
| Launch.NetworkLost | isle/inc/netnamespace.h:198-205 | a run of two engines in which the first one's running child has lost its network to the second |
| Launch.DeadParentNoCommand | isle/src/helper_functions.c:300-305 | a parent that ends before its message: the command is never run, whatever follows |
| Launch.ExecutedIff | isle/src/main.c:18-66 | the command has been run if and only if in some turn the child, let through before, got to it; and a running child has |
| Launch.FailureEnds | isle/src/main.c:130-141 | a failing step ends its parent unless it is the removal of a group; a child that finds half a message ends, and waits while there is none |
| Launch.CanFinish | isle/src/main.c:95-144 | no engine gets stuck: steps of its own take a parent that has not ended to the end of its program |
| Launch.CleanRun | isle/src/main.c:95-144 | without failures the command is run, all mounts are made and undone, and no group is left |
| Launch.CallsFindWhatTheyNeed | isle/src/cgroup_functions.c:50-90 | in every run each call finds the directories above it, setgroups denied before the group map, and a limit before a process joins |
| Launch.Order | isle/src/main.c:129-143 | the command is run only behind the message, and the step that takes a group away is its own engine's, behind its child's end |
| Launch.Cleanup | isle/src/cgroup_functions.c:93-116 | in any run a group is there up to its removal, and behind it gone with its files exactly unless the kernel refused |
| Launch.MountsUndone | isle/src/main.c:137-143 | in any run what is unmounted pairs with the first mounts, behind the child's end; an engine past its unmounts has undone all of its mounts |
| Launch.Isolation | isle/src/cgroup_functions.c:25-109 | no run of other engines changes the groups, limits, tasks or maps of an idle one |
| Ledger.MountFeature | isle/src/manage_data/manage_mount.c:7-11 | one bind mount for each pair, in order |
| Ledger.UnmountDirs | isle/src/manage_data/manage_mount.c:14-18 | one unmount for each pair, in the same order |
| Ledger.VolumeFeature | isle/src/manage_data/manage_volumes.c:10-14 | one volume mount for each pair, in order |
| Ledger.UnmountVolumes | isle/src/manage_data/manage_volumes.c:17-21 | one unmount for each pair, in the same order |
| Ledger.EnableFeatures | isle/src/helper_functions.c:139-149 | the ledger of mounts |
| Ledger.ReleaseResources | isle/src/helper_functions.c:152-158 | the ledger of unmounts |
| Ledger.Balanced | isle/src/helper_functions.c:139-158 | for all parameters: one unmount for each mount, in the same order, lazily exactly for cloud directories |
| Ledger.LedgerOfArgs | isle/src/helper_functions.c:72-91 | which options of argv make which entries, with their operands: all mounts and volumes in order, the last option of each other kind |
| Registry.RecordRoundTrip | isle/src/helper_functions.c:389-390 | reading a record gives back the pid always, and all three fields if and only if the name holds no newline |
| Registry.NewlineInName | ps/src/main.cpp:60-70 | a name with a newline is read back as two fields |
| Registry.Directory.CreateIslenode | isle/src/helper_functions.c:372-392 | pid, name and time, a line each, are stored in the file called by the name and .txt, replacing an older one |
| Registry.Directory.ParseFiles | ps/src/main.cpp:55-74 | one node for each file, in order |
| Registry.Directory.Ps | ps/src/main.cpp:83-105 | files of ended isles go, nodes of living ones are listed in order |
| Registry.ListedInOrder | ps/src/main.cpp:87-105 | the nodes listed are those of the living files, once each, in order |
| Registry.Directory.GetPid | delete/src/main.cpp:12-24 | the recorded pid, or -1 when there is no such file |
| Registry.RegistryExact | ps/src/main.cpp:87-99 | after any run the registry is exactly the records whose pid every later ps found alive and whose name was not recorded again |
| Registry.PsShowsSurvivors | ps/src/main.cpp:87-105 | ps shows exactly these, with their names and times, and delete finds the same pid |
| Text.SplitAppend | islander-server/src/encrypted_server.cpp:239-242 | appending text changes only the last piece of a split |
| Text.FindFirst | islander-client/src/communication_functions.cpp:42-43 | searching finds the first occurrence, and nothing only when there is none |
| Text.StoiDec | delete/src/main.cpp:19-21 | reading a printed pid gives the pid back |
| Text.StoiReads | delete/src/main.cpp:19-21 | what is read of any text: blanks, a sign, digits; an exception without digits or out of range |
| Text.DecIff | isle/src/helper_functions.c:308-320 | a printed number is the one string of digits without a leading zero that has its value |
| Text.DecExample | isle/src/helper_functions.c:308-320 | 0 and 1907 as they are printed |
| Text.CStrPrefix | islander-server/src/encrypted_server.cpp:227-228 | appending a buffer as a C string takes the text in front of its first NUL |

## Left out

- NetlinkBuilder.CreateVeth: with a length that wraps 16 bits the code copies past its buffer; the model stops there and only says that this happens.
- Session.Server.ProcessNewClient: a read that fills all 4092 bytes makes the code store its terminator one byte behind the buffer; the model keeps the text and does not show that store.
- Session.Server.ProcessNewClient: the terminal's log is the text handed to `write_buffer`; how much of it arrives is `Transfer.WriteBuffer`.
- Transfer.WriteBuffer: `write_from_buffer` of the engine is the same loop with other return codes and has no copy here.
- EngineArgs.ProcessParams.ParseArgs: a last option that lacks just its last operand takes the NULL behind argv; for a name that means none, for any other option the model stops with the outcome `NullOperand`. With more operands missing the code reads beyond that NULL, and the model stops with `PastEnd`.
- EngineArgs.ProcessParams.ParseArgs: the two parallel arrays of sources and destinations are one array of pairs.
- ClientCommand.BuildCommand: an empty amount is excluded, because the code takes the last character of each amount it looks at.
- CommandPath.EndToEnd: that the launched process is the engine with this argv is taken from `ExecCommand`; fork and exec are not modelled.
- Display.Fidelity: each read of the client is taken to return bytes of one message only, at most 1024 of them.
- Launch.NetworkIff: set_netns is one step, whose failure may come before or behind the deletion of the old interface; addresses, routes and iptables rules are not modelled.
- Launch.Cleanup: engines are told apart by the pid of their child for the whole run, so a pid given out again between a child's end and the removal of its groups is excluded.
- Launch.RunningIsContained: what the child does between the gate and its command (mount name space, ids, redirection) is one step that may fail; signals to it are a failure at any time.
- Registry.Directory.Ps: files that are not records are excluded, because the code indexes their missing fields.
- TLS, sockets, certificates, the accept and fork loop, and the client's verdict about authorisation.
- The effect of mount, umount, nsenter, pivot_root, iptables and `ip`; cloud shells, the remote volume manager, terraform, the logger server, attach.
- Port parsing, help texts, random names, time formatting, and the scans for the third slash of a path.
- Order between `enable_features` and the child's pivot_root, which race in the source.
- The kernel's answer to a netlink request.
