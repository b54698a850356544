/** One client's session on the server: chunks from the connection are put together to
    lines, the first line authenticates, the second is launched, later ones are typed
    into the pseudo-terminal, and the terminal's output goes back framed. */
module Session {
  import opened Text

  const DELIMITER: string := "COMMUNICATION_DELIMiTER"
  const CREDENTIALS: string := "UserName: test_user, Password: 123"
  const VALID_MESSAGE: string := CREDENTIALS + "\n"
  const RESPONSE: string := "Encryption successful.\n\n" + DELIMITER
  const INVALID_CREDENTIALS: string := "\n################# Invalid credentials #################\n"

  const READ_ERROR: string := "recv"

  /** What a read gives: bytes, nothing yet, an error, or the end of the connection. */
  datatype SslRead = Data(chunk: string) | NotReady | Failed | Closed

  /** One turn of the read loop: what the terminal gave ("" for nothing), then what the
      connection gave. */
  datatype Event = Event(pty: string, ssl: SslRead)

  /** The session's variables and what it has done so far: lines launched, text handed
      to the terminal, messages handed to the connection. */
  datatype State = State(
    accumulated: string, isAuthentication: bool, launched: bool, skip: bool,
    launches: seq<string>, typed: string, sent: seq<string>, ended: bool)

  const INIT: State := State("", true, false, false, [], "", [], false)

  function AfterNewline(s: string): string {
    if s == "" then "" else if s[0] == '\n' then s[1..] else AfterNewline(s[1..])
  }

  /** Each piece followed by a newline. */
  function Terminated(parts: seq<string>): string {
    if parts == [] then "" else parts[0] + "\n" + Terminated(parts[1..])
  }

  /** The text shown for one read of the terminal. */
  function Shown(skip: bool, pty: string): string {
    if skip then AfterNewline(CStr(pty)) else CStr(pty)
  }

  function Display(s: State, pty: string): State {
    if pty == "" then s
    else s.(skip := false, sent := s.sent + [Shown(s.skip, pty) + DELIMITER])
  }

  function HandleLine(s: State, line: string, buf: string): State {
    if s.ended then s
    else if s.isAuthentication then
      if buf == VALID_MESSAGE then s.(isAuthentication := false, sent := s.sent + [RESPONSE])
      else s.(isAuthentication := false, sent := s.sent + [INVALID_CREDENTIALS, DELIMITER], ended := true)
    else if !s.launched then s.(launched := true, launches := s.launches + [line])
    else s.(typed := s.typed + line + "\n", skip := true)
  }

  function HandleLines(s: State, lines: seq<string>, buf: string): State {
    if lines == [] then s else HandleLine(HandleLines(s, Front(lines), buf), Last(lines), buf)
  }

  function Receive(s: State, read: SslRead): State {
    match read
    case Closed => s.(ended := true)
    case NotReady => s
    case Failed => s.(sent := s.sent + [READ_ERROR])
    case Data(chunk) =>
      var all := s.accumulated + CStr(chunk);
      var parts := Split(all, '\n');
      if '\n' in all then HandleLines(s.(accumulated := Last(parts)), Front(parts), CStr(chunk))
      else s.(accumulated := all)
  }

  function Step(s: State, e: Event): State {
    if s.ended then s else Receive(Display(s, e.pty), e.ssl)
  }

  function Run(s: State, es: seq<Event>): State {
    if es == [] then s else Step(Run(s, Front(es)), Last(es))
  }

  lemma {:induction false} RunSplit(s: State, es: seq<Event>, i: nat)
    requires i <= |es|
    ensures Run(s, es) == Run(Run(s, es[..i]), es[i..])
    decreases |es|
  {
    if i == |es| {
      assert es[..i] == es;
    } else {
      RunSplit(s, Front(es), i);
      assert Front(es)[..i] == es[..i] && Front(es[i..]) == Front(es)[i..];
      assert Last(es[i..]) == Last(es);
    }
  }

  lemma {:induction false} RunEnded(s: State, es: seq<Event>)
    requires s.ended
    ensures Run(s, es) == s
  {
    if es != [] {
      RunEnded(s, Front(es));
    }
  }

  lemma {:induction false} TerminatedJoin(parts: seq<string>)
    requires |parts| >= 1
    ensures Terminated(parts) == Join(parts, '\n') + "\n"
  {
    if |parts| > 1 {
      TerminatedJoin(parts[1..]);
      assert parts[0] + "\n" + (Join(parts[1..], '\n') + "\n") == Join(parts, '\n') + "\n";
    } else {
      assert parts[1..] == [];
    }
  }

  lemma {:induction false} TerminatedAppend(parts: seq<string>, last: string)
    ensures Terminated(parts + [last]) == Terminated(parts) + last + "\n"
  {
    if parts == [] {
      assert parts + [last] == [last] && [last][1..] == [];
    } else {
      TerminatedAppend(parts[1..], last);
      assert (parts + [last])[0] == parts[0] && (parts + [last])[1..] == parts[1..] + [last];
    }
  }

  /** Dropping the first line's piece drops everything up to the first newline. */
  lemma {:induction false} AfterNewlineSplit(s: string)
    ensures '\n' in s ==> Split(s, '\n')[1..] == Split(AfterNewline(s), '\n')
    ensures '\n' !in s ==> |Split(s, '\n')| == 1 && AfterNewline(s) == ""
  {
    if s != "" {
      assert s == [s[0]] + s[1..];
      if s[0] != '\n' {
        AfterNewlineSplit(s[1..]);
      }
    }
  }

  class Server {
    var accumulated: string
    var isAuthentication: bool
    var scriptLaunched: bool
    var skipSameCommandOutput: bool
    var launches: seq<string>
    var typed: string
    var sent: seq<string>
    var ended: bool

    ghost function View(): State
      reads this
    {
      State(accumulated, isAuthentication, scriptLaunched, skipSameCommandOutput, launches, typed, sent, ended)
    }

    constructor ()
      ensures View() == INIT
    {
      accumulated, isAuthentication, scriptLaunched, skipSameCommandOutput := "", true, false, false;
      launches, typed, sent, ended := [], "", [], false;
    }

    /** Removes the echo of a typed line: splits, joins all pieces but the first, and
        takes off the newline at the end. */
    static method StripEcho(toWrite: string) returns (filtered: string)
      ensures filtered == AfterNewline(toWrite)
    {
      var outputs := Split(toWrite, '\n');
      filtered := "";
      for i := 0 to |outputs|
        invariant filtered == if i == 0 then "" else Terminated(outputs[1..i])
      {
        if i != 0 {
          filtered := filtered + outputs[i] + "\n";
          TerminatedAppend(outputs[1..i], outputs[i]);
          assert outputs[1..i] + [outputs[i]] == outputs[1..i + 1];
        }
      }
      AfterNewlineSplit(toWrite);
      assert outputs[1..|outputs|] == outputs[1..];
      if '\n' in toWrite {
        TerminatedJoin(outputs[1..]);
        JoinSplit(AfterNewline(toWrite), '\n');
      }
      filtered := if filtered == "" then "" else filtered[..|filtered| - 1];
    }

    method ShowOutput(pty: string)
      requires !ended
      modifies this
      ensures View() == Display(old(View()), pty)
    {
      if pty != "" && !skipSameCommandOutput {
        sent := sent + [CStr(pty) + DELIMITER];
      } else if pty != "" && skipSameCommandOutput {
        skipSameCommandOutput := false;
        var filtered := StripEcho(CStr(pty));
        sent := sent + [filtered + DELIMITER];
      }
    }

    method HandleCommand(command: string, buf: string)
      requires !ended
      modifies this
      ensures View() == HandleLine(old(View()), command, buf)
    {
      if !isAuthentication {
        if !scriptLaunched {
          scriptLaunched := true;
          launches := launches + [command];
        } else {
          typed := typed + command + "\n";
          skipSameCommandOutput := true;
        }
      } else {
        isAuthentication := false;
        if VALID_MESSAGE == buf {
          sent := sent + [RESPONSE];
        } else {
          sent := sent + [INVALID_CREDENTIALS];
          sent := sent + [DELIMITER];
          ended := true;
        }
      }
    }

    method HandleCommands(commands: seq<string>, buf: string)
      requires !ended
      modifies this
      ensures View() == HandleLines(old(View()), commands, buf)
    {
      var i := 0;
      ghost var s := View();
      while i < |commands| && !ended
        invariant i <= |commands|
        invariant View() == HandleLines(s, commands[..i], buf)
      {
        assert Front(commands[..i + 1]) == commands[..i];
        HandleCommand(commands[i], buf);
        i := i + 1;
      }
      if ended {
        LinesEnded(s, commands, i, buf);
      }
      assert commands[..|commands|] == commands;
    }

    /** The inner loop: reads until a newline has arrived or nothing more comes. The
        result says whether it has, and then buf is the chunk that brought it. */
    method ReadUntilNewline(events: seq<Event>, first: nat) returns (lineRead: bool, buf: string, i: nat)
      requires first <= |events| && !ended && View() == Run(INIT, events[..first])
      modifies this
      ensures first <= i <= |events|
      ensures !lineRead ==> View() == Run(INIT, events[..i]) && (ended || i == |events|)
      ensures lineRead ==> i > first && !ended && HasRead(View(), events[..i], buf)
    {
      hide Split, HandleLines, Run, CStr, AfterNewline;
      lineRead, buf, i := false, "", first;
      while i < |events| && !ended && !lineRead
        invariant first <= i <= |events|
        invariant !lineRead ==> View() == Run(INIT, events[..i])
        invariant lineRead ==> i > first && !ended && HasRead(View(), events[..i], buf)
        decreases |events| - i
      {
        var e := events[i];
        RunNext(events, i);
        assert !Run(INIT, events[..i]).ended;
        ShowOutput(e.pty);
        ghost var shown := View();
        i := i + 1;
        match e.ssl
        case Closed =>
          ended := true;
        case NotReady =>
          continue;
        case Failed =>
          sent := sent + [READ_ERROR];
        case Data(chunk) =>
          buf := CStr(chunk);
          accumulated := accumulated + buf;
          lineRead := '\n' in accumulated;
          assert View() == shown.(accumulated := shown.accumulated + buf);
      }
    }

    /** Serves one client over everything that its descriptors ever give. */
    method ProcessNewClient(events: seq<Event>)
      requires View() == INIT
      modifies this
      ensures View() == Run(INIT, events)
    {
      hide Split, HandleLines, Display, CStr, Front, Last;
      var i := 0;
      while i < |events| && !ended
        invariant i <= |events|
        invariant View() == Run(INIT, events[..i])
        decreases |events| - i, !ended
      {
        var lineRead, buf;
        lineRead, buf, i := ReadUntilNewline(events, i);
        if lineRead {
          LineStep(View(), events[..i], buf);
          var commands := Split(accumulated, '\n');
          accumulated := Last(commands);
          HandleCommands(Front(commands), buf);
        }
      }
      if ended {
        RunSplit(INIT, events, i);
        RunEnded(Run(INIT, events[..i]), events[i..]);
      }
      assert events[..|events|] == events;
    }
  }

  /** The state in which the read loop is left: the last chunk has been appended and the
      text so far holds a newline. */
  ghost predicate HasRead(s: State, es: seq<Event>, buf: string) {
    && es != [] && Last(es).ssl.Data? && buf == CStr(Last(es).ssl.chunk)
    && !Run(INIT, Front(es)).ended && '\n' in s.accumulated
    && var shown := Display(Run(INIT, Front(es)), Last(es).pty);
       s == shown.(accumulated := shown.accumulated + buf)
  }

  lemma {:induction false} RunNext(events: seq<Event>, i: nat)
    requires i < |events|
    ensures Front(events[..i + 1]) == events[..i] && Last(events[..i + 1]) == events[i]
    ensures Run(INIT, events[..i + 1]) == Step(Run(INIT, events[..i]), events[i])
  {
    assert Front(events[..i + 1]) == events[..i];
  }

  lemma {:induction false} LineStep(s: State, es: seq<Event>, buf: string)
    requires HasRead(s, es, buf)
    ensures var parts := Split(s.accumulated, '\n');
            Run(INIT, es) == HandleLines(s.(accumulated := Last(parts)), Front(parts), buf)
  {
    hide Split, HandleLines, CStr;
  }

  lemma {:induction false} LinesEnded(s: State, lines: seq<string>, i: nat, buf: string)
    requires i <= |lines| && HandleLines(s, lines[..i], buf).ended
    ensures HandleLines(s, lines, buf) == HandleLines(s, lines[..i], buf)
    decreases |lines|
  {
    if i == |lines| {
      assert lines[..i] == lines;
    } else {
      assert Front(lines)[..i] == lines[..i];
      LinesEnded(s, Front(lines), i, buf);
    }
  }
}
