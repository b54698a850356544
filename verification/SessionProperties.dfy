/** What every session keeps, over all runs of turns. */
module SessionProperties {
  import opened Text
  import opened Session

  /** The turn neither ends the connection nor brings a newline. */
  predicate Calm(e: Event) {
    match e.ssl
    case Closed => false
    case NotReady => true
    case Failed => true
    case Data(chunk) => '\n' !in CStr(chunk)
  }

  predicate Quiet(es: seq<Event>) {
    forall i :: 0 <= i < |es| ==> Calm(es[i])
  }

  /** Turn k brings the first newline, in a chunk that is the valid message. */
  predicate AuthAt(es: seq<Event>, k: nat) {
    k < |es| && Quiet(es[..k]) && es[k].ssl.Data? && CStr(es[k].ssl.chunk) == VALID_MESSAGE
  }

  /** Turn k ends the connection or brings the first newline in any other chunk. */
  predicate RefusedAt(es: seq<Event>, k: nat) {
    k < |es| && Quiet(es[..k]) && !Calm(es[k]) && !AuthAt(es, k)
  }

  predicate Open(es: seq<Event>) {
    forall i :: 0 <= i < |es| ==> !es[i].ssl.Closed?
  }

  /** What the connection brought before it was closed. */
  function Stream(es: seq<Event>): string {
    if es == [] then ""
    else if Open(Front(es)) && Last(es).ssl.Data? then Stream(Front(es)) + CStr(Last(es).ssl.chunk)
    else Stream(Front(es))
  }

  lemma {:induction false} Phases(es: seq<Event>)
    ensures Quiet(es) || exists k: nat :: AuthAt(es, k) || RefusedAt(es, k)
  {
    if es != [] {
      Phases(Front(es));
      var n := |es| - 1;
      if Quiet(Front(es)) {
        assert es[..n] == Front(es);
        if !Calm(es[n]) {
          assert AuthAt(es, n) || RefusedAt(es, n);
        }
      } else {
        var k: nat :| AuthAt(Front(es), k) || RefusedAt(Front(es), k);
        assert Front(es)[..k] == es[..k];
        assert AuthAt(es, k) || RefusedAt(es, k);
      }
    }
  }

  /** Nothing has happened yet. */
  predicate Fresh(s: State) {
    s.isAuthentication && !s.launched && !s.skip && s.launches == [] && s.typed == ""
    && !s.ended && '\n' !in s.accumulated
  }

  lemma {:induction false} QuietRun(es: seq<Event>)
    requires Quiet(es)
    ensures Fresh(Run(INIT, es))
  {
    if es != [] {
      QuietRun(Front(es));
      assert Calm(es[|es| - 1]);
    }
  }

  lemma NoNewlineInCredentials()
    ensures '\n' !in CREDENTIALS
  {
  }

  /** Such a chunk makes exactly one line and leaves nothing behind it. */
  lemma CredentialLine(before: string, credentials: string)
    requires '\n' !in before && '\n' !in credentials
    ensures Split(before + (credentials + "\n"), '\n') == [before + credentials, ""]
    ensures '\n' in before + (credentials + "\n")
  {
    var line := before + credentials;
    assert before + (credentials + "\n") == line + "\n" + "";
    SplitAt(line, '\n', "");
    SplitNone(line, '\n');
  }

  /** After the turn that authenticates the session is open and has done nothing. */
  lemma {:induction false} Authenticated(es: seq<Event>, k: nat)
    requires AuthAt(es, k)
    ensures var s := Run(INIT, es[..k + 1]);
            && !s.ended && !s.isAuthentication && s.accumulated == ""
            && !s.launched && !s.skip && s.launches == [] && s.typed == ""
  {
    QuietRun(es[..k]);
    RunNext(es, k);
    NoNewlineInCredentials();
    AuthenticatedStep(Run(INIT, es[..k]), es[k], CREDENTIALS);
  }

  lemma AuthenticatedStep(s: State, e: Event, credentials: string)
    requires Fresh(s) && '\n' !in credentials && VALID_MESSAGE == credentials + "\n"
    requires e.ssl.Data? && CStr(e.ssl.chunk) == VALID_MESSAGE
    ensures var s' := Step(s, e);
            && !s'.ended && !s'.isAuthentication && s'.accumulated == ""
            && !s'.launched && !s'.skip && s'.launches == [] && s'.typed == ""
  {
    var shown := Display(s, e.pty);
    var line := shown.accumulated + credentials;
    CredentialLine(shown.accumulated, credentials);
    assert Front([line, ""]) == [line] && Front([line]) == [] && Last([line, ""]) == "";
    assert HandleLines(shown.(accumulated := ""), [line], VALID_MESSAGE)
        == HandleLine(shown.(accumulated := ""), line, VALID_MESSAGE);
  }

  /** A session whose first line is not the valid message ends with nothing done. */
  lemma {:induction false} Refused(es: seq<Event>, k: nat)
    requires RefusedAt(es, k)
    ensures var s := Run(INIT, es);
            s == Run(INIT, es[..k + 1]) && s.ended && s.launches == [] && s.typed == "" && !s.skip
  {
    QuietRun(es[..k]);
    RunNext(es, k);
    RunSplit(INIT, es, k + 1);
    if es[k].ssl.Data? {
      var s := Display(Run(INIT, es[..k]), es[k].pty);
      var all := s.accumulated + CStr(es[k].ssl.chunk);
      var parts := Split(all, '\n');
      SplitSingle(all, '\n');
      assert '\n' in all;
      assert Front(Front(parts)[..1]) == [];
      LinesEnded(s.(accumulated := Last(parts)), Front(parts), 1, CStr(es[k].ssl.chunk));
    }
    RunEnded(Run(INIT, es[..k + 1]), es[k + 1..]);
  }

  /** After authentication these lines, and no others, have been complete. */
  predicate Done(s: State, lines: seq<string>) {
    && !s.isAuthentication
    && s.launched == (lines != [])
    && s.launches == (if lines == [] then [] else [lines[0]])
    && s.typed == (if lines == [] then "" else Terminated(lines[1..]))
  }

  lemma {:induction false} FeedLines(s: State, done: seq<string>, lines: seq<string>, buf: string)
    requires !s.ended && Done(s, done)
    ensures var s' := HandleLines(s, lines, buf);
            !s'.ended && Done(s', done + lines) && s'.accumulated == s.accumulated
  {
    hide Done, HandleLine;
    if lines == [] {
      assert done + lines == done;
    } else {
      FeedLines(s, done, Front(lines), buf);
      DoneStep(HandleLines(s, Front(lines), buf), done + Front(lines), Last(lines), buf);
      assert done + lines == done + Front(lines) + [Last(lines)];
    }
  }

  lemma DoneStep(s: State, done: seq<string>, line: string, buf: string)
    requires !s.ended && Done(s, done)
    ensures var s' := HandleLine(s, line, buf);
            !s'.ended && Done(s', done + [line]) && s'.accumulated == s.accumulated
  {
    if done != [] {
      assert (done + [line])[1..] == done[1..] + [line];
      TerminatedAppend(done[1..], line);
    }
  }

  /** The state of an open session is a function of the text received since
      authentication: complete lines launched and typed, the rest accumulated. */
  predicate Serving(s: State, stream: string) {
    var parts := Split(stream, '\n');
    Done(s, Front(parts)) && s.accumulated == Last(parts)
  }

  lemma {:induction false} ServeChunk(s: State, stream: string, chunk: string)
    requires !s.ended && Serving(s, stream)
    ensures var s' := Receive(s, Data(chunk));
            !s'.ended && Serving(s', stream + CStr(chunk))
  {
    hide Done, Terminated, HandleLines, CStr;
    var parts, more := Split(stream, '\n'), Split(s.accumulated + CStr(chunk), '\n');
    SplitAppend(stream, CStr(chunk), '\n');
    FrontLast(Front(parts), more);
    SplitSingle(s.accumulated + CStr(chunk), '\n');
    if '\n' in s.accumulated + CStr(chunk) {
      DoneIgnores(s, Front(parts), Last(more));
      FeedLines(s.(accumulated := Last(more)), Front(parts), Front(more), CStr(chunk));
    } else {
      SplitNone(s.accumulated + CStr(chunk), '\n');
      assert Front(parts) + [] == Front(parts);
      DoneIgnores(s, Front(parts), s.accumulated + CStr(chunk));
    }
  }

  lemma FrontLast<T>(a: seq<T>, b: seq<T>)
    requires b != []
    ensures Front(a + b) == a + Front(b) && Last(a + b) == Last(b)
  {
  }

  lemma DoneIgnores(s: State, lines: seq<string>, accumulated: string)
    requires Done(s, lines)
    ensures Done(s.(accumulated := accumulated), lines)
  {
  }

  lemma ServeStep(s: State, stream: string, e: Event)
    requires Serving(s, stream)
    ensures var s' := Step(s, e);
            && Serving(s', stream + if !s.ended && e.ssl.Data? then CStr(e.ssl.chunk) else "")
            && (s'.ended <==> s.ended || e.ssl.Closed?)
  {
    hide Split, Terminated, CStr, HandleLines, Shown;
    if !s.ended && e.ssl.Data? {
      ServeChunk(Display(s, e.pty), stream, e.ssl.chunk);
    } else {
      assert stream + "" == stream;
    }
  }

  /** From authentication on, the session's state is the function of the stream that
      Serving describes, and the session is over exactly when the client closed it. */
  lemma {:induction false} AfterAuth(es: seq<Event>, k: nat)
    requires AuthAt(es, k)
    ensures var s := Run(INIT, es);
            Serving(s, Stream(es[k + 1..])) && (s.ended <==> !Open(es[k + 1..]))
    decreases |es|
  {
    if |es| == k + 1 {
      assert es[..k + 1] == es && es[k + 1..] == [];
      Authenticated(es, k);
      SplitNone("", '\n');
      assert Front([""]) == [];
    } else {
      hide Step, Serving, Stream, CStr;
      AfterAuthLast(es, k);
      AfterAuth(Front(es), k);
      ServeStep(Run(INIT, Front(es)), Stream(Front(es)[k + 1..]), Last(es));
      assert Stream(es[k + 1..]) + "" == Stream(es[k + 1..]);
    }
  }

  lemma {:induction false} AfterAuthLast(es: seq<Event>, k: nat)
    requires AuthAt(es, k) && |es| > k + 1
    ensures AuthAt(Front(es), k)
    ensures var post, e := es[k + 1..], Last(es);
            && Front(post) == Front(es)[k + 1..] && Last(post) == e
            && (Open(post) <==> Open(Front(post)) && !e.ssl.Closed?)
            && Stream(post) == Stream(Front(post)) + if Open(Front(post)) && e.ssl.Data? then CStr(e.ssl.chunk) else ""
  {
    var post := es[k + 1..];
    assert Front(es)[..k] == es[..k] && Front(post) == Front(es)[k + 1..];
    assert post == Front(post) + [Last(post)];
    assert Stream(Front(post)) + "" == Stream(Front(post));
  }

  lemma {:induction false} JoinLast(lines: seq<string>, rest: string)
    ensures Join(lines + [rest], '\n') == Terminated(lines) + rest
  {
    if lines == [] {
      assert lines + [rest] == [rest];
    } else {
      JoinLast(lines[1..], rest);
      assert (lines + [rest])[1..] == lines[1..] + [rest];
    }
  }

  /** Conservation: launched line, newline, typed text and accumulated text together are
      what was received, whatever the cuts between chunks were; and the accumulated text
      never holds a newline between turns. */
  lemma {:induction false} Conservation(es: seq<Event>, k: nat)
    requires AuthAt(es, k)
    ensures var s, stream := Run(INIT, es), Stream(es[k + 1..]);
            && '\n' !in s.accumulated
            && (s.launches == [] ==> stream == s.accumulated && s.typed == "")
            && (s.launches != [] ==>
                  |s.launches| == 1 && '\n' !in s.launches[0]
                  && stream == s.launches[0] + "\n" + s.typed + s.accumulated)
            && (s.launches == [] <==> '\n' !in stream)
  {
    AfterAuth(es, k);
    ServingConserves(Run(INIT, es), Stream(es[k + 1..]));
  }

  lemma ServingConserves(s: State, stream: string)
    requires Serving(s, stream)
    ensures '\n' !in s.accumulated
    ensures s.launches == [] ==> stream == s.accumulated && s.typed == ""
    ensures s.launches != [] ==>
              |s.launches| == 1 && '\n' !in s.launches[0]
              && stream == s.launches[0] + "\n" + s.typed + s.accumulated
    ensures s.launches == [] <==> '\n' !in stream
  {
    hide Split, Join;
    var parts := Split(stream, '\n');
    var lines, rest := Front(parts), Last(parts);
    assert parts == lines + [rest] && rest in parts;
    JoinSplit(stream, '\n');
    SplitFree(stream, '\n');
    SplitSingle(stream, '\n');
    JoinLast(lines, rest);
    if lines != [] {
      assert lines[0] in parts;
    }
  }

  /** The cuts between chunks do not matter: what was launched, typed and is still
      accumulated depends only on the text received since authentication. */
  lemma {:induction false} ChunkIndependence(es: seq<Event>, k: nat, es': seq<Event>, k': nat)
    requires AuthAt(es, k) && AuthAt(es', k')
    requires Stream(es[k + 1..]) == Stream(es'[k' + 1..])
    ensures var s, s' := Run(INIT, es), Run(INIT, es');
            s.launches == s'.launches && s.typed == s'.typed && s.accumulated == s'.accumulated
  {
    AfterAuth(es, k);
    AfterAuth(es', k');
  }

  /** Safety of every run: something is launched exactly when the first line came in the
      valid message and a further line followed; nothing is typed before something is
      launched; at most one line is ever launched. */
  lemma {:induction false} Safety(es: seq<Event>)
    ensures var s := Run(INIT, es);
            && |s.launches| <= 1
            && (s.typed != "" ==> |s.launches| == 1)
            && (s.launches != [] <==> exists k: nat :: AuthAt(es, k) && '\n' in Stream(es[k + 1..]))
            && (s.launches != [] <==> s.launched)
  {
    Phases(es);
    if k: nat :| AuthAt(es, k) {
      Conservation(es, k);
      AfterAuth(es, k);
      forall j: nat | AuthAt(es, j) ensures j == k {
        FirstOnly(es, j, k);
      }
    } else {
      if k: nat :| RefusedAt(es, k) {
        Refused(es, k);
        QuietRun(es[..k]);
        RunNext(es, k);
        NotLaunched(es, k);
      } else {
        QuietRun(es);
      }
    }
  }

  lemma NotLaunched(es: seq<Event>, k: nat)
    requires RefusedAt(es, k)
    ensures !Run(INIT, es).launched
  {
    Refused(es, k);
    LaunchedIff(es);
  }

  lemma {:induction false} LaunchedIff(es: seq<Event>)
    ensures Run(INIT, es).launched <==> Run(INIT, es).launches != []
  {
    hide Step;
    if es != [] {
      LaunchedIff(Front(es));
      StepLaunched(Run(INIT, Front(es)), Last(es));
    }
  }

  lemma StepLaunched(s: State, e: Event)
    requires s.launched <==> s.launches != []
    ensures Step(s, e).launched <==> Step(s, e).launches != []
  {
    hide Split, HandleLines, Shown, CStr;
    var shown := Display(s, e.pty);
    if !s.ended && e.ssl.Data? {
      var parts := Split(shown.accumulated + CStr(e.ssl.chunk), '\n');
      LinesLaunched(shown.(accumulated := Last(parts)), Front(parts), CStr(e.ssl.chunk));
    }
  }

  lemma {:induction false} LinesLaunched(s: State, lines: seq<string>, buf: string)
    requires s.launched <==> s.launches != []
    ensures HandleLines(s, lines, buf).launched <==> HandleLines(s, lines, buf).launches != []
  {
    if lines != [] {
      LinesLaunched(s, Front(lines), buf);
    }
  }

  lemma {:induction false} FirstOnly(es: seq<Event>, j: nat, k: nat)
    requires AuthAt(es, j) && AuthAt(es, k)
    ensures j == k
  {
    assert VALID_MESSAGE[|CREDENTIALS|] == '\n';
  }

  /** A line was typed into the terminal in turn i. */
  predicate TypedAt(es: seq<Event>, i: nat) {
    i < |es| && Run(INIT, es[..i + 1]).typed != Run(INIT, es[..i]).typed
  }

  /** The terminal's output was read and shown in turn i. */
  predicate ShownAt(es: seq<Event>, i: nat) {
    i < |es| && es[i].pty != "" && !Run(INIT, es[..i]).ended
  }

  /** A line has been typed, and since that turn nothing has been shown. */
  ghost predicate EchoPending(es: seq<Event>) {
    exists i: nat :: TypedAt(es, i) && forall j: nat :: i < j ==> !ShownAt(es, j)
  }

  lemma {:induction false} LinesSkip(s: State, lines: seq<string>, buf: string)
    ensures var s' := HandleLines(s, lines, buf);
            && |s'.typed| >= |s.typed|
            && (s'.skip <==> s.skip || |s'.typed| > |s.typed|)
            && (|s'.typed| == |s.typed| ==> s'.typed == s.typed)
  {
    if lines != [] {
      LinesSkip(s, Front(lines), buf);
    }
  }

  lemma StepSkip(s: State, e: Event)
    ensures var s' := Step(s, e);
            s'.skip <==> s'.typed != s.typed || (s.skip && !(e.pty != "" && !s.ended))
  {
    hide Split, HandleLines, AfterNewline, CStr;
    var shown := Display(s, e.pty);
    if !s.ended && e.ssl.Data? {
      var parts := Split(shown.accumulated + CStr(e.ssl.chunk), '\n');
      LinesSkip(shown.(accumulated := Last(parts)), Front(parts), CStr(e.ssl.chunk));
    }
  }

  lemma {:induction false} SameTurns(es: seq<Event>, i: nat)
    requires es != [] && i < |es| - 1
    ensures TypedAt(es, i) == TypedAt(Front(es), i) && ShownAt(es, i) == ShownAt(Front(es), i)
  {
    hide Run;
    assert Front(es)[..i] == es[..i] && Front(es)[..i + 1] == es[..i + 1];
  }

  /** What one more turn does to a pending echo. */
  lemma {:induction false} PendingNext(es: seq<Event>)
    requires es != []
    ensures var n: nat := |es| - 1;
            EchoPending(es) <==> TypedAt(es, n) || (EchoPending(Front(es)) && !ShownAt(es, n))
  {
    hide Run;
    var init, n: nat := Front(es), |es| - 1;
    forall i: nat | i < n ensures TypedAt(es, i) == TypedAt(init, i) && ShownAt(es, i) == ShownAt(init, i) {
      SameTurns(es, i);
    }
    TurnsEnd(es);
    TurnsEnd(init);
    hide TypedAt, ShownAt;
    if EchoPending(es) && !TypedAt(es, n) {
      var i: nat :| TypedAt(es, i) && forall j: nat :: i < j ==> !ShownAt(es, j);
      forall j: nat | i < j ensures !ShownAt(init, j) {
        assert j < n ==> !ShownAt(es, j);
      }
    }
    if EchoPending(init) && !ShownAt(es, n) {
      var i: nat :| TypedAt(init, i) && forall j: nat :: i < j ==> !ShownAt(init, j);
      assert TypedAt(es, i);
      forall j: nat | i < j ensures !ShownAt(es, j) {
        assert j < n ==> !ShownAt(init, j);
      }
    }
  }

  lemma TurnsEnd(es: seq<Event>)
    ensures forall i: nat :: TypedAt(es, i) || ShownAt(es, i) ==> i < |es|
  {
  }

  /** The flag is up exactly when an echo is still to come. */
  lemma {:induction false} SkipIffPending(es: seq<Event>)
    ensures Run(INIT, es).skip <==> EchoPending(es)
  {
    hide Step, EchoPending;
    if es == [] {
      assert !EchoPending(es) by { NothingPending(); }
    } else {
      var n: nat := |es| - 1;
      SkipIffPending(Front(es));
      StepSkip(Run(INIT, Front(es)), es[n]);
      PendingNext(es);
      assert es[..n] == Front(es) && es[..n + 1] == es;
    }
  }

  lemma NothingPending()
    ensures !EchoPending([])
  {
  }

  /** Each read of the terminal that is shown is stripped of its first line exactly when
      it is the first one shown since some line was typed; otherwise it is shown whole. */
  lemma {:induction false} StrippedIff(es: seq<Event>, j: nat)
    requires ShownAt(es, j)
    ensures var s, text := Run(INIT, es[..j]), CStr(es[j].pty);
            Display(s, es[j].pty).sent ==
              s.sent + [(if EchoPending(es[..j]) then AfterNewline(text) else text) + DELIMITER]
  {
    SkipIffPending(es[..j]);
  }

  /** What an open session sends: a text that is shown, or notice of a failed read. */
  datatype Message = Text(text: string) | Notice

  function TurnMessages(s: State, e: Event): seq<Message> {
    if s.ended then []
    else (if e.pty != "" then [Text(Shown(s.skip, e.pty))] else []) + (if e.ssl.Failed? then [Notice] else [])
  }

  /** The messages that a run sends from some turn on, in order. */
  function Messages(es: seq<Event>, from: nat): seq<Message> {
    if |es| <= from then [] else Messages(Front(es), from) + TurnMessages(Run(INIT, Front(es)), Last(es))
  }

  /** As they are sent: texts are framed, notices are not. */
  function Wire(messages: seq<Message>): seq<string> {
    seq(|messages|, i requires 0 <= i < |messages| => WireOne(messages[i]))
  }

  function WireOne(message: Message): string {
    match message
    case Text(text) => text + DELIMITER
    case Notice => READ_ERROR
  }

  lemma {:induction false} LinesSent(s: State, lines: seq<string>, buf: string)
    requires !s.isAuthentication
    ensures var s' := HandleLines(s, lines, buf); s'.sent == s.sent && !s'.isAuthentication
  {
    if lines != [] {
      LinesSent(s, Front(lines), buf);
    }
  }

  lemma {:induction false} StepSent(s: State, e: Event)
    requires !s.isAuthentication
    ensures var s' := Step(s, e);
            !s'.isAuthentication && s'.sent == s.sent + Wire(TurnMessages(s, e))
  {
    hide Split, HandleLines, Shown, CStr, DELIMITER, READ_ERROR;
    var shown := Display(s, e.pty);
    if !s.ended && e.ssl.Data? {
      var parts := Split(shown.accumulated + CStr(e.ssl.chunk), '\n');
      LinesSent(shown.(accumulated := Last(parts)), Front(parts), CStr(e.ssl.chunk));
    }
  }

  lemma {:induction false} CalmSent(s: State, e: Event)
    requires Fresh(s) && Calm(e)
    ensures Step(s, e).sent == s.sent + Wire(TurnMessages(s, e))
  {
    hide Split, HandleLines, Shown, CStr, DELIMITER, READ_ERROR;
  }

  lemma {:induction false} QuietSent(es: seq<Event>)
    requires Quiet(es)
    ensures Run(INIT, es).sent == Wire(Messages(es, 0))
  {
    hide Step, Wire;
    if es == [] {
      NothingOnWire([]);
    } else {
      var init := Front(es);
      QuietSent(init);
      QuietRun(init);
      assert Calm(es[|es| - 1]);
      CalmSent(Run(INIT, init), Last(es));
      WireAppend(Messages(init, 0), TurnMessages(Run(INIT, init), Last(es)));
    }
  }

  lemma {:induction false} ResponseSent(s: State, e: Event)
    requires Fresh(s) && e.ssl.Data? && CStr(e.ssl.chunk) == VALID_MESSAGE
    ensures Step(s, e).sent == s.sent + Wire(TurnMessages(s, e)) + [RESPONSE] && !Step(s, e).isAuthentication
  {
    hide RESPONSE, DELIMITER, Shown;
    NoNewlineInCredentials();
    CredentialLine(s.accumulated, CREDENTIALS);
    var shown := Display(s, e.pty);
    var line := s.accumulated + CREDENTIALS;
    assert Front([line, ""]) == [line] && Front([line]) == [] && Last([line, ""]) == "";
    assert HandleLines(shown.(accumulated := ""), [line], VALID_MESSAGE)
        == HandleLine(shown.(accumulated := ""), line, VALID_MESSAGE);
    assert shown.sent == s.sent + Wire(TurnMessages(s, e));
  }

  /** Everything that an authenticated session has sent: what it showed up to then, its
      greeting, and what it showed from then on, in order; texts are framed by one
      delimiter each, and between them are notices of failed reads. */
  lemma {:induction false} SentIsMessages(es: seq<Event>, k: nat)
    requires AuthAt(es, k)
    ensures Run(INIT, es).sent == Wire(Messages(es[..k + 1], 0)) + [RESPONSE] + Wire(Messages(es, k + 1))
    ensures !Run(INIT, es).isAuthentication
    decreases |es|
  {
    hide Step, Shown, CStr, RESPONSE, Wire;
    var early := Wire(Messages(es[..k + 1], 0)) + [RESPONSE];
    if |es| == k + 1 {
      assert Front(es) == es[..k] && es[..k + 1] == es;
      QuietRun(es[..k]);
      QuietSent(es[..k]);
      var turn := TurnMessages(Run(INIT, es[..k]), es[k]);
      ResponseSent(Run(INIT, es[..k]), es[k]);
      WireAppend(Messages(es[..k], 0), turn);
      NothingOnWire(early);
    } else {
      assert Front(es)[..k] == es[..k] && Front(es)[..k + 1] == es[..k + 1];
      SentIsMessages(Front(es), k);
      StepSent(Run(INIT, Front(es)), Last(es));
      WireAppend(Messages(Front(es), k + 1), TurnMessages(Run(INIT, Front(es)), Last(es)));
      Assoc(early, Wire(Messages(Front(es), k + 1)), Wire(TurnMessages(Run(INIT, Front(es)), Last(es))));
    }
  }

  /** What a refused session sends: what it showed up to then, and, if it was refused for
      its first line and not closed, the refusal and a delimiter. */
  lemma {:induction false} RefusedSends(es: seq<Event>, k: nat)
    requires RefusedAt(es, k)
    ensures Run(INIT, es).sent ==
            Wire(Messages(es[..k + 1], 0)) + if es[k].ssl.Data? then [INVALID_CREDENTIALS, DELIMITER] else []
  {
    hide Step, Shown, CStr, Wire, HandleLines, INVALID_CREDENTIALS, DELIMITER;
    Refused(es, k);
    QuietRun(es[..k]);
    QuietSent(es[..k]);
    RunNext(es, k);
    var turn := TurnMessages(Run(INIT, es[..k]), es[k]);
    WireAppend(Messages(es[..k], 0), turn);
    RefusedStep(Run(INIT, es[..k]), es[k]);
  }

  lemma RefusedStep(s: State, e: Event)
    requires Fresh(s) && !Calm(e) && !(e.ssl.Data? && CStr(e.ssl.chunk) == VALID_MESSAGE)
    ensures Step(s, e).sent ==
            s.sent + Wire(TurnMessages(s, e)) + if e.ssl.Data? then [INVALID_CREDENTIALS, DELIMITER] else []
  {
    hide Split, Shown, CStr, INVALID_CREDENTIALS, DELIMITER;
    var shown := Display(s, e.pty);
    assert shown.sent == s.sent + Wire(TurnMessages(s, e));
    if e.ssl.Data? {
      var buf := CStr(e.ssl.chunk);
      var parts := Split(shown.accumulated + buf, '\n');
      SplitSingle(shown.accumulated + buf, '\n');
      RefusedLines(shown.(accumulated := Last(parts)), Front(parts), buf);
    } else {
      assert shown.sent + [] == shown.sent;
    }
  }

  lemma {:induction false} RefusedLines(s: State, lines: seq<string>, buf: string)
    requires s.isAuthentication && !s.ended && buf != VALID_MESSAGE && lines != []
    ensures HandleLines(s, lines, buf).sent == s.sent + [INVALID_CREDENTIALS, DELIMITER]
    ensures HandleLines(s, lines, buf).ended
  {
    hide INVALID_CREDENTIALS, DELIMITER;
    assert lines == Front(lines) + [Last(lines)];
    if |lines| > 1 {
      RefusedLines(s, Front(lines), buf);
    }
  }

  lemma NothingOnWire(early: seq<string>)
    ensures Wire([]) == [] && early + Wire([]) == early
  {
  }

  lemma WireAppend(a: seq<Message>, b: seq<Message>)
    ensures Wire(a + b) == Wire(a) + Wire(b)
  {
  }

  lemma {:induction false} OneLineStep(s: State, e: Event, line: string, rest: string)
    requires !s.ended && e.ssl.Data? && '\n' !in line && '\n' !in rest
    requires s.accumulated + CStr(e.ssl.chunk) == line + "\n" + rest
    ensures Step(s, e) == HandleLine(Display(s, e.pty).(accumulated := rest), line, CStr(e.ssl.chunk))
  {
    hide Shown, CStr;
    SplitAt(line, '\n', rest);
    SplitNone(line, '\n');
    SplitNone(rest, '\n');
    var shown := Display(s, e.pty).(accumulated := rest);
    assert Front([line, rest]) == [line] && Front([line]) == [];
    assert HandleLines(shown, [line], CStr(e.ssl.chunk)) == HandleLine(shown, line, CStr(e.ssl.chunk));
  }

  const LOGIN: string := "UserName: test_user, Password: 123\n"

  const GREETING: string := "Encryption successful.\n\nCOMMUNICATION_DELIMiTER"

  lemma LoginIs()
    ensures LOGIN == VALID_MESSAGE == CREDENTIALS + "\n" && GREETING == RESPONSE && '\0' !in LOGIN
  {
  }

  lemma {:induction false} LoginTurn()
    ensures Step(INIT, Event("", Data(LOGIN))) == State("", false, false, false, [], "", [GREETING], false)
  {
    hide LOGIN, CREDENTIALS, VALID_MESSAGE, GREETING, RESPONSE, CStr, Split;
    LoginIs();
    Plain(LOGIN);
    NoNewlineInCredentials();
    assert "" + LOGIN == CREDENTIALS + "\n" + "";
    OneLineStep(INIT, Event("", Data(LOGIN)), CREDENTIALS, "");
  }

  lemma {:induction false} LaunchTurn(s: State, chunk: string, line: string, rest: string)
    requires !s.ended && !s.isAuthentication && !s.launched && '\n' !in line && '\n' !in rest && '\0' !in chunk
    requires s.accumulated + chunk == line + "\n" + rest
    ensures Step(s, Event("", Data(chunk)))
         == s.(accumulated := rest, launched := true, launches := s.launches + [line])
  {
    hide CStr, Split;
    Plain(chunk);
    OneLineStep(s, Event("", Data(chunk)), line, rest);
  }

  lemma {:induction false} TypeTurn(s: State, pty: string, chunk: string, line: string, rest: string)
    requires !s.ended && !s.isAuthentication && s.launched && !s.skip && pty != ""
    requires '\n' !in line && '\n' !in rest && '\0' !in chunk && '\0' !in pty
    requires s.accumulated + chunk == line + "\n" + rest
    ensures Step(s, Event(pty, Data(chunk)))
         == s.(accumulated := rest, typed := s.typed + line + "\n", skip := true, sent := s.sent + [pty + DELIMITER])
  {
    hide CStr, Split, DELIMITER;
    Plain(chunk);
    Plain(pty);
    OneLineStep(s, Event(pty, Data(chunk)), line, rest);
  }

  lemma {:induction false} EchoTurn(s: State, line: string, rest: string)
    requires !s.ended && s.skip && '\n' !in line && '\0' !in line + "\n" + rest
    ensures Step(s, Event(line + "\n" + rest, Failed))
         == s.(skip := false, sent := s.sent + [rest + DELIMITER] + [READ_ERROR])
  {
    hide CStr, AfterNewline, DELIMITER, READ_ERROR;
    Plain(line + "\n" + rest);
    EchoOf(line, rest);
  }

  lemma ExampleTexts()
    ensures "" + "bash\nls" == "bash" + "\n" + "ls" && "ls" + "\n" == "ls" + "\n" + "" == "" + "ls" + "\n"
    ensures "ls" + "\n" + "a b" == "ls\na b" && "ls" + "\n" == "ls\n"
    ensures '\n' !in "bash" && '\n' !in "ls" && '\n' !in ""
    ensures '\0' !in "bash\nls" && '\0' !in "\n" && '\0' !in "$ " && '\0' !in "ls" + "\n" + "a b"
  {
  }

  lemma ExampleFrames()
    ensures "$ " + DELIMITER == "$ COMMUNICATION_DELIMiTER" && "a b" + DELIMITER == "a bCOMMUNICATION_DELIMiTER"
    ensures READ_ERROR == "recv"
  {
  }

  /** The three turns behind the login. */
  lemma {:induction false} ThreeTurns(s: State)
    requires s == State("", false, false, false, [], "", s.sent, false)
    ensures Step(Step(Step(s, Event("", Data("bash\nls"))), Event("$ ", Data("\n"))),
                 Event("ls" + "\n" + "a b", Failed))
         == State("", false, true, false, ["bash"], "" + "ls" + "\n",
                  s.sent + ["$ " + DELIMITER] + ["a b" + DELIMITER] + [READ_ERROR], false)
  {
    hide Step, DELIMITER, READ_ERROR;
    ExampleTexts();
    LaunchTurn(s, "bash\nls", "bash", "ls");
    var s2 := s.(accumulated := "ls", launched := true, launches := s.launches + ["bash"]);
    TypeTurn(s2, "$ ", "\n", "ls", "");
    var s3 := s2.(accumulated := "", typed := s2.typed + "ls" + "\n", skip := true,
                  sent := s2.sent + ["$ " + DELIMITER]);
    EchoTurn(s3, "ls", "a b");
  }

  /** A session from login to output: the first line is launched, a second one, which comes
      in two chunks, is typed, its echo is stripped, and a read fails. */
  lemma {:induction false} AcceptedSession()
    ensures Run(INIT, [Event("", Data(LOGIN)), Event("", Data("bash\nls")), Event("$ ", Data("\n")),
                       Event("ls\na b", Failed)])
         == State("", false, true, false, ["bash"], "ls\n",
                  [GREETING] + ["$ COMMUNICATION_DELIMiTER"] + ["a bCOMMUNICATION_DELIMiTER"] + ["recv"], false)
  {
    hide Step, LOGIN, GREETING, DELIMITER, READ_ERROR;
    LoginTurn();
    ThreeTurns(State("", false, false, false, [], "", [GREETING], false));
    ExampleTexts();
    ExampleFrames();
    FourTurns(INIT, Event("", Data(LOGIN)), Event("", Data("bash\nls")), Event("$ ", Data("\n")),
              Event("ls\na b", Failed));
  }

  lemma FourTurns(s: State, a: Event, b: Event, c: Event, d: Event)
    ensures Run(s, [a, b, c, d]) == Step(Step(Step(Step(s, a), b), c), d)
  {
    hide Step;
    assert Front([a, b, c, d]) == [a, b, c] && Front([a, b, c]) == [a, b] && Front([a, b]) == [a] && Front([a]) == [];
    assert Run(s, [a]) == Step(s, a) && Run(s, [a, b]) == Step(Step(s, a), b);
  }

  lemma Plain(s: string)
    requires '\0' !in s
    ensures CStr(s) == s
  {
    CStrWhole(s);
  }

  lemma {:induction false} EchoOf(line: string, rest: string)
    requires '\n' !in line
    ensures AfterNewline(line + "\n" + rest) == rest
  {
    if line == "" {
      assert line + "\n" + rest == "\n" + rest;
    } else {
      assert (line + "\n" + rest)[1..] == line[1..] + "\n" + rest;
      EchoOf(line[1..], rest);
    }
  }

  /** A session with a wrong first line. */
  lemma {:induction false} RefusedSession()
    ensures Run(INIT, [Event("", Data("wrong\n"))])
         == State("", false, false, false, [], "",
                  ["\n################# Invalid credentials #################\n", "COMMUNICATION_DELIMiTER"], true)
  {
    var e := Event("", Data("wrong\n"));
    Plain("wrong\n");
    OneLineStep(INIT, e, "wrong", "");
    assert Front([e]) == [];
    assert "wrong\n"[0] == 'w' && VALID_MESSAGE[0] == 'U';
  }
}
