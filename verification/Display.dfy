/** The client's side of the output: what it prints of the messages the server frames. */
module Display {
  import opened Text
  import opened Session
  import Sp = SessionProperties

  /** The most one read of the connection returns to the client. */
  const SOCKET_BUF_SIZE: nat := 1024

  /** What the client prints of one read: the text in front of the first delimiter, and
      nothing when there is no delimiter. */
  function Printed(read: SslRead): string {
    match read
    case Data(chunk) =>
      (match Find(CStr(chunk), DELIMITER)
       case None => ""
       case Some(end) => CStr(chunk)[..end])
    case _ => ""
  }

  function PrintedAll(inputs: seq<SslRead>): string {
    if inputs == [] then "" else PrintedAll(Front(inputs)) + Printed(Last(inputs))
  }

  /** The receive loop. With oneTime it returns the first read that holds a delimiter and
      prints nothing; without, it prints until the connection is closed. The notice of the
      end itself is not part of what is printed here. */
  method RecvCmdOutput(inputs: seq<SslRead>, oneTime: bool) returns (result: string, printed: string, used: nat)
    ensures used <= |inputs|
    ensures oneTime ==> printed == ""
    ensures oneTime && result != "" ==>
              used > 0 && inputs[used - 1].Data? && result == CStr(inputs[used - 1].chunk)
              && Find(result, DELIMITER).Some?
    ensures oneTime ==> forall i :: 0 <= i < used && inputs[i].Data? && Find(CStr(inputs[i].chunk), DELIMITER).Some?
                          ==> i == used - 1 && result == CStr(inputs[i].chunk)
    ensures !oneTime ==> result == "" && printed == PrintedAll(inputs[..used])
    ensures forall i :: 0 <= i < used - 1 ==>
                        && !inputs[i].Closed?
                        && (oneTime && inputs[i].Data? ==> Find(CStr(inputs[i].chunk), DELIMITER).None?)
    ensures used < |inputs| ==> used > 0 && (result != "" || inputs[used - 1].Closed?)
  {
    hide Find, CStr, DELIMITER;
    result, printed, used := "", "", 0;
    while used < |inputs|
      invariant used <= |inputs|
      invariant forall i :: 0 <= i < used ==>
                            && !inputs[i].Closed?
                            && (oneTime && inputs[i].Data? ==> Find(CStr(inputs[i].chunk), DELIMITER).None?)
      invariant printed == if oneTime then "" else PrintedAll(inputs[..used])
    {
      var read := inputs[used];
      used := used + 1;
      assert Front(inputs[..used]) == inputs[..used - 1];
      match read
      case Closed =>
        return;
      case NotReady =>
        continue;
      case Failed =>
        continue;
      case Data(chunk) =>
        var output := CStr(chunk);
        var outputEnd := Find(output, DELIMITER);
        FindDelimiter(output);
        if outputEnd.Some? {
          if oneTime {
            result := output;
            return;
          }
          if output != DELIMITER {
            output := output[..outputEnd.value];
            printed := printed + output;
          } else {
            assert output[..0] == "";
          }
        }
    }
  }

  lemma {:induction false} FindDelimiter(s: string)
    ensures Find(s, DELIMITER).Some? ==> Find(s, DELIMITER).value <= |s| && s != ""
    ensures s == DELIMITER ==> Find(s, DELIMITER) == Some(0)
  {
    FindFirst(s, DELIMITER);
  }

  /** No proper end of the delimiter is also a beginning of it. */
  lemma {:induction false} NoBorder(k: nat)
    requires 0 < k < |DELIMITER|
    ensures DELIMITER[k..] != DELIMITER[..|DELIMITER| - k]
  {
    var d := DELIMITER;
    if k == 7 {
      assert d[k..][1] == 'A' && d[..|d| - k][1] == 'O';
    } else {
      assert d[k..][0] == d[k] != 'C' && d[..|d| - k][0] == 'C';
    }
  }

  lemma {:induction false} OccursEarly(text: string, d: string, i: nat)
    requires i + |d| <= |text|
    ensures Occurs(text + d, d, i) <==> Occurs(text, d, i)
  {
    assert (text + d)[i..i + |d|] == text[i..i + |d|];
  }

  lemma {:induction false} OverlapIsBorder(text: string, d: string, i: nat)
    requires i < |text| < i + |d| && Occurs(text + d, d, i)
    ensures var k := |text| - i; d[k..] == d[..|d| - k]
  {
    var m, k := text + d, |text| - i;
    SliceSlice(m, i, i + |d|, k, |d|);
    assert m[|text|..i + |d|] == d[..|d| - k];
    assert d[k..] == m[i..i + |d|][k..|d|];
  }

  /** In a text without the delimiter, followed by the delimiter, the only occurrence is
      the one that was appended. */
  lemma {:induction false} OnlyAtEnd(text: string, i: nat)
    requires forall j: nat :: !Occurs(text, DELIMITER, j)
    requires Occurs(text + DELIMITER, DELIMITER, i)
    ensures i == |text|
  {
    hide DELIMITER;
    if i + |DELIMITER| <= |text| {
      OccursEarly(text, DELIMITER, i);
    } else if i < |text| {
      OverlapIsBorder(text, DELIMITER, i);
      NoBorder(|text| - i);
    }
  }

  /** One message cut to what single reads return. */
  function Pieces(message: string): seq<string> {
    if |message| <= SOCKET_BUF_SIZE then [message]
    else [message[..SOCKET_BUF_SIZE]] + Pieces(message[SOCKET_BUF_SIZE..])
  }

  /** The client's reads of one message. */
  function Reads(message: string): seq<SslRead> {
    var pieces := Pieces(message);
    seq(|pieces|, i requires 0 <= i < |pieces| => Data(pieces[i]))
  }

  /** The client's reads of all messages: each read takes from one message only. */
  function Deliver(messages: seq<string>): seq<SslRead> {
    if messages == [] then [] else Reads(messages[0]) + Deliver(messages[1..])
  }

  predicate Plain(text: string) {
    '\0' !in text && Find(text, DELIMITER).None?
  }

  lemma {:induction false} PrintedAppend(a: seq<SslRead>, b: seq<SslRead>)
    ensures PrintedAll(a + b) == PrintedAll(a) + PrintedAll(b)
  {
    hide Printed;
    if b == [] {
      assert a + b == a;
    } else {
      PrintedAppend(a, Front(b));
      assert Front(a + b) == a + Front(b) && Last(a + b) == Last(b);
      Assoc(PrintedAll(a), PrintedAll(Front(b)), Printed(Last(b)));
    }
  }

  lemma {:induction false} PrintedOne(input: SslRead)
    ensures PrintedAll([input]) == Printed(input)
  {
    assert Front([input]) == [];
  }

  /** What one piece of a framed text prints: nothing, or, when it holds the whole
      delimiter, what of the text is in it. */
  lemma {:induction false} PrintedPiece(text: string, from: nat, to: nat)
    requires Plain(text) && from <= to <= |text + DELIMITER|
    ensures var p := Printed(Data((text + DELIMITER)[from..to]));
            if from <= |text| && to == |text + DELIMITER| then p == text[from..] else p == ""
  {
    hide DELIMITER, Find, CStr;
    var d := DELIMITER;
    var m := text + d;
    var piece := m[from..to];
    assert '\0' !in piece by { DelimiterHasNoNul(); }
    CStrWhole(piece);
    FindFirst(text, d);
    FindFirst(piece, d);
    if from <= |text| && to == |m| {
      SliceSlice(m, from, to, |text| - from, |text| - from + |d|);
      assert m[|text|..] == d;
      assert Occurs(piece, d, |text| - from);
    }
    if Find(piece, d).Some? {
      var i := Find(piece, d).value;
      SliceSlice(m, from, to, i, i + |d|);
      OnlyAtEnd(text, from + i);
      SliceSlice(m, from, to, 0, i);
      assert m[from..|text|] == text[from..];
    }
  }

  lemma DelimiterHasNoNul()
    ensures '\0' !in DELIMITER
  {
  }

  lemma ReadsUnfold(message: string)
    requires |message| > SOCKET_BUF_SIZE
    ensures Reads(message) == [Data(message[..SOCKET_BUF_SIZE])] + Reads(message[SOCKET_BUF_SIZE..])
  {
  }

  /** From its second piece on, a long message prints at most what is left of the text. */
  lemma {:induction false} PrintedRest(text: string, from: nat)
    requires Plain(text) && from < |text + DELIMITER|
    ensures |PrintedAll(Reads((text + DELIMITER)[from..]))| <= if from <= |text| then |text| - from else 0
    decreases |text + DELIMITER| - from
  {
    hide DELIMITER, Printed;
    var m := text + DELIMITER;
    var rest := m[from..];
    if |rest| <= SOCKET_BUF_SIZE {
      PrintedPiece(text, from, |m|);
      assert m[from..|m|] == rest;
      assert Reads(rest) == [Data(rest)];
      PrintedOne(Data(rest));
    } else {
      var next := from + SOCKET_BUF_SIZE;
      PrintedPiece(text, from, next);
      PrintedRest(text, next);
      assert m[from..next] == rest[..SOCKET_BUF_SIZE] && rest[SOCKET_BUF_SIZE..] == m[next..];
      ReadsUnfold(rest);
      PrintedOne(Data(m[from..next]));
      PrintedAppend([Data(m[from..next])], Reads(m[next..]));
    }
  }

  /** One framed text is printed whole exactly when one read returns all of it. */
  lemma {:induction false} PrintedMessage(text: string)
    requires Plain(text)
    ensures |text + DELIMITER| <= SOCKET_BUF_SIZE ==> PrintedAll(Reads(text + DELIMITER)) == text
    ensures |text + DELIMITER| > SOCKET_BUF_SIZE ==> |PrintedAll(Reads(text + DELIMITER))| < |text|
  {
    hide Printed;
    var m := text + DELIMITER;
    if |m| <= SOCKET_BUF_SIZE {
      PrintedPiece(text, 0, |m|);
      assert m[0..|m|] == m && text[0..] == text;
      assert Reads(m) == [Data(m)];
      PrintedOne(Data(m));
    } else {
      assert |DELIMITER| == 23;
      PrintedPiece(text, 0, SOCKET_BUF_SIZE);
      PrintedRest(text, SOCKET_BUF_SIZE);
      ReadsUnfold(m);
      PrintedOne(Data(m[..SOCKET_BUF_SIZE]));
      PrintedAppend([Data(m[..SOCKET_BUF_SIZE])], Reads(m[SOCKET_BUF_SIZE..]));
    }
  }

  predicate Short(text: string) {
    |text + DELIMITER| <= SOCKET_BUF_SIZE
  }

  /** The texts among the messages. */
  function TextsOf(messages: seq<Sp.Message>): seq<string> {
    if messages == [] then []
    else (if messages[0].Text? then [messages[0].text] else []) + TextsOf(messages[1..])
  }

  /** A notice of a failed read has no delimiter, and the client prints nothing of it. */
  lemma {:induction false} NoticePrintsNothing()
    ensures PrintedAll(Reads(READ_ERROR)) == ""
  {
    assert !(DELIMITER <= READ_ERROR);
    CStrWhole(READ_ERROR);
    FindFirst(READ_ERROR, DELIMITER);
    hide Find, CStr;
    assert Find(READ_ERROR, DELIMITER).None?;
    assert Reads(READ_ERROR) == [Data(READ_ERROR)];
    PrintedOne(Data(READ_ERROR));
  }

  lemma {:induction false} PrintedLength(messages: seq<Sp.Message>)
    requires forall t :: t in TextsOf(messages) ==> Plain(t)
    ensures var p, texts := PrintedAll(Deliver(Sp.Wire(messages))), TextsOf(messages);
            && |p| <= |Concat(texts)|
            && ((forall t :: t in texts ==> Short(t)) ==> p == Concat(texts))
            && ((exists t :: t in texts && !Short(t)) ==> |p| < |Concat(texts)|)
  {
    hide Plain, Short, Reads, DELIMITER, READ_ERROR;
    if messages != [] {
      var m, rest := messages[0], messages[1..];
      var texts := TextsOf(messages);
      PrintedLength(rest);
      WireUnfold(messages);
      PrintedAppend(Reads(Sp.WireOne(m)), Deliver(Sp.Wire(rest)));
      if m.Text? {
        assert texts[0] == m.text && texts[1..] == TextsOf(rest);
        assert Plain(m.text);
        PrintedMessage(m.text);
        ShortMeans(m.text);
        assert forall u :: u in texts <==> u == m.text || u in TextsOf(rest);
      } else {
        NoticePrintsNothing();
        assert texts == TextsOf(rest);
      }
    }
  }

  lemma ShortMeans(t: string)
    ensures Short(t) <==> |t + DELIMITER| <= SOCKET_BUF_SIZE
  {
  }

  lemma WireUnfold(messages: seq<Sp.Message>)
    requires messages != []
    ensures var f := Sp.Wire(messages);
            f[0] == Sp.WireOne(messages[0]) && f[1..] == Sp.Wire(messages[1..])
  {
  }

  /** Fidelity: of what the server sends the client prints exactly the texts if and only if
      every framed text fits in one read. */
  lemma {:induction false} Fidelity(messages: seq<Sp.Message>)
    requires forall t :: t in TextsOf(messages) ==> Plain(t)
    ensures PrintedAll(Deliver(Sp.Wire(messages))) == Concat(TextsOf(messages))
       <==> forall t :: t in TextsOf(messages) ==> Short(t)
  {
    PrintedLength(messages);
  }

  lemma NoneIn(text: string, d: string, i: nat)
    requires d != "" && d[0] !in text
    ensures !Occurs(text, d, i)
  {
  }

  /** A text of 1001 characters, with its delimiter, just fits in a read and is printed.
      One of 1002 characters is one byte too long, and the client prints less than it. */
  lemma {:induction false} LongTextIsCut(n: nat)
    requires n == 1001 || n == 1002
    ensures var text := seq(n, i => 'x');
            var printed := PrintedAll(Deliver(Sp.Wire([Sp.Text(text)])));
            Plain(text) && if n == 1001 then printed == text else |printed| < |text|
  {
    var text := seq(n, i => 'x');
    assert Plain(text) by {
      FindFirst(text, DELIMITER);
      assert DELIMITER[0] == 'C';
      forall i: nat ensures !Occurs(text, DELIMITER, i) {
        NoneIn(text, DELIMITER, i);
      }
    }
    assert |text + DELIMITER| == n + 23;
    hide Plain, Reads, DELIMITER;
    var messages := [Sp.Text(text)];
    assert TextsOf(messages) == [text] && Concat([text]) == text by {
      assert messages[1..] == [] && [text][1..] == [] && text + "" == text;
    }
    assert text in TextsOf(messages);
    ShortMeans(text);
    PrintedLength(messages);
  }

  lemma {:induction false} ShownHasNoNul(skip: bool, pty: string)
    ensures '\0' !in Shown(skip, pty)
  {
    CStrNoNul(pty);
    AfterNewlineIn(CStr(pty));
  }

  lemma {:induction false} CStrNoNul(s: string)
    ensures '\0' !in CStr(s)
  {
    if s != "" {
      CStrNoNul(s[1..]);
    }
  }

  lemma {:induction false} AfterNewlineIn(s: string)
    ensures forall c :: c in AfterNewline(s) ==> c in s
  {
    if s != "" {
      AfterNewlineIn(s[1..]);
    }
  }

  lemma {:induction false} TextsAppend(a: seq<Sp.Message>, b: seq<Sp.Message>)
    ensures TextsOf(a + b) == TextsOf(a) + TextsOf(b)
  {
    if a == [] {
      assert a + b == b;
    } else {
      TextsAppend(a[1..], b);
      assert (a + b)[0] == a[0] && (a + b)[1..] == a[1..] + b;
    }
  }

  lemma {:induction false} TextsHaveNoNul(es: seq<Event>, from: nat)
    ensures forall t :: t in TextsOf(Sp.Messages(es, from)) ==> '\0' !in t
  {
    hide Shown;
    if |es| > from {
      var s, e := Run(INIT, Front(es)), Last(es);
      TextsHaveNoNul(Front(es), from);
      ShownHasNoNul(s.skip, e.pty);
      var turn := Sp.TurnMessages(s, e);
      TextsAppend(Sp.Messages(Front(es), from), turn);
      assert turn != [] ==> TextsOf(turn[1..]) == [];
    }
  }

  /** From the terminal to the screen: of what is sent behind the greeting the client
      prints exactly what the session showed from then on, if no shown text holds the
      delimiter, if and only if every shown text, with its delimiter, fits in one read. */
  lemma {:induction false} TerminalToScreen(es: seq<Event>, k: nat)
    requires Sp.AuthAt(es, k)
    requires forall t :: t in TextsOf(Sp.Messages(es, k + 1)) ==> Find(t, DELIMITER).None?
    ensures var sent, texts := Run(INIT, es).sent, TextsOf(Sp.Messages(es, k + 1));
            var greeting := |Sp.Messages(es[..k + 1], 0)|;
            && greeting < |sent| && sent[greeting] == RESPONSE
            && (PrintedAll(Deliver(sent[greeting + 1..])) == Concat(texts) <==> forall t :: t in texts ==> Short(t))
  {
    hide RESPONSE, DELIMITER, Run;
    Sp.SentIsMessages(es, k);
    TextsHaveNoNul(es, k + 1);
    Fidelity(Sp.Messages(es, k + 1));
    var early := Sp.Wire(Sp.Messages(es[..k + 1], 0));
    assert Run(INIT, es).sent[|early| + 1..] == Sp.Wire(Sp.Messages(es, k + 1));
  }
}
