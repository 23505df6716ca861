/** The console side of ccbot.rb (class ConsoleThread): each line typed on
    the console is classified by an ordered list of command prefixes and
    turned into lines written to the IRC connection. A console line is the
    text `gets` returns without its "\n" terminator. */
module Console {
  import opened RubyText
  import opened Protocol
  import opened Session

  /** What one console line asks for. */
  datatype Action =
    | Quit(reason: string)
    | Msg(target: string, text: string)
    | Join(channel: string)
    | Raw(text: string)
    | Chat(text: string)

  /** The keywords of the graceful-quit command. */
  const QuitWords: seq<string> := ["quit", "exit", "shutdown", "halt", "die"]

  /** `/^\/(quit|exit|...) (.*)/`: what follows the first keyword of `words`
      that the line starts with (after its slash and space). */
  function QuitReason(line: string, words: seq<string>): Option<string>
  {
    if words == [] then None
    else if StartsWith(line, "/" + words[0] + " ") then Some(line[|words[0]| + 2..])
    else QuitReason(line, words[1..])
  }

  /** The `case` of ConsoleThread#initialize, tried in order: quit family,
      `/msg <target> <text>` (the target runs up to the first space),
      `/join #<channel>`, `/raw <text>`, and chat for anything else. */
  function Classify(line: string): Action
  {
    match QuitReason(line, QuitWords)
    case Some(r) => Quit(r)
    case None =>
      if StartsWith(line, "/msg ") && IndexOf(line[5..], " ").Some? then
        var rest := line[5..];
        var j := IndexOf(rest, " ").value;
        Msg(rest[..j], rest[j + 1..])
      else if StartsWith(line, "/join #") then Join(line[6..])
      else if StartsWith(line, "/raw ") then Raw(line[5..])
      else Chat(line)
  }

  /** The lines an action writes. The console always passes the quit reason
      as a string (perhaps empty), so a console quit writes "QUIT " and the
      reason; chat goes to the first configured channel through
      say_to_chan. */
  function ActionLines(cfg: Config, a: Action): seq<string>
  {
    match a
    case Quit(r) => [QuitLine(Some(r))]
    case Msg(t, x) => ["PRIVMSG " + t + " " + x]
    case Join(c) => [JoinLine(c)]
    case Raw(x) => [x]
    case Chat(x) => PrivmsgLines(DefaultChannel(cfg), x)
  }

  /** What one console line writes. */
  function ConsoleLines(cfg: Config, line: string): seq<string>
  {
    ActionLines(cfg, Classify(line))
  }

  // ---------------------------------------------------------------------
  // The quit family
  // ---------------------------------------------------------------------

  /** A reason is found exactly when the line starts with "/", one of the
      keywords and a space, and it is then all the rest of the line. */
  lemma {:induction false} QuitReasonSpec(line: string, words: seq<string>)
    ensures QuitReason(line, words).None? <==> forall w :: w in words ==> !StartsWith(line, "/" + w + " ")
    ensures QuitReason(line, words).Some? ==>
      exists w :: w in words && line == "/" + w + " " + QuitReason(line, words).value
    decreases |words|
  {
    if words != [] {
      QuitReasonSpec(line, words[1..]);
      var w := words[0];
      var p := "/" + w + " ";
      if StartsWith(line, p) {
        assert |p| == |w| + 2;
        assert line == line[..|p|] + line[|p|..];
      }
      assert forall v :: v in words <==> v == w || v in words[1..];
    }
  }

  /** The keywords differ in their first letter, so at most one of them
      opens a line. */
  lemma QuitWordsDistinct(line: string, w: string)
    requires w in QuitWords && StartsWith(line, "/" + w + " ")
    ensures forall v :: v in QuitWords && v != w ==> !StartsWith(line, "/" + v + " ")
  {
    assert line[..|w| + 2][1] == line[1];
    assert ("/" + w + " ")[1] == w[0];
    forall v | v in QuitWords && v != w ensures !StartsWith(line, "/" + v + " ") {
      assert ("/" + v + " ")[1] == v[0];
      assert v[0] != w[0];
      DiffersAt(line, "/" + v + " ", 1);
    }
  }

  /** A quit line is recognised by its own keyword, whatever the reason. */
  lemma QuitRoundTrip(w: string, r: string)
    requires w in QuitWords
    ensures Classify("/" + w + " " + r) == Quit(r)
  {
    var line := "/" + w + " " + r;
    var p := "/" + w + " ";
    assert line[..|p|] == p;
    QuitWordsDistinct(line, w);
    QuitReasonSpec(line, QuitWords);
    var found := QuitReason(line, QuitWords).value;
    var v :| v in QuitWords && line == "/" + v + " " + found;
    assert line[..|v| + 2] == "/" + v + " ";
    assert v == w;
    assert line[|p|..] == r;
  }

  /** A line is a quit command exactly when it starts with "/", a keyword of
      the quit family and a space; the reason is then the rest of the
      line. */
  lemma ClassifyQuit(line: string)
    ensures Classify(line).Quit? <==> exists w :: w in QuitWords && StartsWith(line, "/" + w + " ")
    ensures Classify(line).Quit? ==> exists w :: w in QuitWords && line == "/" + w + " " + Classify(line).reason
  {
    QuitReasonSpec(line, QuitWords);
  }

  /** A console quit always writes "QUIT " followed by the reason, even an
      empty one: IRC#quit's bare "QUIT" is never written from the console. */
  lemma ConsoleQuit(cfg: Config, w: string, r: string)
    requires w in QuitWords
    ensures ConsoleLines(cfg, "/" + w + " " + r) == ["QUIT " + r]
    ensures ConsoleLines(cfg, "/" + w + " " + r) != [QuitLine(None)]
  {
    QuitRoundTrip(w, r);
    assert ("QUIT " + r)[..4] == "QUIT";
  }

  /** A quit keyword without the space after it is not a command: the line
      goes to the channel as chat. */
  lemma BareQuitIsChat(w: string)
    requires w in QuitWords
    ensures Classify("/" + w) == Chat("/" + w)
  {
    var line := "/" + w;
    assert line[1] == w[0];
    forall v | v in QuitWords ensures !StartsWith(line, "/" + v + " ") {
      if v != w {
        assert ("/" + v + " ")[1] == v[0];
        assert v[0] != w[0];
        DiffersAt(line, "/" + v + " ", 1);
      }
    }
    QuitReasonSpec(line, QuitWords);
    assert w[0] in {'q', 'e', 's', 'h', 'd'};
    DiffersAt(line, "/msg ", 1);
    DiffersAt(line, "/join #", 1);
    DiffersAt(line, "/raw ", 1);
  }

  // ---------------------------------------------------------------------
  // /msg, /join, /raw and chat
  // ---------------------------------------------------------------------

  /** The line starts with "/" and a letter that begins no quit keyword,
      so the quit family does not apply. */
  lemma NotQuit(line: string, c: char)
    requires |line| >= 2 && line[0] == '/' && line[1] == c
    requires c !in {'q', 'e', 's', 'h', 'd'}
    ensures QuitReason(line, QuitWords).None?
  {
    forall v | v in QuitWords ensures !StartsWith(line, "/" + v + " ") {
      assert ("/" + v + " ")[1] == v[0];
      assert v[0] in {'q', 'e', 's', 'h', 'd'};
      DiffersAt(line, "/" + v + " ", 1);
    }
    QuitReasonSpec(line, QuitWords);
  }

  /** `/msg <t> <x>` with a target free of spaces is a private message to
      `t` with the text `x`, whatever `x` holds. */
  lemma MsgRoundTrip(t: string, x: string)
    requires ' ' !in t
    ensures Classify("/msg " + t + " " + x) == Msg(t, x)
  {
    var line := "/msg " + t + " " + x;
    NotQuit(line, 'm');
    assert line[..5] == "/msg ";
    var rest := line[5..];
    assert rest == t + " " + x;
    IndexOfSpec(rest, " ");
    assert OccursAt(rest, " ", |t|) by { assert rest[|t|..|t| + 1] == " "; }
    forall k | 0 <= k < |t| ensures !OccursAt(rest, " ", k) {
      assert rest[k..k + 1] == [t[k]];
    }
    var j := IndexOf(rest, " ").value;
    assert j == |t|;
    assert rest[..j] == t && rest[j + 1..] == x;
  }

  /** A private message is classified only from a line "/msg <t> <x>" whose
      target holds no space. */
  lemma ClassifyMsg(line: string)
    ensures Classify(line).Msg? ==>
      ' ' !in Classify(line).target && line == "/msg " + Classify(line).target + " " + Classify(line).text
  {
    if Classify(line).Msg? {
      var rest := line[5..];
      IndexOfSpec(rest, " ");
      var j := IndexOf(rest, " ").value;
      forall k | 0 <= k < j ensures rest[k] != ' ' {
        assert !OccursAt(rest, " ", k);
        assert rest[k..k + 1] == [rest[k]];
      }
      assert rest[j..j + 1] == " ";
      assert rest == rest[..j] + " " + rest[j + 1..];
      assert line == line[..5] + rest;
    }
  }

  /** `/join #<c>` joins the channel "#<c>". */
  lemma JoinRoundTrip(c: string)
    requires |c| >= 1 && c[0] == '#'
    ensures Classify("/join " + c) == Join(c)
  {
    var line := "/join " + c;
    NotQuit(line, 'j');
    DiffersAt(line, "/msg ", 1);
    assert line[..7] == "/join #";
    assert line[6..] == c;
  }

  /** A join is classified only from a line "/join <c>" whose channel
      starts with '#'. */
  lemma ClassifyJoin(line: string)
    ensures Classify(line).Join? ==>
      |Classify(line).channel| >= 1 && Classify(line).channel[0] == '#' && line == "/join " + Classify(line).channel
  {
  }

  /** `/raw <x>` sends `x` unchanged. */
  lemma RawRoundTrip(x: string)
    ensures Classify("/raw " + x) == Raw(x)
  {
    var line := "/raw " + x;
    NotQuit(line, 'r');
    DiffersAt(line, "/msg ", 1);
    DiffersAt(line, "/join #", 1);
    assert line[..5] == "/raw ";
    assert line[5..] == x;
  }

  /** A raw line is classified only from a line "/raw <x>". */
  lemma ClassifyRaw(line: string)
    ensures Classify(line).Raw? ==> line == "/raw " + Classify(line).text
  {
  }

  /** Chat is what no command form matches, and the whole line is the
      text. */
  lemma ClassifyChat(line: string)
    ensures Classify(line).Chat? <==>
      (forall w :: w in QuitWords ==> !StartsWith(line, "/" + w + " "))
      && !(StartsWith(line, "/msg ") && ' ' in line[5..])
      && !StartsWith(line, "/join #")
      && !StartsWith(line, "/raw ")
    ensures Classify(line).Chat? ==> Classify(line).text == line
  {
    QuitReasonSpec(line, QuitWords);
    if StartsWith(line, "/msg ") {
      var rest := line[5..];
      IndexOfSpec(rest, " ");
      if ' ' in rest {
        var k :| 0 <= k < |rest| && rest[k] == ' ';
        assert OccursAt(rest, " ", k) by { assert rest[k..k + 1] == [rest[k]]; }
      }
      if IndexOf(rest, " ").Some? {
        var j := IndexOf(rest, " ").value;
        assert rest[j..j + 1] == " ";
        assert rest[j] == ' ';
      }
    }
  }

  /** A line that does not start with '/' is always chat. */
  lemma PlainTextIsChat(line: string)
    requires line == [] || line[0] != '/'
    ensures Classify(line) == Chat(line)
  {
    ClassifyChat(line);
    if line != [] {
      forall w | w in QuitWords ensures !StartsWith(line, "/" + w + " ") {
        DiffersAt(line, "/" + w + " ", 0);
      }
      DiffersAt(line, "/msg ", 0);
      DiffersAt(line, "/join #", 0);
      DiffersAt(line, "/raw ", 0);
    }
  }

  // ---------------------------------------------------------------------
  // What the console writes
  // ---------------------------------------------------------------------

  /** Every command writes exactly one line; only chat may write several
      (one per segment) or none. */
  lemma CommandsWriteOneLine(cfg: Config, line: string)
    requires !Classify(line).Chat?
    ensures |ConsoleLines(cfg, line)| == 1
  {
  }

  /** A one-line chat message, plain text or a '/' line no command form
      matches, goes to the first configured channel as one PRIVMSG. */
  lemma ChatOneLine(cfg: Config, line: string)
    requires line != [] && Classify(line).Chat? && NoNewline(line)
    ensures ConsoleLines(cfg, line) == [PrivmsgLine(DefaultChannel(cfg), line)]
  {
    ClassifyChat(line);
    SplitLinesSingle(line);
  }

  /** An empty console line writes nothing: "\n".split("\n") has no
      segment. */
  lemma EmptyLineSilent(cfg: Config)
    ensures ConsoleLines(cfg, "") == []
  {
  }

  /** The source hands say_to_chan the line with its "\n" terminator; the
      split drops it, so the chat written is that of the bare line. */
  lemma ChatIgnoresTerminator(cfg: Config, line: string)
    ensures PrivmsgLines(DefaultChannel(cfg), line + "\n") == ActionLines(cfg, Chat(line))
  {
  }

  /** One pass of the console loop: classify the line and act on it
      through the session object. */
  method HandleInput(bot: Irc, line: string)
    modifies bot
    ensures bot.out == old(bot.out) + ConsoleLines(bot.cfg, line)
  {
    match Classify(line)
    case Quit(r) =>
      bot.Quit(Some(r));
    case Msg(t, x) =>
      bot.Say("PRIVMSG " + t + " " + x);
    case Join(c) =>
      bot.Say("JOIN " + c);
    case Raw(x) =>
      bot.Say(x);
    case Chat(x) =>
      bot.SayToChan(x, DefaultChannel(bot.cfg));
  }
}
