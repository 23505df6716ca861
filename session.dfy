/** The IRC session of ccbot.rb: what the receive loop of IRC#run writes
    for each line it reads, as specification functions, and the class IRC
    whose methods write lines to its connection. The connection is the
    sequence `out` of the lines written so far; the lines read are a
    sequence given to Run; the quote provider is the function `stats`. */
module Session {
  import opened RubyText
  import opened Protocol

  /** What handling some input wrote, and whether the channels are joined
      afterwards. */
  datatype StepResult = StepResult(written: seq<string>, joined: bool)

  /** The JOINs a line causes: every channel, the first time a notice to the
      bot's nick is seen. */
  function JoinsFor(cfg: Config, joined: bool, line: string): seq<string>
  {
    if !joined && IsJoinNotice(line, cfg.nick) then JoinLines(cfg.channels) else []
  }

  /** What a line read writes after the join check: the PONG for a PING
      (which ends the pass), else the answer to a `!cc`, else nothing. */
  function Response(line: string, stats: string -> string): seq<string>
  {
    match PingToken(line)
    case Some(token) => [PongLine(token)]
    case None =>
      if CcTriggered(line) then CommandLines(CcDecide(CcArgs(line)), ChannelOf(line), stats) else []
  }

  /** One pass of the body of IRC#run's loop: the join check first, then
      the response. */
  function Step(cfg: Config, joined: bool, line: string, stats: string -> string): StepResult
  {
    StepResult(JoinsFor(cfg, joined, line) + Response(line, stats), joined || IsJoinNotice(line, cfg.nick))
  }

  /** A receive loop: `step` handles each line read, in order, starting
      from the joined flag `joined`. */
  function Fold(step: (bool, string) -> StepResult, joined: bool, lines: seq<string>): StepResult
  {
    if lines == [] then StepResult([], joined)
    else
      var before := Fold(step, joined, lines[..|lines| - 1]);
      var last := step(before.joined, lines[|lines| - 1]);
      StepResult(before.written + last.written, last.joined)
  }

  /** The receive loop of IRC#run over the lines read. */
  function RunLines(cfg: Config, joined: bool, lines: seq<string>, stats: string -> string): StepResult
  {
    Fold((j: bool, l: string) => Step(cfg, j, l, stats), joined, lines)
  }

  // ---------------------------------------------------------------------
  // Properties of a single line
  // ---------------------------------------------------------------------

  /** A PING is answered by exactly one PONG carrying its token, after any
      JOINs the same line causes, and nothing else is written for it. */
  lemma PingAnswered(cfg: Config, joined: bool, line: string, stats: string -> string, token: string)
    requires line == "PING :" + token
    ensures Step(cfg, joined, line, stats).written == JoinsFor(cfg, joined, line) + ["PONG " + token]
  {
  }

  /** A line that is neither a PING nor a `!cc` invocation writes nothing
      but the JOINs it may cause. */
  lemma OtherLinesSilent(cfg: Config, joined: bool, line: string, stats: string -> string)
    requires !StartsWith(line, "PING :") && !CcTriggered(line)
    ensures Step(cfg, joined, line, stats).written == JoinsFor(cfg, joined, line)
  {
  }

  // ---------------------------------------------------------------------
  // JOIN happens once
  // ---------------------------------------------------------------------

  predicate IsJoinLine(l: string)
  {
    StartsWith(l, "JOIN ")
  }

  /** The JOIN lines among the lines written, in order. */
  function JoinsIn(written: seq<string>): seq<string>
  {
    if written == [] then []
    else
      var front := JoinsIn(written[..|written| - 1]);
      if IsJoinLine(written[|written| - 1]) then front + [written[|written| - 1]] else front
  }

  lemma {:induction false} JoinsInAppend(a: seq<string>, b: seq<string>)
    ensures JoinsIn(a + b) == JoinsIn(a) + JoinsIn(b)
    decreases |b|
  {
    if b == [] {
      assert a + b == a;
    } else {
      var front := b[..|b| - 1];
      assert b == front + [b[|b| - 1]];
      assert (a + b)[..|a + b| - 1] == a + front;
      JoinsInAppend(a, front);
    }
  }

  lemma {:induction false} JoinsInJoinLines(channels: seq<string>)
    ensures JoinsIn(JoinLines(channels)) == JoinLines(channels)
    decreases |channels|
  {
    if channels != [] {
      var front := channels[..|channels| - 1];
      JoinsInJoinLines(front);
      assert JoinLines(channels) == JoinLines(front) + [JoinLine(channels[|channels| - 1])];
      assert JoinLines(channels)[..|channels| - 1] == JoinLines(front);
    }
  }

  lemma NotJoinLine(l: string)
    requires StartsWith(l, "P")
    ensures !IsJoinLine(l)
  {
    assert l[..1] == "P";
    assert l[0] == 'P';
    if |l| >= 5 {
      assert l[..5][0] == l[0];
    }
  }

  lemma {:induction false} NoJoinsIn(written: seq<string>)
    requires forall i :: 0 <= i < |written| ==> StartsWith(written[i], "P")
    ensures JoinsIn(written) == []
    decreases |written|
  {
    if written != [] {
      var front := written[..|written| - 1];
      assert forall i :: 0 <= i < |front| ==> front[i] == written[i];
      NoJoinsIn(front);
      NotJoinLine(written[|written| - 1]);
    }
  }

  lemma PrivmsgLinesArePrivmsg(chan: Option<string>, text: string)
    ensures forall i :: 0 <= i < |PrivmsgLines(chan, text)| ==> StartsWith(PrivmsgLines(chan, text)[i], "P")
  {
  }

  lemma {:induction false} QuoteLinesArePrivmsg(coins: seq<string>, chan: Option<string>, stats: string -> string)
    ensures forall i :: 0 <= i < |QuoteLines(coins, chan, stats)| ==> StartsWith(QuoteLines(coins, chan, stats)[i], "P")
    decreases |coins|
  {
    if coins != [] {
      var front := coins[..|coins| - 1];
      QuoteLinesArePrivmsg(front, chan, stats);
      var a, b := QuoteLines(front, chan, stats), PrivmsgLines(chan, stats(coins[|coins| - 1]));
      PrivmsgLinesArePrivmsg(chan, stats(coins[|coins| - 1]));
      assert QuoteLines(coins, chan, stats) == a + b;
      forall i | 0 <= i < |a + b| ensures StartsWith((a + b)[i], "P") {
        if i >= |a| {
          assert (a + b)[i] == b[i - |a|];
        } else {
          assert (a + b)[i] == a[i];
        }
      }
    }
  }

  lemma CommandLinesArePrivmsg(cmd: CcCommand, chan: Option<string>, stats: string -> string)
    ensures forall i :: 0 <= i < |CommandLines(cmd, chan, stats)| ==> StartsWith(CommandLines(cmd, chan, stats)[i], "P")
  {
    match cmd
    case Quotes(coins) => QuoteLinesArePrivmsg(coins, chan, stats);
    case _ =>
      forall i | 0 <= i < |CommandLines(cmd, chan, stats)| ensures StartsWith(CommandLines(cmd, chan, stats)[i], "P") {
        var l := CommandLines(cmd, chan, stats)[i];
        assert l[0] == 'P';
        assert l[..1] == "P";
      }
  }

  /** The only JOIN lines a line causes are those of the join check. */
  lemma StepJoins(cfg: Config, joined: bool, line: string, stats: string -> string)
    ensures JoinsIn(Step(cfg, joined, line, stats).written) == JoinsFor(cfg, joined, line)
    ensures Step(cfg, joined, line, stats).joined == (joined || IsJoinNotice(line, cfg.nick))
  {
    var joins := JoinsFor(cfg, joined, line);
    assert JoinsIn(joins) == joins by {
      if joins != [] { JoinsInJoinLines(cfg.channels); }
    }
    var rest := Response(line, stats);
    match PingToken(line)
    case Some(token) =>
      assert rest == [PongLine(token)];
      NoJoinsIn(rest);
    case None =>
      if CcTriggered(line) {
        CommandLinesArePrivmsg(CcDecide(CcArgs(line)), ChannelOf(line), stats);
        NoJoinsIn(rest);
      }
    JoinsInAppend(joins, rest);
  }

  /** Some line of `lines` is a notice to `nick`. */
  predicate AnyNotice(lines: seq<string>, nick: string)
  {
    exists k :: 0 <= k < |lines| && IsJoinNotice(lines[k], nick)
  }

  lemma AnyNoticeSnoc(lines: seq<string>, nick: string)
    requires lines != []
    ensures AnyNotice(lines, nick) ==
      (AnyNotice(lines[..|lines| - 1], nick) || IsJoinNotice(lines[|lines| - 1], nick))
  {
  }

  /** A step that writes `joins` at a notice while not joined, and no JOIN
      otherwise. */
  ghost predicate JoinsOnNotice(step: (bool, string) -> StepResult, nick: string, joins: seq<string>)
  {
    forall j: bool, l: string :: step(j, l).joined == (j || IsJoinNotice(l, nick))
      && JoinsIn(step(j, l).written) == (if !j && IsJoinNotice(l, nick) then joins else [])
  }

  lemma {:induction false} FoldJoins(step: (bool, string) -> StepResult, nick: string, joins: seq<string>,
                                     joined: bool, lines: seq<string>)
    requires JoinsOnNotice(step, nick, joins)
    ensures JoinsIn(Fold(step, joined, lines).written) == if !joined && AnyNotice(lines, nick) then joins else []
    ensures Fold(step, joined, lines).joined == (joined || AnyNotice(lines, nick))
    decreases |lines|
  {
    if lines != [] {
      var front, last := lines[..|lines| - 1], lines[|lines| - 1];
      FoldJoins(step, nick, joins, joined, front);
      var before := Fold(step, joined, front);
      JoinsInAppend(before.written, step(before.joined, last).written);
      AnyNoticeSnoc(lines, nick);
    }
  }

  /** Each line's step writes the channel JOINs at a notice while not
      joined, and no JOIN otherwise. */
  lemma SessionJoinsOnNotice(cfg: Config, stats: string -> string)
    ensures JoinsOnNotice((j: bool, l: string) => Step(cfg, j, l, stats), cfg.nick, JoinLines(cfg.channels))
  {
    forall j: bool, l: string {
      StepJoins(cfg, j, l, stats);
    }
  }

  /** Over any sequence of lines read, the JOIN lines written are one per
      configured channel, in configured order, if and only if some line is
      a notice to the bot's nick (and the channels were not joined yet);
      otherwise there are none. The joined state is set by the first such
      notice and never reset. */
  lemma JoinOnce(cfg: Config, joined: bool, lines: seq<string>, stats: string -> string)
    ensures JoinsIn(RunLines(cfg, joined, lines, stats).written) ==
      if !joined && AnyNotice(lines, cfg.nick) then JoinLines(cfg.channels) else []
    ensures RunLines(cfg, joined, lines, stats).joined == (joined || AnyNotice(lines, cfg.nick))
  {
    SessionJoinsOnNotice(cfg, stats);
    FoldJoins((j: bool, l: string) => Step(cfg, j, l, stats), cfg.nick, JoinLines(cfg.channels), joined, lines);
  }

  /** Reading `a` then `b` writes what `a` writes, then what `b` writes
      from the state `a` left. */
  lemma {:induction false} FoldAppend(step: (bool, string) -> StepResult, joined: bool, a: seq<string>, b: seq<string>)
    ensures Fold(step, joined, a + b) ==
      var first := Fold(step, joined, a);
      var second := Fold(step, first.joined, b);
      StepResult(first.written + second.written, second.joined)
    decreases |b|
  {
    if b == [] {
      assert a + b == a;
    } else {
      var front := b[..|b| - 1];
      assert b == front + [b[|b| - 1]];
      assert (a + b)[..|a + b| - 1] == a + front;
      FoldAppend(step, joined, a, front);
    }
  }

  /** Reading `lines` is reading the lines before index `k`, then line
      `k`, then the rest. */
  lemma FoldSplitAt(step: (bool, string) -> StepResult, joined: bool, lines: seq<string>, k: nat)
    requires k < |lines|
    ensures var before := Fold(step, joined, lines[..k]);
      var here := step(before.joined, lines[k]);
      Fold(step, joined, lines).written == before.written + here.written + Fold(step, here.joined, lines[k + 1..]).written
  {
    var pre := lines[..k];
    assert lines == pre + [lines[k]] + lines[k + 1..];
    FoldAppend(step, joined, pre + [lines[k]], lines[k + 1..]);
    FoldAppend(step, joined, pre, [lines[k]]);
    assert [lines[k]][..0] == [];
  }

  /** The JOINs are written while the first notice is handled: nothing read
      before it has joined or written a JOIN, its own output starts with the
      JOINs, and nothing after it writes another. */
  lemma JoinAtFirstNotice(cfg: Config, lines: seq<string>, k: nat, stats: string -> string)
    requires k < |lines| && IsJoinNotice(lines[k], cfg.nick)
    requires forall i :: 0 <= i < k ==> !IsJoinNotice(lines[i], cfg.nick)
    ensures RunLines(cfg, false, lines[..k], stats).joined == false
    ensures JoinsIn(RunLines(cfg, false, lines[..k], stats).written) == []
    ensures Step(cfg, false, lines[k], stats).written[..|cfg.channels|] == JoinLines(cfg.channels)
    ensures RunLines(cfg, false, lines, stats).written ==
      RunLines(cfg, false, lines[..k], stats).written + Step(cfg, false, lines[k], stats).written
      + RunLines(cfg, true, lines[k + 1..], stats).written
    ensures JoinsIn(RunLines(cfg, true, lines[k + 1..], stats).written) == []
  {
    var pre := lines[..k];
    assert !AnyNotice(pre, cfg.nick) by {
      forall i | 0 <= i < |pre| ensures !IsJoinNotice(pre[i], cfg.nick) {
        assert pre[i] == lines[i];
      }
    }
    JoinOnce(cfg, false, pre, stats);
    JoinOnce(cfg, true, lines[k + 1..], stats);
    FoldSplitAt((j: bool, l: string) => Step(cfg, j, l, stats), false, lines, k);
    var joins := JoinLines(cfg.channels);
    var written := Step(cfg, false, lines[k], stats).written;
    assert written == joins + Response(lines[k], stats);
    assert written[..|joins|] == joins;
  }

  // ---------------------------------------------------------------------
  // The session object
  // ---------------------------------------------------------------------

  /** ccbot.rb's class IRC. `out` is every line written to the connection,
      in order. */
  class Irc {
    const cfg: Config
    var out: seq<string>

    constructor(cfg: Config)
      ensures this.cfg == cfg && out == []
    {
      this.cfg := cfg;
      out := [];
    }

    /** IRC#say: one line written. */
    method Say(msg: string)
      modifies this
      ensures out == old(out) + [msg]
    {
      out := out + [msg];
    }

    /** IRC#connect, after the transport is up: NICK, then USER. */
    method Connect()
      modifies this
      ensures out == old(out) + RegistrationLines(cfg.nick)
    {
      Say("NICK " + cfg.nick);
      Say("USER " + cfg.nick + " 0 * .");
    }

    /** IRC#say_to_chan: one PRIVMSG per segment of the text. */
    method SayToChan(msg: string, chan: Option<string>)
      modifies this
      ensures out == old(out) + PrivmsgLines(chan, msg)
    {
      var r := SplitLines(msg);
      var i := 0;
      while i < |r|
        invariant 0 <= i <= |r|
        invariant out == old(out) + seq(i, k requires 0 <= k < i => PrivmsgLine(chan, r[k]))
      {
        Say("PRIVMSG " + ChanText(chan) + " :" + r[i]);
        i := i + 1;
      }
    }

    /** IRC#quit: QUIT with the reason, if one is given. */
    method Quit(reason: Option<string>)
      modifies this
      ensures out == old(out) + [QuitLine(reason)]
    {
      if reason.Some? {
        Say("QUIT " + reason.value);
      } else {
        Say("QUIT");
      }
    }

    method JoinChannels()
      modifies this
      ensures out == old(out) + JoinLines(cfg.channels)
    {
      var i := 0;
      while i < |cfg.channels|
        invariant 0 <= i <= |cfg.channels|
        invariant out == old(out) + JoinLines(cfg.channels[..i])
      {
        assert JoinLines(cfg.channels[..i + 1]) == JoinLines(cfg.channels[..i]) + [JoinLine(cfg.channels[i])];
        Say("JOIN " + cfg.channels[i]);
        i := i + 1;
      }
      assert cfg.channels[..i] == cfg.channels;
    }

    /** The `args.each` loop: a quote for every supported argument. */
    method SayQuotes(args: seq<string>, chan: Option<string>, stats: string -> string)
      modifies this
      ensures out == old(out) + QuoteLines(SupportedArgs(args), chan, stats)
    {
      var i := 0;
      while i < |args|
        invariant 0 <= i <= |args|
        invariant out == old(out) + QuoteLines(SupportedArgs(args[..i]), chan, stats)
      {
        assert args[..i + 1][..i] == args[..i];
        var kept := SupportedArgs(args[..i]);
        if Supported(args[i]) {
          assert SupportedArgs(args[..i + 1]) == kept + [args[i]];
          QuoteLinesAppend(kept, [args[i]], chan, stats);
          QuoteLinesSingle(args[i], chan, stats);
          SayToChan(stats(args[i]), chan);
          ConcatAssoc(old(out), QuoteLines(kept, chan, stats), PrivmsgLines(chan, stats(args[i])));
        } else {
          assert SupportedArgs(args[..i + 1]) == kept;
        }
        i := i + 1;
      }
      assert args[..i] == args;
    }

    /** The `!cc` branch once the arguments are split. */
    method SayCommand(args: seq<string>, chan: Option<string>, stats: string -> string)
      modifies this
      ensures out == old(out) + CommandLines(CcDecide(args), chan, stats)
    {
      if |args| > 0 {
        if args[0] == "-h" {
          HelpAnswer(chan);
          SayToChan(HelpText, chan);
        } else if args[0] == "-l" {
          ListAnswer(chan);
          SayToChan(ListText, chan);
        } else if |args| > MaxArgs {
          TooManyAnswer(chan);
          SayToChan(TooManyText, chan);
        } else {
          SayQuotes(args, chan, stats);
        }
      } else {
        QuoteLinesSingle(DefaultCoin, chan, stats);
        SayToChan(stats(DefaultCoin), chan);
      }
    }

    /** The rest of the loop body after the join check. */
    method Respond(line: string, stats: string -> string)
      modifies this
      ensures out == old(out) + Response(line, stats)
    {
      var token := PingToken(line);
      if token.Some? {
        Say("PONG " + token.value);
        return;
      }
      var chan := ChannelOf(line);
      if CcTriggered(line) {
        var args := CcArgs(line);
        SayCommand(args, chan, stats);
      }
    }

    /** The join check at the head of the loop body: every channel is
        joined at the first notice to the bot's nick. */
    method JoinCheck(line: string, joined: bool) returns (nowJoined: bool)
      modifies this
      ensures out == old(out) + JoinsFor(cfg, joined, line)
      ensures nowJoined == (joined || IsJoinNotice(line, cfg.nick))
    {
      nowJoined := joined;
      if !joined && IsJoinNotice(line, cfg.nick) {
        JoinChannels();
        nowJoined := true;
      }
    }

    /** The body of IRC#run's loop for one line read; `joined` is the loop's
        local flag before the line and `nowJoined` after it. */
    method HandleLine(line: string, joined: bool, stats: string -> string) returns (nowJoined: bool)
      modifies this
      ensures out == old(out) + Step(cfg, joined, line, stats).written
      ensures nowJoined == (joined || IsJoinNotice(line, cfg.nick))
    {
      nowJoined := JoinCheck(line, joined);
      Respond(line, stats);
      ConcatAssoc(old(out), JoinsFor(cfg, joined, line), Response(line, stats));
    }

    /** IRC#run: the lines read, handled in order, with `joined` starting
        false. */
    method Run(lines: seq<string>, stats: string -> string)
      modifies this
      ensures out == old(out) + RunLines(cfg, false, lines, stats).written
    {
      var joined := false;
      var i := 0;
      while i < |lines|
        invariant 0 <= i <= |lines|
        invariant out == old(out) + RunLines(cfg, false, lines[..i], stats).written
        invariant joined == RunLines(cfg, false, lines[..i], stats).joined
      {
        ghost var before := RunLines(cfg, false, lines[..i], stats);
        ghost var step := Step(cfg, before.joined, lines[i], stats);
        assert lines[..i + 1][..i] == lines[..i];
        assert RunLines(cfg, false, lines[..i + 1], stats) == StepResult(before.written + step.written, step.joined);
        joined := HandleLine(lines[i], joined, stats);
        ConcatAssoc(old(out), before.written, step.written);
        i := i + 1;
      }
      assert lines[..i] == lines;
    }
  }
}
