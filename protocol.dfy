/** The IRC side of the bot as values: the lines it writes, the tests it
    applies to each line it reads, and the `!cc` argument policy
    (ccbot.rb, class IRC). */
module Protocol {
  import opened RubyText

  /** The `@bot` hash built by IRC#initialize; the first channel is the
      default one. */
  datatype Config = Config(server: string, port: string, nick: string, channels: seq<string>)

  // ---------------------------------------------------------------------
  // Outbound lines
  // ---------------------------------------------------------------------

  /** The two registration lines written by IRC#connect, in order. */
  function RegistrationLines(nick: string): seq<string>
  {
    ["NICK " + nick, "USER " + nick + " 0 * ."]
  }

  function JoinLine(channel: string): string
  {
    "JOIN " + channel
  }

  /** One JOIN per configured channel, in configured order. */
  function JoinLines(channels: seq<string>): seq<string>
  {
    seq(|channels|, i requires 0 <= i < |channels| => JoinLine(channels[i]))
  }

  /** The keep-alive answer: no colon before the token. */
  function PongLine(token: string): string
  {
    "PONG " + token
  }

  /** How `#{chan}` renders: a match object as its text, `nil` as nothing. */
  function ChanText(chan: Option<string>): string
  {
    match chan
    case None => ""
    case Some(c) => c
  }

  function PrivmsgLine(chan: Option<string>, segment: string): string
  {
    "PRIVMSG " + ChanText(chan) + " :" + segment
  }

  /** What IRC#say_to_chan writes: one PRIVMSG per segment of
      `text.split("\n")`. */
  function PrivmsgLines(chan: Option<string>, text: string): seq<string>
  {
    var segs := SplitLines(text);
    seq(|segs|, i requires 0 <= i < |segs| => PrivmsgLine(chan, segs[i]))
  }

  /** What IRC#quit writes. */
  function QuitLine(reason: Option<string>): string
  {
    match reason
    case None => "QUIT"
    case Some(r) => "QUIT " + r
  }

  /** The default of say_to_chan's channel argument, `@bot[:channel][0]`,
      which is `nil` for an empty channel list. */
  function DefaultChannel(cfg: Config): Option<string>
  {
    if |cfg.channels| > 0 then Some(cfg.channels[0]) else None
  }

  /** A multi-line text whose segments are newline-free (the last one not
      empty) is written as one PRIVMSG per segment, in order. */
  lemma PrivmsgLinesOfSegments(chan: Option<string>, segs: seq<string>)
    requires forall i :: 0 <= i < |segs| ==> NoNewline(segs[i])
    requires segs == [] || segs[|segs| - 1] != ""
    ensures |PrivmsgLines(chan, Unlines(segs))| == |segs|
    ensures forall i :: 0 <= i < |segs| ==> PrivmsgLines(chan, Unlines(segs))[i] == PrivmsgLine(chan, segs[i])
  {
    SplitLinesOfJoin(segs);
  }

  /** Every line say_to_chan writes is a single protocol line: when the
      channel text has no newline, neither has any written line. */
  lemma PrivmsgLinesAreLines(chan: Option<string>, text: string)
    requires NoNewline(ChanText(chan))
    ensures forall i :: 0 <= i < |PrivmsgLines(chan, text)| ==> NoNewline(PrivmsgLines(chan, text)[i])
  {
    SplitLinesSpec(text);
    var segs := SplitLines(text);
    forall i | 0 <= i < |segs| ensures NoNewline(PrivmsgLines(chan, text)[i]) {
      assert NoNewline(segs[i]);
      var l := PrivmsgLine(chan, segs[i]);
      assert l == "PRIVMSG " + ChanText(chan) + " :" + segs[i];
      forall k | 0 <= k < |l| ensures l[k] != '\n' {
        if k < 8 {
          assert l[k] == "PRIVMSG "[k];
        } else if k < 8 + |ChanText(chan)| {
          assert l[k] == ChanText(chan)[k - 8];
        } else if k < 10 + |ChanText(chan)| {
          assert l[k] == " :"[k - 8 - |ChanText(chan)|];
        } else {
          assert l[k] == segs[i][k - 10 - |ChanText(chan)|];
        }
      }
    }
  }

  // ---------------------------------------------------------------------
  // Inbound lines (text before the "\n" terminator)
  // ---------------------------------------------------------------------

  /** `/^PING :(.*)$/`: the token after "PING :", if the line starts so. */
  function PingToken(line: string): Option<string>
  {
    if StartsWith(line, "PING :") then Some(line[6..]) else None
  }

  /** A token is found exactly for the lines "PING :<token>", and it is
      everything after the colon. */
  lemma PingTokenSpec(line: string, token: string)
    ensures PingToken(line) == Some(token) <==> line == "PING :" + token
    ensures PingToken(line).None? <==> !StartsWith(line, "PING :")
  {
  }

  /** `/.*NOTICE.*<nick>/`: the nick appears somewhere after the first NOTICE. */
  predicate IsJoinNotice(line: string, nick: string)
  {
    match IndexOf(line, "NOTICE")
    case None => false
    case Some(i) => IndexOf(line[i + 6..], nick).Some?
  }

  lemma OccursInSuffix(s: string, pat: string, d: nat, k: nat)
    requires d <= |s|
    ensures OccursAt(s[d..], pat, k) <==> OccursAt(s, pat, k + d)
  {
  }

  /** The first-NOTICE test is the pattern `.*NOTICE.*<nick>` read
      literally: some NOTICE is followed, later on the line, by the nick. */
  lemma JoinNoticeIff(line: string, nick: string)
    ensures IsJoinNotice(line, nick) <==>
      exists i, j :: OccursAt(line, "NOTICE", i) && i + 6 <= j && OccursAt(line, nick, j)
  {
    IndexOfSpec(line, "NOTICE");
    match IndexOf(line, "NOTICE")
    case None =>
    case Some(i0) =>
      var tail := line[i0 + 6..];
      IndexOfSpec(tail, nick);
      if IsJoinNotice(line, nick) {
        var k := IndexOf(tail, nick).value;
        OccursInSuffix(line, nick, i0 + 6, k);
        assert OccursAt(line, "NOTICE", i0) && i0 + 6 <= k + i0 + 6 && OccursAt(line, nick, k + i0 + 6);
      } else {
        forall i, j | OccursAt(line, "NOTICE", i) && i + 6 <= j
          ensures !OccursAt(line, nick, j)
        {
          assert i0 <= i;
          OccursInSuffix(line, nick, i0 + 6, j - i0 - 6);
          assert !OccursAt(tail, nick, j - i0 - 6);
        }
      }
  }

  /** `/\#(.*?) /`: from the first '#' up to and including the next space. */
  function ChannelOf(line: string): Option<string>
  {
    match IndexOf(line, "#")
    case None => None
    case Some(i) =>
      match IndexOf(line[i..], " ")
      case None => None
      case Some(j) => Some(line[i..i + j + 1])
  }

  lemma SingleCharOccurs(s: string, c: char, k: int)
    requires 0 <= k < |s|
    ensures OccursAt(s, [c], k) <==> s[k] == c
  {
  }

  /** The channel text is found exactly when some '#' has a space after it;
      it then starts at the first '#' of the line, ends with the first space
      after it, and holds no other space. */
  lemma ChannelOfSpec(line: string)
    ensures ChannelOf(line).Some? <==> exists i, j :: 0 <= i < j < |line| && line[i] == '#' && line[j] == ' '
    ensures ChannelOf(line).Some? ==> var c := ChannelOf(line).value;
      |c| >= 2 && c[0] == '#' && c[|c| - 1] == ' ' && (forall k :: 0 <= k < |c| - 1 ==> c[k] != ' ')
    ensures ChannelOf(line).Some? ==> exists i :: (OccursAt(line, ChannelOf(line).value, i)
      && line[i] == '#' && forall k :: 0 <= k < i ==> line[k] != '#')
  {
    IndexOfSpec(line, "#");
    match IndexOf(line, "#")
    case None =>
      forall i | 0 <= i < |line| ensures line[i] != '#' {
        SingleCharOccurs(line, '#', i);
      }
    case Some(i) =>
      SingleCharOccurs(line, '#', i);
      forall k | 0 <= k < i ensures line[k] != '#' {
        SingleCharOccurs(line, '#', k);
      }
      var rest := line[i..];
      IndexOfSpec(rest, " ");
      match IndexOf(rest, " ")
      case None =>
        forall a, b | 0 <= a < b < |line| && line[a] == '#' ensures line[b] != ' ' {
          SingleCharOccurs(rest, ' ', b - i);
        }
      case Some(j) =>
        SingleCharOccurs(rest, ' ', j);
        assert j >= 1;
        forall k | 0 <= k < j ensures rest[k] != ' ' {
          SingleCharOccurs(rest, ' ', k);
        }
        var c := line[i..i + j + 1];
        assert c == rest[..j + 1];
        assert line[i] == '#' && line[i + j] == ' ';
        assert OccursAt(line, c, i);
  }

  /** `:!cc` at index `k`, followed by whitespace or the end of the line
      (`/\:!cc(?!\S)/`). */
  predicate TriggerAt(line: string, k: int)
  {
    OccursAt(line, ":!cc", k) && (k + 4 == |line| || IsSpace(line[k + 4]))
  }

  /** The line invokes `!cc`: some `:!cc` is not followed by a
      non-whitespace character. */
  predicate CcTriggered(line: string)
  {
    exists k :: 0 <= k <= |line| - 4 && TriggerAt(line, k)
  }

  /** `recv['args'].split(" ")`: the words after the FIRST `:!cc` of the
      line (the named-group pattern matches at the leftmost `:!cc`). */
  function CcArgs(line: string): seq<string>
  {
    match IndexOf(line, ":!cc")
    case None => []
    case Some(k) => Words(line[k + 4..])
  }

  /** The `!cc` invocation with its words after it, or alone at the end of
      the line. */
  function Invocation(ws: seq<string>): string
  {
    if ws == [] then ":!cc" else ":!cc " + Unwords(ws)
  }

  /** The first `:!cc` of a line is the one after a text holding none:
      its colon cannot complete an occurrence started earlier. */
  lemma FirstTrigger(pre: string, tail: string)
    requires forall k :: !OccursAt(pre, ":!cc", k)
    ensures IndexOf(pre + ":!cc" + tail, ":!cc") == Some(|pre|)
  {
    var line := pre + ":!cc" + tail;
    assert line[|pre|..|pre| + 4] == ":!cc";
    forall k | 0 <= k < |pre| ensures !OccursAt(line, ":!cc", k) {
      if k + 4 <= |pre| {
        assert line[k..k + 4] == pre[k..k + 4];
        assert !OccursAt(pre, ":!cc", k);
      } else {
        assert line[k..k + 4][|pre| - k] == line[|pre|];
      }
    }
    assert OccursAt(line, ":!cc", |pre|);
    IndexOfSpec(line, ":!cc");
    var v := IndexOf(line, ":!cc").value;
    assert !(v < |pre|) && !(|pre| < v);
  }

  /** What follows `:!cc` in an invocation with whitespace after it: it
      is empty or starts with whitespace, and its fields are exactly the typed words. */
  lemma {:induction false} InvocationTail(ws: seq<string>, t: string)
    requires forall i :: 0 <= i < |ws| ==> IsWord(ws[i])
    requires AllSpace(t)
    ensures var tail := (if ws == [] then "" else " " + Unwords(ws)) + t;
      (tail == [] || IsSpace(tail[0])) && Words(tail) == ws
  {
    if ws != [] {
      var tail := " " + Unwords(ws) + t;
      assert tail == [' '] + (Unwords(ws) + t);
      WordsSkipsLeadingSpace(' ', Unwords(ws) + t);
      WordsSkipsTrailingSpace(Unwords(ws), t);
      WordsOfUnwords(ws);
    } else {
      assert "" + t == t;
      WordsOfSpace(t);
    }
  }

  /** A line whose text holds no `:!cc` before an invocation triggers the
      command, and the arguments are exactly the words typed after it,
      whatever whitespace ends the line (the "\r" of CRLF included). */
  lemma CcArgsOfInvocation(pre: string, ws: seq<string>, t: string)
    requires forall k :: !OccursAt(pre, ":!cc", k)
    requires forall i :: 0 <= i < |ws| ==> IsWord(ws[i])
    requires AllSpace(t)
    ensures CcTriggered(pre + Invocation(ws) + t)
    ensures CcArgs(pre + Invocation(ws) + t) == ws
  {
    var tail := (if ws == [] then "" else " " + Unwords(ws)) + t;
    var line := pre + ":!cc" + tail;
    assert Invocation(ws) + t == ":!cc" + tail;
    assert pre + Invocation(ws) + t == line;
    FirstTrigger(pre, tail);
    InvocationTail(ws, t);
    assert line[|pre|..|pre| + 4] == ":!cc";
    assert line[|pre| + 4..] == tail;
    assert TriggerAt(line, |pre|);
  }

  // ---------------------------------------------------------------------
  // The !cc argument policy
  // ---------------------------------------------------------------------

  /** The help text is written over a backslash-newline continuation in
      the source; its value is these two lines joined by one "\n". */
  const HelpLine1: string := "CryptoCurrency bot use: !cc [options]"
  const HelpLine2: string := "Valid switches are: -h (this help), " + "-l to list supported coins, " + "or a space seperated list of coin symbols."
  const HelpText: string := HelpLine1 + "\n" + HelpLine2
  const ListText: string := "Currently supported symbols: BTC, LTC, ETH"
  const TooManyText: string := "Too many arguments"
  /** The most symbols one `!cc` may ask for. */
  const MaxArgs: nat := 3
  /** dailyStats's default argument. */
  const DefaultCoin: string := "BTC"

  /** `x.upcase` is one of the supported symbols. */
  predicate Supported(x: string)
  {
    var u := Upcase(x);
    u == "BTC" || u == "LTC" || u == "ETH"
  }

  /** A symbol is supported exactly when it is BTC, LTC or ETH in any
      mixture of cases. */
  lemma SupportedIff(x: string)
    ensures Supported(x) <==> CaseEq(x, "BTC") || CaseEq(x, "LTC") || CaseEq(x, "ETH")
  {
    UpcaseIs(x, "BTC");
    UpcaseIs(x, "LTC");
    UpcaseIs(x, "ETH");
  }

  /** What one `!cc` does: a fixed text, or provider calls for these
      symbols, in order. */
  datatype CcCommand = Help | List | TooMany | Quotes(coins: seq<string>)

  /** The arguments whose upcase is supported, kept as typed and in order. */
  function SupportedArgs(args: seq<string>): seq<string>
  {
    if args == [] then []
    else
      var r := SupportedArgs(args[..|args| - 1]);
      if Supported(args[|args| - 1]) then r + [args[|args| - 1]] else r
  }

  /** Exactly the supported arguments are kept, each as often as it was
      given. */
  lemma {:induction false} SupportedArgsSpec(args: seq<string>)
    ensures |SupportedArgs(args)| <= |args|
    ensures forall i :: 0 <= i < |SupportedArgs(args)| ==> Supported(SupportedArgs(args)[i])
    ensures forall x :: multiset(SupportedArgs(args))[x] == if Supported(x) then multiset(args)[x] else 0
    decreases |args|
  {
    if args != [] {
      var front, last := args[..|args| - 1], args[|args| - 1];
      assert args == front + [last];
      SupportedArgsSpec(front);
      var r := SupportedArgs(front);
      if Supported(last) {
        assert SupportedArgs(args) == r + [last];
        forall i | 0 <= i < |r + [last]| ensures Supported((r + [last])[i]) {
          if i < |r| { assert (r + [last])[i] == r[i]; }
        }
      }
      assert multiset(args) == multiset(front) + multiset{last};
    }
  }

  /** Selecting the supported arguments commutes with concatenation, so
      the provider calls follow the argument order. */
  lemma {:induction false} SupportedArgsAppend(a: seq<string>, b: seq<string>)
    ensures SupportedArgs(a + b) == SupportedArgs(a) + SupportedArgs(b)
    decreases |b|
  {
    if b == [] {
      assert a + b == a;
    } else {
      var front, last := b[..|b| - 1], b[|b| - 1];
      assert b == front + [last];
      assert a + b == (a + front) + [last];
      assert (a + b)[..|a + b| - 1] == a + front;
      SupportedArgsAppend(a, front);
    }
  }

  /** The argument decision of ccbot.rb's `!cc` branch. */
  function CcDecide(args: seq<string>): CcCommand
  {
    if args == [] then Quotes([DefaultCoin])
    else if args[0] == "-h" then Help
    else if args[0] == "-l" then List
    else if |args| > MaxArgs then TooMany
    else Quotes(SupportedArgs(args))
  }

  /** The symbols passed to the quote provider. */
  function ProviderCalls(cmd: CcCommand): seq<string>
  {
    if cmd.Quotes? then cmd.coins else []
  }

  /** The `!cc` policy case by case: no argument asks for the default coin
      once; a leading -h or -l answers with the fixed text whatever else
      follows; more than three arguments answer "Too many arguments" without
      a provider call; otherwise each supported argument is quoted once, as
      typed and in argument order. */
  lemma CcPolicy(args: seq<string>)
    ensures args == [] ==> ProviderCalls(CcDecide(args)) == ["BTC"]
    ensures args != [] && args[0] == "-h" ==> CcDecide(args) == Help && ProviderCalls(CcDecide(args)) == []
    ensures args != [] && args[0] == "-l" ==> CcDecide(args) == List && ProviderCalls(CcDecide(args)) == []
    ensures |args| > 3 && args[0] != "-h" && args[0] != "-l" ==> CcDecide(args) == TooMany && ProviderCalls(CcDecide(args)) == []
    ensures 1 <= |args| <= 3 && args[0] != "-h" && args[0] != "-l" ==>
      forall x :: multiset(ProviderCalls(CcDecide(args)))[x] == if Supported(x) then multiset(args)[x] else 0
  {
    if 1 <= |args| <= 3 && args[0] != "-h" && args[0] != "-l" {
      SupportedArgsSpec(args);
    }
  }

  /** Whatever the arguments, at most three provider calls are made, each
      for a supported symbol. */
  lemma ProviderCallsBounded(args: seq<string>)
    ensures |ProviderCalls(CcDecide(args))| <= MaxArgs
    ensures forall i :: 0 <= i < |ProviderCalls(CcDecide(args))| ==> Supported(ProviderCalls(CcDecide(args))[i])
  {
    if args != [] && args[0] != "-h" && args[0] != "-l" && |args| <= MaxArgs {
      SupportedArgsSpec(args);
    } else if args == [] {
      assert Upcase(DefaultCoin) == "BTC";
    }
  }

  /** say_to_chan applied to the quote of each coin in turn; `stats` is
      the quote provider CryptoPull.dailyStats. */
  function QuoteLines(coins: seq<string>, chan: Option<string>, stats: string -> string): seq<string>
  {
    if coins == [] then []
    else QuoteLines(coins[..|coins| - 1], chan, stats) + PrivmsgLines(chan, stats(coins[|coins| - 1]))
  }

  /** What one `!cc` writes to the channel `chan`. A fixed answer is given
      here by its segments; HelpAnswer, ListAnswer and TooManyAnswer show
      that they are what say_to_chan writes for the fixed texts. */
  function CommandLines(cmd: CcCommand, chan: Option<string>, stats: string -> string): seq<string>
  {
    match cmd
    case Help => [PrivmsgLine(chan, HelpLine1), PrivmsgLine(chan, HelpLine2)]
    case List => [PrivmsgLine(chan, ListText)]
    case TooMany => [PrivmsgLine(chan, TooManyText)]
    case Quotes(coins) => QuoteLines(coins, chan, stats)
  }

  /** The quotes are written one after another, in coin order: the lines
      for `a + b` are those for `a`, then those for `b`. */
  lemma {:induction false} QuoteLinesAppend(a: seq<string>, b: seq<string>, chan: Option<string>, stats: string -> string)
    ensures QuoteLines(a + b, chan, stats) == QuoteLines(a, chan, stats) + QuoteLines(b, chan, stats)
    decreases |b|
  {
    if b == [] {
      assert a + b == a;
    } else {
      var front := b[..|b| - 1];
      assert b == front + [b[|b| - 1]];
      assert (a + b)[..|a + b| - 1] == a + front;
      QuoteLinesAppend(a, front, chan, stats);
      ConcatAssoc(QuoteLines(a, chan, stats), QuoteLines(front, chan, stats), PrivmsgLines(chan, stats(b[|b| - 1])));
    }
  }

  /** One coin's quote is written as say_to_chan writes any text. */
  lemma QuoteLinesSingle(coin: string, chan: Option<string>, stats: string -> string)
    ensures QuoteLines([coin], chan, stats) == PrivmsgLines(chan, stats(coin))
  {
  }

  lemma ListTextPlain() ensures NoNewline(ListText) {}
  lemma TooManyTextPlain() ensures NoNewline(TooManyText) {}

  lemma HelpLinesPlain()
    ensures NoNewline(HelpLine1) && NoNewline(HelpLine2) && HelpLine2 != ""
    ensures HelpText == Unlines([HelpLine1, HelpLine2])
  {
  }

  /** say_to_chan writes the help text as two PRIVMSG lines, one per line
      of the text. */
  lemma HelpAnswer(chan: Option<string>)
    ensures PrivmsgLines(chan, HelpText) == [PrivmsgLine(chan, HelpLine1), PrivmsgLine(chan, HelpLine2)]
  {
    HelpLinesPlain();
    PrivmsgLinesOfSegments(chan, [HelpLine1, HelpLine2]);
  }

  /** say_to_chan writes the symbol list as one PRIVMSG line. */
  lemma ListAnswer(chan: Option<string>)
    ensures PrivmsgLines(chan, ListText) == [PrivmsgLine(chan, ListText)]
  {
    ListTextPlain();
    SplitLinesSingle(ListText);
  }

  /** say_to_chan writes the too-many answer as one PRIVMSG line. */
  lemma TooManyAnswer(chan: Option<string>)
    ensures PrivmsgLines(chan, TooManyText) == [PrivmsgLine(chan, TooManyText)]
  {
    TooManyTextPlain();
    SplitLinesSingle(TooManyText);
  }
}
