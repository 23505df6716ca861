# ccbot: the IRC line handling of a cryptocurrency quote bot

ccbot.rb is a small IRC bot. It registers with a server, joins its
channels when the server first sends it a notice, answers PING with PONG,
and answers the chat command `!cc` with quotes from a quote provider. A
console thread turns typed lines into IRC commands or chat.

This project models that line handling in Dafny. With the socket, the
threads and the HTTP provider abstracted away, every piece becomes "input
line(s) → sequence of IRC lines written".

- `rubytext.dfy` (module `RubyText`): the few Ruby string operations the bot
  relies on. These are the leftmost search for a literal text,
  `split("\n")` (trailing empty fields dropped), the awk-style `split(" ")`
  and `upcase` on ASCII letters. `Unlines` and `Unwords` join texts back
  with "\n" and " "; the bot never calls them, they are the inverses that
  state the round trips of the two splits. The bot's regular expressions
  (ccbot.rb:58, 62, 71, 74, 82 and 143-152) use `.*`, a lazy quantifier, a
  look-ahead and named groups. On a line without its "\n", each of them
  comes down to prefix tests and leftmost searches for literal pieces
  ("NOTICE" then the nick, '#' then ' ', ":!cc"), and that is how the model
  states them.
- `protocol.dfy` (module `Protocol`): the IRC side as values.
  - The configuration.
  - The lines the bot writes: registration, JOIN, PONG, PRIVMSG, QUIT.
  - The tests applied to each line read: the join notice, PING, the
    channel match and the `!cc` trigger with its arguments.
  - The `!cc` argument policy and the PRIVMSG lines each command writes.
- `session.dfy` (module `Session`):
  - The receive loop of `IRC#run` as specification functions. `Step` handles
    one line. `RunLines` is the fold over all lines read.
  - The lemmas about the JOIN-once behaviour.
  - `class Irc`. Its field `out` is every line written to the connection so
    far, and its methods (`Say`, `Connect`, `SayToChan`, `Quit`,
    `HandleLine`, `Run`, ...) append to it with loops as the source does.
    Each method is proved against the specification functions.
- `console.dfy` (module `Console`):
  - The ordered prefix grammar of `ConsoleThread#initialize`, as an `Action`
    datatype.
  - The lines each action writes.
  - Round-trip lemmas for every command form.
  - `HandleInput`, which acts on a line through an `Irc` object.

Modelling choices:

- **Lines.** A line read from the socket or the console is its text without
  the `"\n"` terminator. Ruby's `^`, `$` and `.` in the bot's patterns then
  mean start, end and any character. A `"\r"` before the terminator stays in
  the line, as it does in the source.
- **The `joined` flag** is a local variable of `IRC#run`
  (ccbot.rb:52), not an instance variable. The model keeps it as a local
  of `Irc.Run`, and `HandleLine` takes it and returns it.
- **The `chan` match at ccbot.rb:71** is the regex match object. It covers
  the first `#` up to and including the next space (for example `"#chan "`),
  or is `nil`, which interpolates as the empty string. Answers to `!cc` are
  therefore written as `PRIVMSG #chan  :text`, with two spaces. This is
  modelled as written.
- **The `!cc` trigger** (ccbot.rb:74) fires for any `:!cc` that is followed
  by whitespace or the end of the line. The arguments come from the leftmost
  `:!cc` (ccbot.rb:76-83). These are modelled separately, as in the source.
- **Console quits** (ccbot.rb:143-144). The captured reason is always a
  string, possibly empty, and Ruby treats an empty string as true. So a
  console quit writes `QUIT <reason>`, never the bare `QUIT` of `IRC#quit`.
- **The quote provider** `CryptoPull.dailyStats` is a parameter
  `stats: string -> string`. Its default argument is `"BTC"`.

## Model

| member | source | states |
|---|---|---|
| RubyText.IndexOfSpec | ccbot.rb:58 | the search finds a match exactly when the pattern occurs, and then the leftmost occurrence, as a literal regex match does |
| RubyText.IndexFromSpec | ccbot.rb:71 | the search from an index finds the first occurrence at or after it, or reports that there is none |
| RubyText.SplitLinesSpec | ccbot.rb:47 | `split("\n")` gives newline-free segments whose last one is not empty, and the text is those segments joined by newlines plus the trailing newlines that were dropped |
| RubyText.SplitLinesOfJoin | ccbot.rb:47 | splitting newline-free segments joined by "\n" (the last one non-empty) gives back exactly those segments |
| RubyText.SplitLinesIgnoresTerminator | ccbot.rb:156 | a trailing "\n" adds no segment, so chat typed on the console splits as the bare line |
| RubyText.SplitLinesSingle | ccbot.rb:47 | a non-empty text without newline is one segment |
| RubyText.FieldsJoin | ccbot.rb:47 | the fields between newlines, joined by newlines, are the text again |
| RubyText.FieldsOfJoin | ccbot.rb:47 | joining newline-free segments and cutting at each newline gives the segments back |
| RubyText.WordsOfUnwords | ccbot.rb:83 | words joined by single spaces split back (awk-style `split(" ")`) into the same words |
| RubyText.WordsAreWords | ccbot.rb:83 | every field of `split(" ")` is non-empty and holds no whitespace |
| RubyText.WordsSkipsLeadingSpace | ccbot.rb:83 | leading whitespace adds no field |
| RubyText.WordsOfSpace | ccbot.rb:83 | a text of whitespace only has no field |
| RubyText.WordsSplitAtSpace | ccbot.rb:83 | cutting at any whitespace character gives the fields before it then those after it, so runs of spaces or tabs between words add no field |
| RubyText.WordsSkipsTrailingSpace | ccbot.rb:83 | trailing whitespace, such as the "\r" of a CRLF line, adds no field |
| Protocol.PrivmsgLinesOfSegments | ccbot.rb:46-48 | say_to_chan writes exactly one `PRIVMSG <chan> :<seg>` per segment of the text, in order, and nothing else |
| Protocol.PrivmsgLinesAreLines | ccbot.rb:46-48 | every line say_to_chan writes is newline-free when the channel text is |
| Protocol.PingTokenSpec | ccbot.rb:62 | `^PING :(.*)$` matches exactly the lines "PING :" + token, and captures the token |
| Protocol.JoinNoticeIff | ccbot.rb:58 | the join test holds exactly when some "NOTICE" is followed later on the line by the nick |
| Protocol.ChannelOfSpec | ccbot.rb:71 | the channel match exists exactly when some '#' has a space after it; it starts at the first '#', ends with the next space and holds no other space |
| Protocol.FirstTrigger | ccbot.rb:76-82 | after a text with no `:!cc`, the leftmost `:!cc` of the line is the appended one |
| Protocol.InvocationTail | ccbot.rb:82-83 | the text after `:!cc` in an invocation is empty or starts with whitespace, and splits into exactly the typed words, whatever whitespace ends it |
| Protocol.CcArgsOfInvocation | ccbot.rb:74-83 | a line whose first `:!cc` is followed by words (or nothing) and then any whitespace (the "\r" of CRLF included) triggers the command, and its arguments are exactly those words; a later `:!cc` does not pick the arguments, the leftmost one does |
| Protocol.SupportedArgsSpec | ccbot.rb:97-98 | the kept arguments are exactly the supported ones, each as often as given, so there are never more than the arguments |
| Protocol.SupportedArgsAppend | ccbot.rb:97-101 | filtering a concatenation filters each part in turn, keeping the argument order |
| RubyText.UpcaseIs | ccbot.rb:98 | for an upper-case word w, `x.upcase == w` holds exactly when x is w with any of its letters in lower case |
| Protocol.SupportedIff | ccbot.rb:98 | a symbol is supported exactly when it spells BTC, LTC or ETH in any mixture of upper- and lower-case letters |
| Protocol.CcPolicy | ccbot.rb:85-105 | no argument: one provider call for "BTC"; `-h` and `-l` win whatever follows and make no call; more than three arguments answer "Too many arguments" and make no call; otherwise each supported argument is quoted once, as typed |
| Protocol.ProviderCallsBounded | ccbot.rb:85-105 | whatever the arguments, at most three provider calls are made, each for a supported symbol |
| Protocol.QuoteLinesAppend | ccbot.rb:97-101 | the quotes for two lists of coins are those for the first list, then those for the second |
| Protocol.HelpLinesPlain | ccbot.rb:87-88 | the help text is its two newline-free lines joined by one newline |
| Protocol.HelpAnswer | ccbot.rb:86-90 | say_to_chan writes the help text as exactly two PRIVMSG lines, one per line of the text |
| Protocol.ListAnswer | ccbot.rb:91-93 | say_to_chan writes the symbol list as one PRIVMSG line |
| Protocol.TooManyAnswer | ccbot.rb:94-95 | say_to_chan writes "Too many arguments" as one PRIVMSG line |
| Session.PingAnswered | ccbot.rb:58-65 | a PING line writes the JOINs of the join check, then exactly one `PONG <token>` with no colon, and nothing else |
| Session.OtherLinesSilent | ccbot.rb:58-107 | a line that is neither a PING nor a `!cc` invocation writes only the JOINs it may cause |
| Session.StepJoins | ccbot.rb:58-107 | the only JOIN lines one line read writes are those of the join check, and `joined` becomes true exactly at a notice |
| Session.JoinOnce | ccbot.rb:52-61 | over any lines read, the JOIN lines written are one per channel in configured order if some line is a notice to the nick and the channels were not joined yet, and none otherwise; `joined` stays set once set |
| Session.JoinAtFirstNotice | ccbot.rb:52-61 | nothing read before the first notice joins; the notice's own output starts with all the JOINs; nothing read after it writes another JOIN |
| Session.FoldJoins | ccbot.rb:51-61 | any receive loop whose step joins only at a notice while not joined writes the JOINs at most once |
| Session.FoldAppend | ccbot.rb:53-54 | reading two batches of lines writes what the first writes, then what the second writes from the state the first left |
| Session.FoldSplitAt | ccbot.rb:53-54 | reading all lines is reading those before a line, that line, then the rest |
| Session.Irc.constructor | ccbot.rb:28-30 | a new session keeps its configuration and has written nothing |
| Session.Irc.Say | ccbot.rb:41-44 | `say` writes exactly one line |
| Session.Irc.Connect | ccbot.rb:37-38 | `connect` writes `NICK <nick>` then `USER <nick> 0 * .` |
| Session.Irc.SayToChan | ccbot.rb:46-49 | the `each` loop writes one PRIVMSG per segment of `split("\n")`, in order |
| Session.Irc.Quit | ccbot.rb:116-118 | `quit` writes `QUIT <reason>` when given a reason and `QUIT` otherwise |
| Session.Irc.JoinChannels | ccbot.rb:59 | one JOIN per configured channel, in order |
| Session.Irc.SayQuotes | ccbot.rb:97-101 | the `args.each` loop writes a quote for each supported argument, in argument order |
| Session.Irc.SayCommand | ccbot.rb:85-105 | the argument branches write the lines of the decided `!cc` command |
| Session.Irc.Respond | ccbot.rb:62-107 | after the join check: PONG for a PING (ending the pass), else the `!cc` answer, else nothing |
| Session.Irc.JoinCheck | ccbot.rb:58-61 | JOIN for every channel at the first notice, and the new `joined` flag |
| Session.Irc.HandleLine | ccbot.rb:57-107 | one pass of the loop body writes what `Step` says, and returns the new `joined` |
| Session.Irc.Run | ccbot.rb:51-108 | the receive loop, starting with `joined` false, writes what `RunLines` says for the lines read |
| Console.QuitReasonSpec | ccbot.rb:143 | a quit reason is found exactly when the line starts with "/", a quit keyword and a space, and it is the rest of the line |
| Console.QuitWordsDistinct | ccbot.rb:143 | at most one quit keyword opens a line |
| Console.QuitRoundTrip | ccbot.rb:143-144 | "/<keyword> <reason>" is a quit with that reason, whatever the reason holds |
| Console.ClassifyQuit | ccbot.rb:143 | a line is a quit exactly when it starts with "/", a keyword and a space, and is then "/<keyword> <reason>" |
| Console.ConsoleQuit | ccbot.rb:143-144 | a console quit writes `QUIT <reason>`, even for an empty reason, and never the bare `QUIT` |
| Console.BareQuitIsChat | ccbot.rb:143-157 | a quit keyword with no space after it is no command and goes to the channel as chat |
| Console.NotQuit | ccbot.rb:143 | a line whose second character begins no quit keyword is not a quit |
| Console.MsgRoundTrip | ccbot.rb:146-147 | "/msg <t> <x>" with a space-free target is a private message to t with text x |
| Console.ClassifyMsg | ccbot.rb:146 | a private message is classified only from "/msg <t> <x>" with a space-free target |
| Console.JoinRoundTrip | ccbot.rb:149-150 | "/join #c" joins "#c" |
| Console.ClassifyJoin | ccbot.rb:149 | a join is classified only from "/join <c>" with c starting with '#' |
| Console.RawRoundTrip | ccbot.rb:152-153 | "/raw x" sends x unchanged |
| Console.ClassifyRaw | ccbot.rb:152 | a raw command is classified only from "/raw x" |
| Console.ClassifyChat | ccbot.rb:141-157 | chat is exactly what no command form matches, and carries the whole line |
| Console.PlainTextIsChat | ccbot.rb:154-156 | a line not starting with '/' is chat |
| Console.CommandsWriteOneLine | ccbot.rb:143-153 | every console command writes exactly one line |
| Console.ChatOneLine | ccbot.rb:154-156 | a one-line chat message, plain text or a '/' line no command form matches ("/quti now", a bare "/quit"), goes to the first configured channel as one PRIVMSG |
| Console.EmptyLineSilent | ccbot.rb:156 | an empty console line writes nothing |
| Console.ChatIgnoresTerminator | ccbot.rb:136 | handing say_to_chan the line with its "\n", as the source does, writes the same as the bare line |
| Console.HandleInput | ccbot.rb:141-157 | one console line writes exactly the lines of its action |

## Left out

- The TCP and TLS connection (ccbot.rb:33-35) and the socket reads and
  writes (ccbot.rb:43, 53-54) are I/O. Writes are appends to `Irc.out`, and
  the lines read are a sequence given to `Irc.Run`. The end of the stream is
  the end of that sequence.
- The `puts` and `p` echo to the terminal (ccbot.rb:42, 55, 89) is logging
  only.
- Threads, the `INT` trap, `abort` after the QUIT line (ccbot.rb:119) and
  `exit!` (ccbot.rb:131) are concurrency and process control.
- The console's endless `gets` loop (ccbot.rb:134-136) is not modelled. Only
  the handling of one line is, as `Console.HandleInput`. A `nil` from `gets`
  at the end of input is not modelled either.
- The body of `CryptoPull.dailyStats` is an HTTP request, JSON parsing and a
  floating-point percentage. It is the uninterpreted parameter `stats`.
- `get_history` (ccbot.rb:112-114) returns an instance variable that is
  never set.
- IRC#initialize's `@bot` hash is the `Config` datatype. The server and
  port fields are kept but used only by the left-out connection.
- Protocol.JoinNoticeIff: the nick is interpolated into a regular expression
  in the source. The model reads it as a literal, so a nick holding regular
  expression metacharacters is not modelled.
- RubyText.Upcase: only ASCII letters are upcased. Ruby's full Unicode case
  mapping is not modelled.
- Session.Irc.Run: the quote provider `stats` is a total function fixed for
  the whole run, so two requests for the same coin get the same text. In the
  source `CryptoPull.dailyStats` fetches live data on every call and can
  raise (an HTTP error, `JSON::ParserError`, or `FloatDomainError` from the
  percentage at ccbot.rb:169-171). Such an exception ends the receive loop
  and, through `irc_thread.join` (ccbot.rb:201), the process; the model does
  not capture that stop.
- `joined` is a local of `IRC#run` in the source, so it is a local of
  `Irc.Run` and a parameter and result of `HandleLine`, not a field.
