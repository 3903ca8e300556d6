# Pumpkin server handler, modelled in Dafny

This project models `PumpkinHandler`, an MCDReforged server handler for
Pumpkin Minecraft servers. It translates in both directions:

- **Inbound:** one line of server standard output becomes an `Info`
  record. The record holds:
  - the source (server or console);
  - the raw and the cleaned text;
  - the time of parsing;
  - the logging level;
  - the player, when the line is a chat message.

  The handler then recognises events in the content: a player joining or
  leaving, the server version, the listening address (which also means
  start-up is done), RCON coming up, and the server stopping.
- **Outbound:** a plain-text message becomes a JSON string literal, wrapped
  in a `tellraw TARGET ...` command. A broadcast is a `tellraw` to `@a`.
  The stop command is `stop`.

Every regular expression of the handler is a hand-written matcher over
`seq<char>`, and each has two parts:

- A declarative predicate, `IsXLine(s, captures)`, states when `s` is one
  reading of the pattern with those groups.
- The matcher's contract says any match it returns is such a reading. A
  completeness lemma says every reading is found, and is the one returned.
  The address and version readings are therefore unique. For the content
  pattern, a tagged reading takes precedence.

The behaviour of Python's `re.fullmatch` is reproduced case by case:

- A match must cover the whole string.
- `.` excludes only the line feed.
- `[^]]`, `[^:]` and `[^ ]` do match a line feed.
- The greedy optional group ` \((\d+)\)` is kept only when a space follows it.
- `\S+:` backtracks to the last colon.
- The version pattern's protocol group is `d+`: one or more letters `d`,
  exactly as written.

The JSON side is checked against an independent decoder. That decoder
reads JSON string literals as section 7 of RFC 8259 defines them, and the
message formatter is proved to round-trip through it.

Files, one module each:

- `wrappers.dfy`: `Option` and `Result`.
- `text.dfy`: character classes (with `\s` as Python's `str.isspace`), scanners with exact contracts, decimal numbers.
- `records.dfy`: the `Info` record, its source, and the `is_user`/`is_from_server` tests.
- `first_match.dfy`: the "first formatter that matches decides" search that both formatter lists use.
- `player_name.dfy`: the player-name check.
- `content_parsing.dfy`: the raw record, the content-parsing pattern and `_content_parse`, the chat rewrite, and the whole `parse_server_stdout` path.
- `events.dfy`: the event recognisers.
- `json_string.dfy`: `format_message`, and the JSON string decoder used as its partner.
- `commands.dfy`: the `tellraw` commands and a reader that parses them back.
- `examples.dfy`: concrete lines and what the model makes of them.

## Model

| member | source | states |
|---|---|---|
| PlayerNames.VerifyPlayerName | pumpkin_handler/__init__.py:100-104 | the name is accepted exactly when the whole string is 3 to 16 ASCII letters, digits or underscores |
| PlayerNames.ValidNameSeparators | pumpkin_handler/__init__.py:100 | a valid name holds no space, colon or line feed, so it never straddles the separators of the chat and join/leave lines |
| ContentParsing.ServerStdoutRawResult | pumpkin_handler/__init__.py:88-98 | the raw record is server-sourced, keeps the text as read, holds the cleaned text as content, has a zero time, and has no level and no player |
| ContentParsing.MatchContentLine | pumpkin_handler/__init__.py:33 | any match is a reading of the content pattern: a non-empty level without `]`, an optional all-digit tag, and a body without a line feed |
| ContentParsing.MatchContentLineOf | pumpkin_handler/__init__.py:33 | the level of a match is the text up to the first `]`, and the rest is decided by the body matcher alone |
| ContentParsing.ContentLineComplete | pumpkin_handler/__init__.py:33 | every reading of the content pattern is found; the one returned is that reading, or a tagged reading of the same line |
| ContentParsing.ContentLineTagged | pumpkin_handler/__init__.py:33 | `[L] (d) C` gives level `L`, tag `d` and content `C` |
| ContentParsing.ContentLineUntagged | pumpkin_handler/__init__.py:33 | a reading without a tag, whose body does not open with `(`, is the one returned |
| ContentParsing.ContentLineBareTag | pumpkin_handler/__init__.py:33 | a tag with no space after it is not a tag: `[L] (d)` gives content `(d)` |
| ContentParsing.MatchBodyComplete | pumpkin_handler/__init__.py:33 | the part after the level is always matched when it has a reading; an untagged reading loses only to a tagged one |
| FirstMatch.FirstAccepted | pumpkin_handler/__init__.py:45-51 | the index chosen is the first whose result is accepted, and none is chosen when no result is |
| ContentParsing.ContentParse | pumpkin_handler/__init__.py:43-59 | fails exactly when no formatter matches, with `Unrecognized input: ` plus the content and the record unchanged; otherwise the first formatter that matches sets the level and the content, and the time comes from the clock |
| ContentParsing.ContentParseBracketed | pumpkin_handler/__init__.py:43-59 | any `[L] C` with a non-empty level free of `]` and a line-feed-free `C` parses, with level `L` and content `C` or `C` less a leading `(d) ` |
| ContentParsing.ContentParseTagged | pumpkin_handler/__init__.py:43-59 | on `[L] (d) C` the level is `L` and the content is `C`, with the tag stripped |
| ContentParsing.ContentParseUntagged | pumpkin_handler/__init__.py:43-59 | on `[L] C` whose `C` does not open with `(`, the level is `L` and the content is `C` |
| ContentParsing.MatchChat | pumpkin_handler/__init__.py:64 | any match is a reading of the chat pattern: the name is non-empty and colon-free, then `: `, then a line-feed-free message |
| ContentParsing.ChatComplete | pumpkin_handler/__init__.py:64 | a chat reading is unique and is what the matcher returns |
| ContentParsing.ChatRewrite | pumpkin_handler/__init__.py:110-119 | for any formatter list: when no formatter yields a valid player name the record is returned unchanged, and whenever formatter `i` yields one and no earlier formatter does, the player and the content become formatter `i`'s name and message and nothing else changes |
| ContentParsing.ChatRewriteApplies | pumpkin_handler/__init__.py:110-117 | a chat line naming a valid player becomes that player's message, and nothing else in the record changes |
| ContentParsing.ChatRewriteOtherwise | pumpkin_handler/__init__.py:110-119 | content that is not a chat line from a valid player, including one whose name is invalid, leaves the record unchanged |
| ContentParsing.ParseServerStdout | pumpkin_handler/__init__.py:106-119 | fails exactly when no content formatter matches, with its message and the raw record; on success the line is server-sourced, keeps its raw text and carries the clock's time, its level is the first matching content formatter's, and the player and content are the first valid chat reading of that formatter's content or, when there is none, no player and that content |
| ContentParsing.ParsePlainLine | pumpkin_handler/__init__.py:106-119 | with the handler's patterns, `[L] C` where `C` does not open with `(` and is not a valid player's chat line parses to level `L`, content `C` and no player |
| ContentParsing.ParseTaggedLine | pumpkin_handler/__init__.py:106-119 | with the handler's patterns, `[L] (d) C` where `C` is not a valid player's chat line parses to level `L`, content `C` (the tag removed) and no player |
| ContentParsing.ParseChatLine | pumpkin_handler/__init__.py:106-119 | with the handler's patterns, `[L] <chat> N: M` from a valid player `N` parses to level `L`, player `N` and content `M`, and counts as written by a person |
| ContentParsing.ParseTaggedChatLine | pumpkin_handler/__init__.py:106-119 | with the handler's patterns, `[L] (d) <chat> N: M` from a valid player `N` parses to level `L`, player `N` and content `M`: the tag is removed before the chat pattern is tried |
| Events.MatchNameBefore | pumpkin_handler/__init__.py:121 | any match is a non-empty, space-free name followed by the suffix |
| Events.MatchNameBeforeComplete | pumpkin_handler/__init__.py:121 | every non-empty, space-free name before the suffix is found |
| Events.ParsePlayerJoined | pumpkin_handler/__init__.py:121-129 | a name is reported only for a line not written by a person, whose content is `NAME joined the game` with `NAME` a valid player name |
| Events.PlayerJoinedComplete | pumpkin_handler/__init__.py:121-129 | every such line reports its name |
| Events.ParsePlayerLeft | pumpkin_handler/__init__.py:131-139 | a name is reported only for a line not written by a person, whose content is `NAME left the game` with `NAME` a valid player name |
| Events.PlayerLeftComplete | pumpkin_handler/__init__.py:131-139 | every such line reports its name |
| Events.MatchServerVersion | pumpkin_handler/__init__.py:141 | any match is a reading of the version pattern: a space-free build, an eight-character `[a-z0-9_]` commit, a line-feed-free version and a protocol made of letters `d` |
| Events.ServerVersionLineComplete | pumpkin_handler/__init__.py:141 | a reading of the version pattern is unique and is what the matcher returns |
| Events.ParseServerVersion | pumpkin_handler/__init__.py:143-148 | nothing is reported for a line written by a person; a reported version is the version group of a reading of the pattern |
| Events.ServerVersionComplete | pumpkin_handler/__init__.py:143-148 | every line of the version pattern not written by a person reports its version |
| Events.ServerVersionNeedsLetterD | pumpkin_handler/__init__.py:141 | a version is reported only for content ending in `d)`, so a numeric protocol never yields one |
| Events.MatchServerAddress | pumpkin_handler/__init__.py:150 | any match is a reading of the address pattern: a non-empty ip without white space, `:`, and digits |
| Events.ServerAddressLineComplete | pumpkin_handler/__init__.py:150 | a reading of the address pattern is unique, even when the ip holds colons, and is what the matcher returns |
| Events.ParseServerAddress | pumpkin_handler/__init__.py:152-157 | nothing is reported for a line written by a person; a reported pair is the ip of a reading and the decimal value of its port |
| Events.ServerAddressRoundTrip | pumpkin_handler/__init__.py:152-157 | a server line announcing an ip and the decimal spelling of a port reports exactly that ip and port |
| Text.DecimalValueOfShow | pumpkin_handler/__init__.py:156 | reading back the decimal spelling of a number gives the number |
| Events.TestServerStartupDone | pumpkin_handler/__init__.py:159-161 | start-up is reported only for server lines of the address pattern |
| Events.StartupDoneIff | pumpkin_handler/__init__.py:159-161 | start-up is reported exactly for the server lines of the address pattern |
| Events.StartupDoneIffAddress | pumpkin_handler/__init__.py:153-161 | on every line except a player's chat, start-up is reported exactly when an address is |
| Events.StartupDoneOnPlayerChat | pumpkin_handler/__init__.py:159-161 | a player's chat message shaped like the address line reports start-up done, while the address parser reports nothing |
| Events.MatchRcon | pumpkin_handler/__init__.py:163 | any match is a reading of the RCON pattern: a non-empty host of word characters and dots, `:`, and digits |
| Events.RconLineComplete | pumpkin_handler/__init__.py:163 | a reading of the RCON pattern is unique and is what the matcher returns |
| Events.TestRconStarted | pumpkin_handler/__init__.py:165-167 | RCON start is reported only for server lines of the RCON pattern |
| Events.TestRconStartedIff | pumpkin_handler/__init__.py:165-167 | RCON start is reported exactly for the server lines of the RCON pattern |
| Events.StoppingOnPlayerChat | pumpkin_handler/__init__.py:169-173 | the stopping test checks only that the line came from the server, so a valid player's chat message `Stopping the server` is reported as the server stopping, although the record belongs to a player |
| Events.RecognisersDisjoint | pumpkin_handler/__init__.py:121-173 | no line is recognised as two different events |
| JsonString.HexDigit | pumpkin_handler/__init__.py:78 | the digit written for a value below 16 is lower-case and reads back as that value |
| JsonString.EscapeChar | pumpkin_handler/__init__.py:78 | a character is written as itself exactly when it is neither a quote, a backslash nor a control character; otherwise it becomes a backslash escape |
| JsonString.FormatMessage | pumpkin_handler/__init__.py:73-78 | the message is written between double quotes |
| JsonString.DecodeEscapeChar | pumpkin_handler/__init__.py:78 | decoding the escape of one character gives that character back, and then decoding continues with what follows |
| JsonString.DecodeEscapeString | pumpkin_handler/__init__.py:78 | decoding the escaped text gives the original text back |
| JsonString.FormatMessageRoundTrip | pumpkin_handler/__init__.py:73-78 | decoding the formatted message as a JSON string literal gives the message back |
| JsonString.EscapeStringIdentity | pumpkin_handler/__init__.py:78 | escaping leaves a string unchanged exactly when it has no quote, backslash or control character; non-ASCII text passes through |
| JsonString.FormatPlainMessage | pumpkin_handler/__init__.py:78 | a message without quotes, backslashes or control characters is written between quotes exactly as it is |
| Commands.TellrawRoundTrip | pumpkin_handler/__init__.py:82 | from `tellraw T JSON` with a space-free target, the target and the message can both be read back |
| Commands.SendMessageCommand | pumpkin_handler/__init__.py:80-82 | the command starts with `tellraw `, and for a space-free target the target and the message read back from it |
| Commands.BroadcastMessageCommand | pumpkin_handler/__init__.py:84-86 | a broadcast is the send command to `@a`, and the message reads back from it |
| Examples.BareTagExample | pumpkin_handler/__init__.py:33 | `[INFO] (1)` gives level `INFO` and content `(1)` |
| Examples.FormatterPrecedenceExample | pumpkin_handler/__init__.py:45-51 | when two formatters both match, the one listed first decides the level |
| Examples.UnrecognisedLineExample | pumpkin_handler/__init__.py:52-53 | a line without a bracketed level fails with `Unrecognized input: ` plus the line |
| Examples.NumericProtocolExample | pumpkin_handler/__init__.py:141-148 | a realistic version line with protocol `769` reports no version |
| Examples.ColonAddressExample | pumpkin_handler/__init__.py:150-157 | `[::]:25565` gives ip `[::]` and port 25565 |
| Examples.ShortNameExample | pumpkin_handler/__init__.py:121-129 | a one-letter name never reports a join |
| Examples.CommandExamples | pumpkin_handler/__init__.py:80-86 | sending and broadcasting `hi` both give `tellraw @a "hi"` |

## Left out

- Wall-clock time (`time.localtime`): the hour, minute and second of parsing are a `Clock` parameter.
- `string_utils.clean_console_color_code`: this utility is not part of this model. It is a `string -> string` parameter named `clean`.
- The `RTextBase.to_json_str` branch of `format_message`: a rich-text serialiser outside this file. Only plain strings are modelled.
- The `parse.Parser` branches of both formatter lists: a foreign library that the handler's default regex formatters never reach. A formatter is any `string -> Option<captures>` function.
- `functools.lru_cache` on the formatter lists: memoisation only, with no effect on results.
- The `TypeError` for non-string input: ruled out by typing.
- `super().parse_server_stdout`: framework code not part of this model. It is modelled as the raw record followed by `_content_parse`.
- `on_load`, `get_name` and the `@override` plumbing: framework registration.
- The stop command: a constant, `Commands.StopCommand`, with nothing to prove about it.
- `Info` is the framework's record, and only the fields the handler reads or writes are modelled. `Records.IsUser` follows the framework's `is_user`: console input, or a server line the chat rewrite gave a player.
- ContentParsing.ContentParse: the source mutates the record in place and raises. The model returns a new record, or an `Unrecognized` error that carries the message and the untouched record.
- ContentParsing.MatchContentLine: `\d` in the tag is taken as ASCII `[0-9]`. Python's text patterns also accept other Unicode decimal digits.
- Events.ParseServerAddress: `\d` in the port is taken as ASCII `[0-9]`. Python's `int()` would also read other Unicode decimal digits.
- Events.TestRconStarted: `\w` and `\d` in the RCON pattern are taken as ASCII. Python's text patterns are Unicode-aware there.
- JsonString.DecodeJsonString: a `\u` escape of a surrogate half is refused rather than paired. No escape the formatter writes is one. Dafny characters are Unicode scalar values, so lone surrogates, which a Python string may hold, are not modelled.
