/** Worked instances of the handler's behaviour on concrete lines. */
module Examples {
  import opened Wrappers
  import opened Text
  import opened Records
  import opened FirstMatch
  import opened PlayerNames
  import opened ContentParsing
  import opened Events
  import opened JsonString
  import opened Commands

  lemma ValidNameExample()
    ensures VerifyPlayerName("Steve")
  {
    assert IsValidPlayerName("Steve");
  }

  /** Two letters are too few, seventeen too many. */
  lemma NameLengthExamples()
    ensures !VerifyPlayerName("ab")
    ensures !VerifyPlayerName("abcdefghijklmnopq")
  {
  }

  lemma NameCharacterExample()
    ensures !VerifyPlayerName("name!")
  {
    assert "name!"[4] == '!';
  }

  lemma PlayerJoinedExample(info: Info)
    requires !IsUser(info) && info.content == "Steve" + JoinedSuffix
    ensures ParsePlayerJoined(info) == Some("Steve")
  {
    assert IsValidPlayerName("Steve");
    PlayerJoinedComplete(info, "Steve");
  }

  /** A one-letter name is too short to be a player's. */
  lemma ShortNameExample(info: Info)
    requires info.content == "S" + JoinedSuffix
    ensures ParsePlayerJoined(info).None?
  {
    MatchNameBeforeComplete("S", JoinedSuffix);
  }

  /** The decimal spelling of the default port. */
  lemma DefaultPortSpelling()
    ensures ShowDecimal(25565) == "25565"
  {
    assert ShowDecimal(2) == "2";
    assert ShowDecimal(25) == "25";
    assert ShowDecimal(255) == "255";
    assert ShowDecimal(2556) == "2556";
  }

  lemma ServerAddressExample(info: Info)
    requires IsFromServer(info) && info.player.None?
    requires info.content == AddressPrefix + ("0.0.0.0" + (":" + "25565"))
    ensures ParseServerAddress(info) == Some(("0.0.0.0", 25565))
    ensures TestServerStartupDone(info)
  {
    DefaultPortSpelling();
    ServerAddressRoundTrip(info, "0.0.0.0", 25565);
  }

  /** An IPv6 wildcard address: the ip runs to the last colon. */
  lemma ColonAddressExample(info: Info)
    requires IsFromServer(info) && info.player.None?
    requires info.content == AddressPrefix + ("[::]" + (":" + "25565"))
    ensures ParseServerAddress(info) == Some(("[::]", 25565))
  {
    DefaultPortSpelling();
    ServerAddressRoundTrip(info, "[::]", 25565);
  }

  lemma ChatExample(s: string)
    requires s == ChatPrefix + "Alice" + ": " + "hello world"
    ensures MatchChat(s) == Some(ChatCaptures("Alice", "hello world"))
  {
    ChatComplete(s, ChatCaptures("Alice", "hello world"));
  }

  lemma TaggedLineExample(s: string)
    requires s == "[" + "INFO" + "]" + BodyText(Some("1"), "Player joined")
    ensures MatchContentLine(s) == Some(ContentCaptures("INFO", Some("1"), "Player joined"))
  {
    assert IsDigits("1");
    ContentLineTagged(s, "INFO", "1", "Player joined");
  }

  /** A tag with nothing after it is not a tag: it stays in the content. */
  lemma BareTagExample(s: string)
    requires s == "[" + "INFO" + "]" + BodyText(None, "(" + "1" + ")")
    ensures MatchContentLine(s) == Some(ContentCaptures("INFO", None, "(" + "1" + ")"))
  {
    assert IsDigits("1");
    ContentLineBareTag(s, "INFO", "1");
  }

  /** A formatter that takes any line as it is, under the level `RAW`. */
  function TakeAll(s: string): Option<ContentCaptures> {
    Some(ContentCaptures("RAW", None, s))
  }

  /** Two formatters that both match: the one listed first decides. */
  lemma FormatterPrecedenceExample(info: Info, clock: Clock)
    requires info.content == "[" + "WARN" + "]" + BodyText(None, "hot")
    ensures ContentParse(info, [MatchContentLine, TakeAll], clock).Success?
    ensures ContentParse(info, [MatchContentLine, TakeAll], clock).value.loggingLevel == Some("WARN")
    ensures ContentParse(info, [TakeAll, MatchContentLine], clock).Success?
    ensures ContentParse(info, [TakeAll, MatchContentLine], clock).value.loggingLevel == Some("RAW")
  {
    var s := info.content;
    ContentLineUntagged(s, "WARN", "hot");
    FirstAcceptedIs([MatchContentLine, TakeAll], AnyCapture, s, 0);
    FirstAcceptedIs([TakeAll, MatchContentLine], AnyCapture, s, 0);
  }

  lemma UnrecognisedLineExample(info: Info, clock: Clock)
    requires info.content == "no brackets"
    ensures ContentParse(info, DefaultContentFormatters, clock) == Failure(Unrecognized(UnrecognizedInput + "no brackets", info))
  {
    assert DefaultContentFormatters[0](info.content) == MatchContentLine(info.content);
  }

  /** A realistic version line, with a numeric protocol, reports nothing. */
  lemma NumericProtocolExample(info: Info)
    requires info.content == VersionPrefix + "0.1.0 (abcdef12" + ForMinecraft + "1.21.4 (Protocol 769)"
    ensures ParseServerVersion(info).None?
  {
    var s := info.content;
    assert s[|s| - 2] == '9';
    ServerVersionNeedsLetterD(info);
  }

  lemma LetterDProtocolExample(info: Info)
    requires !IsUser(info)
    requires info.content == VersionPrefix + ("0.1.0" + CommitTail("abcdef12", "1.21.4", "ddd"))
    ensures ParseServerVersion(info) == Some("1.21.4")
  {
    var c := VersionCaptures("0.1.0", "abcdef12", "1.21.4", "ddd");
    assert IsCommit(c.commit);
    assert IsLetterDs(c.protocol);
    ServerVersionComplete(info, c);
  }

  lemma FormatMessageExample()
    ensures FormatMessage("hi") == "\"hi\""
  {
    EscapeStringIdentity("hi");
  }

  lemma CommandExamples()
    ensures SendMessageCommand("@a", "hi") == "tellraw @a \"hi\""
    ensures BroadcastMessageCommand("hi") == "tellraw @a \"hi\""
  {
    FormatMessageExample();
    assert TellrawPrefix + ("@a" + (" " + "\"hi\"")) == "tellraw @a \"hi\"";
  }
}
