/** The event recognisers: each looks at the content of one parsed record
    and reports a player joining or leaving, the server version, the
    listening address, RCON coming up or the server stopping. A recogniser
    that does not fit answers "no match", never an error. */
module Events {
  import opened Wrappers
  import opened Text
  import opened Records
  import opened PlayerNames
  import opened ContentParsing

  // ---------------------------------------------------------------------
  // Player joined / left:  (?P<name>[^ ]+) joined the game
  // ---------------------------------------------------------------------

  const JoinedSuffix := " joined the game"
  const LeftSuffix := " left the game"

  /** `(?P<name>[^ ]+)` followed by `suffix`, full-matched: the name is
      everything before the suffix, and must be non-empty and space-free. */
  function MatchNameBefore(s: string, suffix: string): (r: Option<string>)
    ensures r.Some? ==> |r.value| > 0 && ' ' !in r.value && s == r.value + suffix
  {
    if |s| <= |suffix| || !EndsWith(s, suffix) then None
    else
      var name := s[..|s| - |suffix|];
      assert s == name + suffix;
      if ' ' in name then None else Some(name)
  }

  lemma MatchNameBeforeComplete(name: string, suffix: string)
    requires |name| > 0 && ' ' !in name
    ensures MatchNameBefore(name + suffix, suffix) == Some(name)
  {
    var s := name + suffix;
    assert s[|s| - |suffix|..] == suffix;
    assert s[..|s| - |suffix|] == name;
  }

  /** The name of a player who joined, for a server line
      `NAME joined the game` with a valid name. */
  function ParsePlayerJoined(info: Info): (r: Option<string>)
    ensures r.Some? ==> !IsUser(info) && info.content == r.value + JoinedSuffix && IsValidPlayerName(r.value)
  {
    if IsUser(info) then None
    else
      match MatchNameBefore(info.content, JoinedSuffix)
      case None => None
      case Some(name) => if VerifyPlayerName(name) then Some(name) else None
  }

  /** The converse: every server line `NAME joined the game` with a valid
      name reports that name. */
  lemma PlayerJoinedComplete(info: Info, name: string)
    requires !IsUser(info) && info.content == name + JoinedSuffix && IsValidPlayerName(name)
    ensures ParsePlayerJoined(info) == Some(name)
  {
    ValidNameSeparators(name);
    MatchNameBeforeComplete(name, JoinedSuffix);
  }

  /** The name of a player who left, for a server line
      `NAME left the game` with a valid name. */
  function ParsePlayerLeft(info: Info): (r: Option<string>)
    ensures r.Some? ==> !IsUser(info) && info.content == r.value + LeftSuffix && IsValidPlayerName(r.value)
  {
    if IsUser(info) then None
    else
      match MatchNameBefore(info.content, LeftSuffix)
      case None => None
      case Some(name) => if VerifyPlayerName(name) then Some(name) else None
  }

  lemma PlayerLeftComplete(info: Info, name: string)
    requires !IsUser(info) && info.content == name + LeftSuffix && IsValidPlayerName(name)
    ensures ParsePlayerLeft(info) == Some(name)
  {
    ValidNameSeparators(name);
    MatchNameBeforeComplete(name, LeftSuffix);
  }

  // ---------------------------------------------------------------------
  // Server version:
  //   Starting Pumpkin ([^ ]+) \([a-z0-9_]{8}\) for Minecraft (?P<version>.+) \(Protocol (d+)\)
  // The protocol group is `d+`, one or more letters d, exactly as written.
  // ---------------------------------------------------------------------

  const VersionPrefix := "Starting Pumpkin "
  const ForMinecraft := ") for Minecraft "
  const ProtocolOpen := " (Protocol "
  const CommitLength: nat := 8

  /** `[a-z0-9_]`. */
  predicate IsCommitChar(c: char) {
    IsLower(c) || IsDigit(c) || c == '_'
  }

  predicate IsCommit(s: string) {
    |s| == CommitLength && forall i :: 0 <= i < |s| ==> IsCommitChar(s[i])
  }

  /** What `d+` matches: one or more letters `d`. */
  predicate IsLetterDs(s: string) {
    |s| > 0 && forall i :: 0 <= i < |s| ==> s[i] == 'd'
  }

  datatype VersionCaptures = VersionCaptures(build: string, commit: string, version: string, protocol: string)

  /** `s` is a reading of the version pattern with the groups `c`. */
  predicate IsVersionLine(s: string, c: VersionCaptures) {
    && |c.build| > 0 && ' ' !in c.build
    && IsCommit(c.commit)
    && |c.version| > 0 && NoNewline(c.version)
    && IsLetterDs(c.protocol)
    && s == VersionPrefix + (c.build + CommitTail(c.commit, c.version, c.protocol))
  }

  /** Everything after the build: the commit in parentheses, then the tail. */
  function CommitTail(commit: string, version: string, protocol: string): string {
    " (" + (commit + (ForMinecraft + VersionTail(version, protocol)))
  }

  function VersionTail(version: string, protocol: string): string {
    version + ProtocolOpen + protocol + ")"
  }

  /** `(?P<version>.+) \(Protocol (d+)\)` full-matched against `t`: the
      protocol is the run of `d` before the closing parenthesis, and the
      version everything before the ` (Protocol ` that precedes it. */
  function MatchVersionTail(t: string): (r: Option<(string, string)>)
    ensures r.Some? ==> |r.value.0| > 0 && NoNewline(r.value.0) && IsLetterDs(r.value.1)
    ensures r.Some? ==> t == VersionTail(r.value.0, r.value.1)
  {
    if |t| == 0 || t[|t| - 1] != ')' then None
    else
      var body := t[..|t| - 1];
      var k := TrailingRun(body, 'd');
      if k == 0 || |body| - k <= |ProtocolOpen| then None
      else
        var head := body[..|body| - k];
        if head[|head| - |ProtocolOpen|..] != ProtocolOpen then None
        else
          var version := head[..|head| - |ProtocolOpen|];
          if !NoNewline(version) then None
          else
            assert head == version + ProtocolOpen;
            assert body == head + body[|body| - k..];
            assert t == body + ")";
            Some((version, body[|body| - k..]))
  }

  lemma MatchVersionTailComplete(version: string, protocol: string)
    requires |version| > 0 && NoNewline(version) && IsLetterDs(protocol)
    ensures MatchVersionTail(VersionTail(version, protocol)) == Some((version, protocol))
  {
    var t := VersionTail(version, protocol);
    var body := version + ProtocolOpen + protocol;
    assert t[..|t| - 1] == body;
    TrailingRunIs(body, 'd', |protocol|);
    var head := body[..|body| - |protocol|];
    assert head == version + ProtocolOpen;
    assert head[|head| - |ProtocolOpen|..] == ProtocolOpen;
    assert head[..|head| - |ProtocolOpen|] == version;
    assert body[|body| - |protocol|..] == protocol;
  }

  /** ` \([a-z0-9_]{8}\) for Minecraft ` followed by the tail, full-matched
      against `mid`; the answer is (commit, version, protocol). */
  function MatchCommitTail(mid: string): (r: Option<(string, string, string)>)
    ensures r.Some? ==> IsCommit(r.value.0) && |r.value.1| > 0 && NoNewline(r.value.1) && IsLetterDs(r.value.2)
    ensures r.Some? ==> mid == CommitTail(r.value.0, r.value.1, r.value.2)
  {
    match StripPrefix(mid, " (")
    case None => None
    case Some(rest) =>
      if |rest| < CommitLength || !IsCommit(rest[..CommitLength]) then None
      else
        match StripPrefix(rest[CommitLength..], ForMinecraft)
        case None => None
        case Some(tail) =>
          match MatchVersionTail(tail)
          case None => None
          case Some((version, protocol)) =>
            assert rest == rest[..CommitLength] + rest[CommitLength..];
            Some((rest[..CommitLength], version, protocol))
  }

  lemma MatchCommitTailComplete(commit: string, version: string, protocol: string)
    requires IsCommit(commit) && |version| > 0 && NoNewline(version) && IsLetterDs(protocol)
    ensures MatchCommitTail(CommitTail(commit, version, protocol)) == Some((commit, version, protocol))
  {
    var tail := VersionTail(version, protocol);
    var rest := commit + (ForMinecraft + tail);
    StripPrefixOf(" (", rest);
    assert rest[..CommitLength] == commit;
    assert rest[CommitLength..] == ForMinecraft + tail;
    StripPrefixOf(ForMinecraft, tail);
    MatchVersionTailComplete(version, protocol);
  }

  /** The version pattern, full-matched against `s`. The build runs to the
      first space; the commit is eight characters in parentheses. */
  function MatchServerVersion(s: string): (r: Option<VersionCaptures>)
    ensures r.Some? ==> IsVersionLine(s, r.value)
  {
    match StripPrefix(s, VersionPrefix)
    case None => None
    case Some(rest) =>
      match IndexOf(rest, ' ')
      case None => None
      case Some(i) =>
        if i == 0 then None
        else
          match MatchCommitTail(rest[i..])
          case None => None
          case Some(t) =>
            SplitRest(s, VersionPrefix, rest, i, CommitTail(t.0, t.1, t.2));
            Some(VersionCaptures(rest[..i], t.0, t.1, t.2))
  }

  /** A reading of the version pattern is unique and is what the matcher
      returns. */
  lemma ServerVersionLineComplete(s: string, c: VersionCaptures)
    requires IsVersionLine(s, c)
    ensures MatchServerVersion(s) == Some(c)
  {
    var mid := CommitTail(c.commit, c.version, c.protocol);
    var rest := c.build + mid;
    StripPrefixOf(VersionPrefix, rest);
    assert mid[0] == ' ';
    IndexOfIs(rest, ' ', |c.build|);
    assert rest[..|c.build|] == c.build;
    assert rest[|c.build|..] == mid;
    MatchCommitTailComplete(c.commit, c.version, c.protocol);
  }

  /** The Minecraft version announced by a server line of the version
      pattern. */
  function ParseServerVersion(info: Info): (r: Option<string>)
    ensures IsUser(info) ==> r.None?
    ensures r.Some? ==> exists c :: IsVersionLine(info.content, c) && c.version == r.value
  {
    if IsUser(info) then None
    else
      match MatchServerVersion(info.content)
      case None => None
      case Some(c) => Some(c.version)
  }

  lemma ServerVersionComplete(info: Info, c: VersionCaptures)
    requires !IsUser(info) && IsVersionLine(info.content, c)
    ensures ParseServerVersion(info) == Some(c.version)
  {
    ServerVersionLineComplete(info.content, c);
  }

  /** As written, the protocol group only matches letters `d`: only a line
      whose content ends in `d)` reports a version, so one announcing a
      numeric protocol never does. */
  lemma ServerVersionNeedsLetterD(info: Info)
    ensures ParseServerVersion(info).Some? ==> EndsWith(info.content, "d)")
  {
    if ParseServerVersion(info).Some? {
      VersionLineEnd(info.content, MatchServerVersion(info.content).value);
    }
  }

  lemma VersionLineEnd(s: string, c: VersionCaptures)
    requires IsVersionLine(s, c)
    ensures EndsWith(s, "d)")
  {
    var t := VersionTail(c.version, c.protocol);
    assert s[|s| - 2] == t[|t| - 2] == c.protocol[|c.protocol| - 1] == 'd';
    assert s[|s| - 1] == ')';
    assert s[|s| - 2..] == "d)";
  }

  // ---------------------------------------------------------------------
  // Listening address:
  //   You now can connect to the server; listening on (?P<ip>\S+):(?P<port>\d+)
  // ---------------------------------------------------------------------

  const AddressPrefix := "You now can connect to the server; " + "listening on "

  datatype AddressCaptures = AddressCaptures(ip: string, port: string)

  predicate IsAddressLine(s: string, c: AddressCaptures) {
    && |c.ip| > 0 && NoSpace(c.ip)
    && IsDigits(c.port)
    && s == AddressPrefix + (c.ip + (":" + c.port))
  }

  /** The address pattern, full-matched against `s`. `\S+` is greedy, so
      the ip runs up to the last colon and the port is what follows it. */
  function MatchServerAddress(s: string): (r: Option<AddressCaptures>)
    ensures r.Some? ==> IsAddressLine(s, r.value)
  {
    match StripPrefix(s, AddressPrefix)
    case None => None
    case Some(rest) =>
      match LastIndexOf(rest, ':')
      case None => None
      case Some(k) =>
        if k > 0 && NoSpace(rest[..k]) && IsDigits(rest[k + 1..]) then
          SplitAt(rest, k);
          Some(AddressCaptures(rest[..k], rest[k + 1..]))
        else None
  }

  /** A reading of the address pattern is unique and is what the matcher
      returns, even when the ip itself holds colons. */
  lemma ServerAddressLineComplete(s: string, c: AddressCaptures)
    requires IsAddressLine(s, c)
    ensures MatchServerAddress(s) == Some(c)
  {
    var rest := c.ip + (":" + c.port);
    StripPrefixOf(AddressPrefix, rest);
    DigitsExclude(c.port, ':');
    AroundChar(c.ip, ':', c.port);
    assert rest[..|c.ip|] == c.ip && rest[|c.ip|] == ':' && rest[|c.ip| + 1..] == c.port;
    LastIndexOfIs(rest, ':', |c.ip|);
    assert StripPrefix(s, AddressPrefix) == Some(rest);
  }

  /** The ip and the port number of a server line of the address pattern. */
  function ParseServerAddress(info: Info): (r: Option<(string, nat)>)
    ensures IsUser(info) ==> r.None?
    ensures r.Some? ==> exists c :: IsAddressLine(info.content, c) && r.value == (c.ip, DecimalValue(c.port))
  {
    if IsUser(info) then None
    else
      match MatchServerAddress(info.content)
      case None => None
      case Some(c) => Some((c.ip, DecimalValue(c.port)))
  }

  /** A server line announcing `ip` and the decimal spelling of `port`
      reports exactly that pair. */
  lemma ServerAddressRoundTrip(info: Info, ip: string, port: nat)
    requires !IsUser(info) && |ip| > 0 && NoSpace(ip)
    requires info.content == AddressPrefix + (ip + (":" + ShowDecimal(port)))
    ensures ParseServerAddress(info) == Some((ip, port))
  {
    ServerAddressLineComplete(info.content, AddressCaptures(ip, ShowDecimal(port)));
    DecimalValueOfShow(port);
  }

  /** Start-up is complete when a server line announces the address. */
  function TestServerStartupDone(info: Info): (r: bool)
    ensures r ==> IsFromServer(info) && exists c :: IsAddressLine(info.content, c)
  {
    IsFromServer(info) && MatchServerAddress(info.content).Some?
  }

  /** Off a player's chat line, start-up is reported exactly when an
      address is. */
  lemma StartupDoneIffAddress(info: Info)
    ensures !IsPlayer(info) ==> (TestServerStartupDone(info) <==> ParseServerAddress(info).Some?)
  {
  }

  /** Start-up is reported exactly for the server lines of the address
      pattern. */
  lemma StartupDoneIff(info: Info)
    ensures TestServerStartupDone(info) <==> IsFromServer(info) && exists c :: IsAddressLine(info.content, c)
  {
    if IsFromServer(info) && exists c :: IsAddressLine(info.content, c) {
      var c :| IsAddressLine(info.content, c);
      ServerAddressLineComplete(info.content, c);
    }
  }

  /** Start-up asks only that the line come from the server, so a player
      who says the address line in chat completes start-up, although the
      address parser, which refuses what a person wrote, reports nothing. */
  lemma StartupDoneOnPlayerChat(info: Info, c: AddressCaptures)
    requires IsPlayer(info) && IsAddressLine(info.content, c)
    ensures TestServerStartupDone(info)
    ensures ParseServerAddress(info).None?
  {
    ServerAddressLineComplete(info.content, c);
  }

  // ---------------------------------------------------------------------
  // RCON:  RCON running on [\w.]+:\d+
  // ---------------------------------------------------------------------

  const RconPrefix := "RCON running on "

  /** `[\w.]`, with `\w` taken as its ASCII part. */
  predicate IsHostChar(c: char) {
    IsWordChar(c) || c == '.'
  }

  datatype RconCaptures = RconCaptures(host: string, port: string)

  predicate IsRconLine(s: string, c: RconCaptures) {
    && |c.host| > 0 && (forall i :: 0 <= i < |c.host| ==> IsHostChar(c.host[i]))
    && IsDigits(c.port)
    && s == RconPrefix + (c.host + (":" + c.port))
  }

  /** The RCON pattern, full-matched against `s`; the host holds no colon,
      so it runs to the first one. */
  function MatchRcon(s: string): (r: Option<RconCaptures>)
    ensures r.Some? ==> IsRconLine(s, r.value)
  {
    match StripPrefix(s, RconPrefix)
    case None => None
    case Some(rest) =>
      match IndexOf(rest, ':')
      case None => None
      case Some(k) =>
        if k > 0 && (forall i :: 0 <= i < k ==> IsHostChar(rest[i])) && IsDigits(rest[k + 1..]) then
          SplitAt(rest, k);
          Some(RconCaptures(rest[..k], rest[k + 1..]))
        else None
  }

  lemma RconLineComplete(s: string, c: RconCaptures)
    requires IsRconLine(s, c)
    ensures MatchRcon(s) == Some(c)
  {
    var rest := c.host + (":" + c.port);
    StripPrefixOf(RconPrefix, rest);
    assert ':' !in c.host by {
      forall i | 0 <= i < |c.host| ensures c.host[i] != ':' {
        assert IsHostChar(c.host[i]);
      }
    }
    AroundChar(c.host, ':', c.port);
    assert rest[..|c.host|] == c.host && rest[|c.host|] == ':' && rest[|c.host| + 1..] == c.port;
    IndexOfIs(rest, ':', |c.host|);
    assert StripPrefix(s, RconPrefix) == Some(rest);
  }

  function TestRconStarted(info: Info): (r: bool)
    ensures r ==> IsFromServer(info) && exists c :: IsRconLine(info.content, c)
  {
    IsFromServer(info) && MatchRcon(info.content).Some?
  }

  /** RCON start is reported exactly for server lines of the RCON pattern. */
  lemma TestRconStartedIff(info: Info)
    ensures TestRconStarted(info) <==> IsFromServer(info) && exists c :: IsRconLine(info.content, c)
  {
    if IsFromServer(info) && exists c :: IsRconLine(info.content, c) {
      var c :| IsRconLine(info.content, c);
      RconLineComplete(info.content, c);
    }
  }

  // ---------------------------------------------------------------------
  // Stopping:  Stopping the server
  // ---------------------------------------------------------------------

  const StoppingLine := "Stopping the server"

  /** The stopping pattern has no metacharacter, so it full-matches only
      its own text. */
  function TestServerStopping(info: Info): bool {
    IsFromServer(info) && info.content == StoppingLine
  }

  /** The stopping test has no user guard, and the chat rewrite leaves a
      server-sourced record: a valid player who says `Stopping the server`
      is reported as the server stopping. */
  lemma StoppingOnPlayerChat(text: string, clean: string -> string, clock: Clock, level: string, name: string)
    requires clean(text) == "[" + level + "] " + (ChatPrefix + name + ": " + StoppingLine)
    requires |level| > 0 && ']' !in level
    requires IsValidPlayerName(name)
    ensures ParseServerStdout(Pumpkin, text, clean, clock).Success?
    ensures IsPlayer(ParseServerStdout(Pumpkin, text, clean, clock).value)
    ensures TestServerStopping(ParseServerStdout(Pumpkin, text, clean, clock).value)
  {
    ParseChatLine(text, clean, clock, level, ChatPrefix + name + ": " + StoppingLine, name, StoppingLine);
  }

  // ---------------------------------------------------------------------
  // The recognisers target disjoint shapes
  // ---------------------------------------------------------------------

  /** No line is recognised as two different events. (Start-up done is the
      address line under another name and is not counted separately.) */
  lemma RecognisersDisjoint(info: Info)
    ensures ParsePlayerJoined(info).Some? ==>
      && ParsePlayerLeft(info).None? && ParseServerVersion(info).None?
      && ParseServerAddress(info).None? && !TestRconStarted(info) && !TestServerStopping(info)
    ensures ParsePlayerLeft(info).Some? ==>
      && ParseServerVersion(info).None? && ParseServerAddress(info).None?
      && !TestRconStarted(info) && !TestServerStopping(info)
    ensures ParseServerVersion(info).Some? ==>
      ParseServerAddress(info).None? && !TestRconStarted(info) && !TestServerStopping(info)
    ensures ParseServerAddress(info).Some? ==> !TestRconStarted(info) && !TestServerStopping(info)
    ensures TestRconStarted(info) ==> !TestServerStopping(info)
  {
    var s := info.content;
    if ParsePlayerJoined(info).Some? { JoinedShape(info); }
    if ParsePlayerLeft(info).Some? { LeftShape(info); }
    if MatchServerVersion(s).Some? { VersionShape(s); }
    if MatchServerAddress(s).Some? { AddressShape(s); }
    if MatchRcon(s).Some? { RconShape(s); }
  }

  // Each shape fixes the last character and, for the two that end in a
  // digit, the first one.

  lemma JoinedShape(info: Info)
    requires ParsePlayerJoined(info).Some?
    ensures |info.content| > |JoinedSuffix|
    ensures info.content[|info.content| - 1] == 'e' && info.content[|info.content| - 14] == 'o'
  {
    var n := ParsePlayerJoined(info).value;
    IndexInSecond(info.content, n, JoinedSuffix, 15);
    IndexInSecond(info.content, n, JoinedSuffix, 2);
    assert JoinedSuffix[15] == 'e' && JoinedSuffix[2] == 'o';
  }

  lemma LeftShape(info: Info)
    requires ParsePlayerLeft(info).Some?
    ensures |info.content| > |LeftSuffix|
    ensures info.content[|info.content| - 1] == 'e' && info.content[|info.content| - 14] == ' '
  {
    var n := ParsePlayerLeft(info).value;
    IndexInSecond(info.content, n, LeftSuffix, 13);
    IndexInSecond(info.content, n, LeftSuffix, 0);
    assert LeftSuffix[13] == 'e' && LeftSuffix[0] == ' ';
  }

  lemma VersionShape(s: string)
    requires MatchServerVersion(s).Some?
    ensures |s| > 0 && s[|s| - 1] == ')'
  {
  }

  lemma AddressShape(s: string)
    requires MatchServerAddress(s).Some?
    ensures |s| > 0 && IsDigit(s[|s| - 1]) && s[0] == 'Y'
  {
    var c := MatchServerAddress(s).value;
    assert s[|s| - 1] == c.port[|c.port| - 1];
    assert s[0] == AddressPrefix[0];
  }

  lemma RconShape(s: string)
    requires MatchRcon(s).Some?
    ensures |s| > 0 && IsDigit(s[|s| - 1]) && s[0] == 'R'
  {
    var c := MatchRcon(s).value;
    assert s[|s| - 1] == c.port[|c.port| - 1];
    assert s[0] == RconPrefix[0];
  }
}
