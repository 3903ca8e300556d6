/** Turning one line of server standard output into an `Info`: the raw
    record, the content-parsing formatter list (`[LEVEL] (N) MESSAGE` by
    default) and the chat rewrite (`<chat> NAME: MESSAGE`). */
module ContentParsing {
  import opened Wrappers
  import opened Text
  import opened Records
  import opened FirstMatch
  import opened PlayerNames

  // ---------------------------------------------------------------------
  // The default content-parsing pattern
  //   \[(?P<logging>[^]]+)\](?: \((\d+)\))? (?P<content>.*)
  // ---------------------------------------------------------------------

  /** The groups of the content-parsing pattern: the logging level, the
      optional numeric tag (the unnamed group) and the message body. */
  datatype ContentCaptures = ContentCaptures(logging: string, tag: Option<string>, content: string)

  function TagText(tag: Option<string>): string {
    match tag
    case None => ""
    case Some(d) => " (" + d + ")"
  }

  /** What follows the `]` of the level: the optional tag, a space and the body. */
  function BodyText(tag: Option<string>, content: string): string {
    TagText(tag) + " " + content
  }

  /** `rest` is one reading of the part of the pattern after the level. */
  predicate IsContentBody(rest: string, tag: Option<string>, content: string) {
    && (tag.Some? ==> IsDigits(tag.value))
    && NoNewline(content)
    && rest == BodyText(tag, content)
  }

  /** `s` is one reading of the content-parsing pattern with the groups `c`. */
  predicate IsContentLine(s: string, c: ContentCaptures) {
    && |c.logging| > 0 && ']' !in c.logging
    && (c.tag.Some? ==> IsDigits(c.tag.value))
    && NoNewline(c.content)
    && s == "[" + c.logging + "]" + BodyText(c.tag, c.content)
  }

  /** The length of a leading ` (digits)` in `rest`, or 0 when there is none. */
  function TagLength(rest: string): (g: nat)
    ensures g != 0 ==> 3 < g <= |rest| && rest[..2] == " (" && IsDigits(rest[2..g - 1]) && rest[g - 1] == ')'
  {
    if |rest| < 2 || rest[..2] != " (" then 0
    else
      var d := LeadingRun(rest[2..], IsDigit, |rest|);
      if 0 < d && 2 + d < |rest| && rest[2 + d] == ')' then d + 3 else 0
  }

  /** The part of the pattern after the level, full-matched against `rest`.
      The optional group is tried first and kept only when a space and a
      newline-free body follow it; otherwise the body starts after the
      first space. */
  function MatchBody(rest: string): (r: Option<(Option<string>, string)>)
    ensures r.Some? ==> IsContentBody(rest, r.value.0, r.value.1)
  {
    var g := TagLength(rest);
    if 0 < g < |rest| && rest[g] == ' ' && NoNewline(rest[g + 1..]) then
      AroundPair(rest, g - 1);
      Some((Some(rest[2..g - 1]), rest[g + 1..]))
    else if 0 < |rest| && rest[0] == ' ' && NoNewline(rest[1..]) then
      assert rest == " " + rest[1..];
      Some((None, rest[1..]))
    else None
  }

  /** Every reading of the part after the level is found; a tagged reading
      is the one returned, and an untagged one loses only to a tagged one. */
  lemma MatchBodyComplete(rest: string, tag: Option<string>, content: string)
    requires IsContentBody(rest, tag, content)
    ensures MatchBody(rest).Some?
    ensures MatchBody(rest) == Some((tag, content)) || (tag.None? && MatchBody(rest).value.0.Some?)
  {
    if tag.Some? {
      MatchBodyTagged(tag.value, content);
    } else {
      assert rest == [' '] + content;
      assert rest[1..] == content;
    }
  }

  lemma MatchBodyTagged(d: string, content: string)
    requires IsDigits(d) && NoNewline(content)
    ensures MatchBody(BodyText(Some(d), content)) == Some((Some(d), content))
  {
    var rest := BodyText(Some(d), content);
    Pieces5(" (", d, ")", " ", content);
    assert rest[2..][|d|] == ')';
    LeadingRunIs(rest[2..], IsDigit, |rest|, |d|);
    var g := TagLength(rest);
    assert g == |d| + 3;
    assert rest[g] == ' ';
    assert rest[2..g - 1] == d;
    assert rest[g + 1..] == content;
  }

  lemma MatchBodyUntagged(content: string)
    requires NoNewline(content)
    requires |content| == 0 || content[0] != '('
    ensures MatchBody(BodyText(None, content)) == Some((None, content))
  {
    var rest := BodyText(None, content);
    assert rest == [' '] + content;
    if |content| > 0 {
      assert rest[1] == content[0];
    }
    assert TagLength(rest) == 0;
    assert rest[1..] == content;
  }

  /** A tag at the very end has no space after it, so it is not a tag: the
      whole of `(d)` stays in the body. */
  lemma MatchBodyBareTag(d: string)
    requires IsDigits(d)
    ensures MatchBody(BodyText(None, "(" + d + ")")) == Some((None, "(" + d + ")"))
  {
    var content := "(" + d + ")";
    var rest := BodyText(None, content);
    assert rest == " (" + d + ")" + "";
    TagLengthOf(d, "");
    DigitsExclude(d, '\n');
    assert rest[1..] == content;
    MatchBodyNoTag(rest);
  }

  /** Without a tag that a space follows, the body starts after the first
      space. */
  lemma MatchBodyNoTag(rest: string)
    requires |rest| > 0 && rest[0] == ' ' && NoNewline(rest[1..])
    requires TagLength(rest) == 0 || TagLength(rest) == |rest|
    ensures MatchBody(rest) == Some((None, rest[1..]))
  {
  }

  /** The length of a leading tag ` (d)`. */
  lemma TagLengthOf(d: string, after: string)
    requires IsDigits(d)
    ensures TagLength(" (" + d + ")" + after) == |d| + 3
  {
    var rest := " (" + d + ")" + after;
    var t := d + ")" + after;
    assert rest[..2] == " (" && rest[2..] == t;
    assert t[|d|] == ')';
    LeadingRunIs(t, IsDigit, |rest|, |d|);
  }

  /** The default content-parsing pattern, full-matched against `s`: the
      level runs to the first `]`, and the rest is matched by `MatchBody`. */
  function MatchContentLine(s: string): (r: Option<ContentCaptures>)
    ensures r.Some? ==> IsContentLine(s, r.value)
  {
    if |s| == 0 || s[0] != '[' then None
    else
      match IndexOf(s[1..], ']')
      case None => None
      case Some(k) =>
        if k == 0 then None
        else
          match MatchBody(s[k + 2..])
          case None => None
          case Some((tag, content)) =>
            Around(s, k);
            Some(ContentCaptures(s[1..k + 1], tag, content))
  }

  /** The level of any reading is the text up to the first `]`. */
  lemma LevelIsFirstBracket(s: string, level: string, rest: string)
    requires ']' !in level && s == "[" + level + "]" + rest
    ensures IndexOf(s[1..], ']') == Some(|level|)
    ensures s[1..|level| + 1] == level && s[|level| + 2..] == rest
  {
    assert s[1..] == level + "]" + rest;
    IndexOfIs(s[1..], ']', |level|);
  }

  /** The line matcher is the level up to the first `]` followed by the
      body matcher on the rest. */
  lemma MatchContentLineOf(s: string, level: string, rest: string)
    requires |level| > 0 && ']' !in level && s == "[" + level + "]" + rest
    ensures MatchContentLine(s) == match MatchBody(rest)
      case None => None
      case Some((tag, content)) => Some(ContentCaptures(level, tag, content))
  {
    LevelIsFirstBracket(s, level, rest);
  }

  /** Every reading is found. A reading with the numeric tag is the one
      returned; a reading without it is returned unless the body itself
      starts with a tag followed by a space, in which case the tagged
      reading takes precedence. */
  lemma ContentLineComplete(s: string, c: ContentCaptures)
    requires IsContentLine(s, c)
    ensures MatchContentLine(s).Some?
    ensures MatchContentLine(s) == Some(c) || (c.tag.None? && MatchContentLine(s).value.tag.Some?)
  {
    LevelIsFirstBracket(s, c.logging, BodyText(c.tag, c.content));
    MatchBodyComplete(s[|c.logging| + 2..], c.tag, c.content);
  }

  /** A reading without the tag whose body does not open with `(` is the
      one returned. */
  lemma ContentLineUntagged(s: string, level: string, content: string)
    requires IsContentLine(s, ContentCaptures(level, None, content))
    requires |content| == 0 || content[0] != '('
    ensures MatchContentLine(s) == Some(ContentCaptures(level, None, content))
  {
    LevelIsFirstBracket(s, level, BodyText(None, content));
    MatchBodyUntagged(content);
  }

  /** `[L] (d) C`: the level is `L`, the tag `d` and the content `C`. */
  lemma ContentLineTagged(s: string, level: string, d: string, content: string)
    requires |level| > 0 && ']' !in level && IsDigits(d) && NoNewline(content)
    requires s == "[" + level + "]" + BodyText(Some(d), content)
    ensures MatchContentLine(s) == Some(ContentCaptures(level, Some(d), content))
  {
    LevelIsFirstBracket(s, level, BodyText(Some(d), content));
    MatchBodyTagged(d, content);
  }

  /** `[L] (d)` with nothing after the tag: the level is `L` and the content
      the whole `(d)`. */
  lemma ContentLineBareTag(s: string, level: string, d: string)
    requires |level| > 0 && ']' !in level && IsDigits(d)
    requires s == "[" + level + "]" + BodyText(None, "(" + d + ")")
    ensures MatchContentLine(s) == Some(ContentCaptures(level, None, "(" + d + ")"))
  {
    LevelIsFirstBracket(s, level, BodyText(None, "(" + d + ")"));
    MatchBodyBareTag(d);
  }

  // ---------------------------------------------------------------------
  // The content parser and its formatter list
  // ---------------------------------------------------------------------

  type ContentFormatter = string -> Option<ContentCaptures>

  /** Every match of a content formatter is used: the loop stops at the
      first formatter that matches at all. */
  predicate AnyCapture(c: ContentCaptures) {
    true
  }

  /** The formatter list the Pumpkin handler ships: the single pattern above. */
  const DefaultContentFormatters: seq<ContentFormatter> := [MatchContentLine]

  const UnrecognizedInput := "Unrecognized input: "

  /** The `ValueError` raised when no formatter matches: its message, and
      the record as it stood, since every assignment to it comes after the
      search. */
  datatype Unrecognized = Unrecognized(message: string, record: Info)

  /** The record as the parser leaves it when formatter captures `c` decide:
      the time of parsing, the level and the residual content. */
  function WithCaptures(info: Info, c: ContentCaptures, clock: Clock): Info {
    info.(hour := clock.hour, minute := clock.minute, second := clock.second,
          loggingLevel := Some(c.logging), content := c.content)
  }

  /** Try the formatters in order on the record's content; the first that
      matches sets the time, the level and the content. When none matches
      the parse fails with a message carrying the content, and no record
      comes out. */
  function ContentParse(info: Info, formatters: seq<ContentFormatter>, clock: Clock): (r: Result<Info, Unrecognized>)
    ensures r.Failure? <==> forall j :: 0 <= j < |formatters| ==> formatters[j](info.content).None?
    ensures r.Failure? ==> r.error == Unrecognized(UnrecognizedInput + info.content, info)
    ensures r.Success? ==>
      exists i :: 0 <= i < |formatters| && formatters[i](info.content).Some?
        && (forall j :: 0 <= j < i ==> formatters[j](info.content).None?)
        && r.value == WithCaptures(info, formatters[i](info.content).value, clock)
  {
    match FirstAccepted(formatters, AnyCapture, info.content)
    case None => Failure(Unrecognized(UnrecognizedInput + info.content, info))
    case Some(i) => Success(WithCaptures(info, formatters[i](info.content).value, clock))
  }

  // ---------------------------------------------------------------------
  // The chat rewrite
  //   \<chat\> (?P<name>[^:]+): (?P<message>.*)
  // ---------------------------------------------------------------------

  datatype ChatCaptures = ChatCaptures(name: string, message: string)

  const ChatPrefix := "<chat> "

  predicate IsChatLine(s: string, c: ChatCaptures) {
    && |c.name| > 0 && ':' !in c.name
    && NoNewline(c.message)
    && s == ChatPrefix + c.name + ": " + c.message
  }

  /** The default chat pattern, full-matched against `s`: the name runs to
      the first colon, which must be followed by a space. */
  function MatchChat(s: string): (r: Option<ChatCaptures>)
    ensures r.Some? ==> IsChatLine(s, r.value)
  {
    if !StartsWith(s, ChatPrefix) then None
    else
      var rest := s[|ChatPrefix|..];
      match IndexOf(rest, ':')
      case None => None
      case Some(k) =>
        if k == 0 || k + 1 >= |rest| || rest[k + 1] != ' ' || !NoNewline(rest[k + 2..]) then None
        else
          assert s == ChatPrefix + rest[..k] + ": " + rest[k + 2..];
          Some(ChatCaptures(rest[..k], rest[k + 2..]))
  }

  /** A chat reading is unique and is what the matcher returns. */
  lemma ChatComplete(s: string, c: ChatCaptures)
    requires IsChatLine(s, c)
    ensures MatchChat(s) == Some(c)
  {
    var rest := c.name + ": " + c.message;
    assert s[|ChatPrefix|..] == rest;
    IndexOfIs(rest, ':', |c.name|);
    assert rest[..|c.name|] == c.name;
    assert rest[|c.name| + 2..] == c.message;
  }

  type ChatFormatter = string -> Option<ChatCaptures>

  /** A chat match is used only when its name is a valid player name. */
  predicate HasValidName(c: ChatCaptures) {
    VerifyPlayerName(c.name)
  }

  const DefaultChatFormatters: seq<ChatFormatter> := [MatchChat]

  /** Try the chat formatters in order; the first whose match names a valid
      player turns the record into that player's message. Otherwise the
      record is returned as it was. */
  function ChatRewrite(info: Info, formatters: seq<ChatFormatter>): (r: Info)
    ensures (forall j :: 0 <= j < |formatters| ==> !Accepted(formatters[j](info.content), HasValidName)) ==> r == info
    ensures forall i ::
      (&& 0 <= i < |formatters| && Accepted(formatters[i](info.content), HasValidName)
       && (forall j :: 0 <= j < i ==> !Accepted(formatters[j](info.content), HasValidName)))
      ==> r == info.(player := Some(formatters[i](info.content).value.name),
                     content := formatters[i](info.content).value.message)
  {
    match FirstAccepted(formatters, HasValidName, info.content)
    case None => info
    case Some(i) =>
      var c := formatters[i](info.content).value;
      info.(player := Some(c.name), content := c.message)
  }

  /** With the default chat pattern: a chat line naming a valid player
      becomes that player's message. */
  lemma ChatRewriteApplies(info: Info, name: string, message: string)
    requires IsChatLine(info.content, ChatCaptures(name, message))
    requires IsValidPlayerName(name)
    ensures ChatRewrite(info, DefaultChatFormatters) == info.(player := Some(name), content := message)
  {
    ChatComplete(info.content, ChatCaptures(name, message));
    assert DefaultChatFormatters[0](info.content) == MatchChat(info.content);
    FirstAcceptedIs(DefaultChatFormatters, HasValidName, info.content, 0);
  }

  /** With the default chat pattern: any other content, including a chat
      line whose name is not a valid player name, leaves the record as it
      was. */
  lemma ChatRewriteOtherwise(info: Info)
    requires forall c :: IsChatLine(info.content, c) ==> !IsValidPlayerName(c.name)
    ensures ChatRewrite(info, DefaultChatFormatters) == info
  {
    assert DefaultChatFormatters[0](info.content) == MatchChat(info.content);
  }

  // ---------------------------------------------------------------------
  // The whole inbound path
  // ---------------------------------------------------------------------

  /** `v` carries what the chat formatters make of the content `body`: the
      first one that reads a valid player name sets the player and the
      message; when none does, `body` stays the content and no player is
      set. */
  predicate ChatOutcome(v: Info, body: string, formatters: seq<ChatFormatter>) {
    || ((forall j :: 0 <= j < |formatters| ==> !Accepted(formatters[j](body), HasValidName))
        && v.player.None? && v.content == body)
    || (exists k ::
          && 0 <= k < |formatters| && Accepted(formatters[k](body), HasValidName)
          && (forall j :: 0 <= j < k ==> !Accepted(formatters[j](body), HasValidName))
          && v.player == Some(formatters[k](body).value.name)
          && v.content == formatters[k](body).value.message)
  }

  /** A handler's overridable pattern lists. */
  datatype Handler = Handler(contentFormatters: seq<ContentFormatter>, chatFormatters: seq<ChatFormatter>)

  const Pumpkin := Handler(DefaultContentFormatters, DefaultChatFormatters)

  /** The record built from a raw server line before content parsing:
      server-sourced, colour codes removed by `clean`, time zeroed, no level
      and no player yet. */
  function ServerStdoutRawResult(text: string, clean: string -> string): (r: Info)
    ensures IsFromServer(r) && !IsUser(r)
    ensures r.rawContent == text && r.content == clean(text)
    ensures r.hour == 0 && r.minute == 0 && r.second == 0
    ensures r.loggingLevel.None? && r.player.None?
  {
    Info(Server, text, clean(text), 0, 0, 0, None, None)
  }

  /** Parse one line of server output: raw record, content parsing (which
      may fail), then the chat rewrite. */
  function ParseServerStdout(h: Handler, text: string, clean: string -> string, clock: Clock): (r: Result<Info, Unrecognized>)
    ensures r.Failure? <==> forall j :: 0 <= j < |h.contentFormatters| ==> h.contentFormatters[j](clean(text)).None?
    ensures r.Failure? ==> r.error.message == UnrecognizedInput + clean(text)
    ensures r.Failure? ==> r.error.record == ServerStdoutRawResult(text, clean)
    ensures r.Success? ==>
      && IsFromServer(r.value) && r.value.rawContent == text
      && r.value.hour == clock.hour && r.value.minute == clock.minute && r.value.second == clock.second
      && r.value.loggingLevel.Some?
    ensures r.Success? ==>
      exists i :: 0 <= i < |h.contentFormatters| && h.contentFormatters[i](clean(text)).Some?
        && (forall j :: 0 <= j < i ==> h.contentFormatters[j](clean(text)).None?)
        && r.value.loggingLevel == Some(h.contentFormatters[i](clean(text)).value.logging)
        && ChatOutcome(r.value, h.contentFormatters[i](clean(text)).value.content, h.chatFormatters)
  {
    match ContentParse(ServerStdoutRawResult(text, clean), h.contentFormatters, clock)
    case Failure(e) => Failure(e)
    case Success(parsed) => Success(ChatRewrite(parsed, h.chatFormatters))
  }

  /** The default content formatter on `[L] C`, where `C` does not open
      with `(`: the level is `L` and the content `C`. */
  lemma ContentParseUntagged(info: Info, clock: Clock, level: string, content: string)
    requires info.content == "[" + level + "] " + content
    requires |level| > 0 && ']' !in level && NoNewline(content)
    requires |content| == 0 || content[0] != '('
    ensures ContentParse(info, DefaultContentFormatters, clock)
         == Success(WithCaptures(info, ContentCaptures(level, None, content), clock))
  {
    var s := info.content;
    assert s == "[" + level + "]" + BodyText(None, content) by {
      assert "] " + content == "]" + BodyText(None, content);
    }
    ContentLineUntagged(s, level, content);
    assert DefaultContentFormatters[0](s) == MatchContentLine(s);
  }

  /** The default content formatter on `[L] (d) C`: the level is `L` and
      the tag is stripped from the content. */
  lemma ContentParseTagged(info: Info, clock: Clock, level: string, d: string, content: string)
    requires info.content == "[" + level + "]" + BodyText(Some(d), content)
    requires |level| > 0 && ']' !in level && IsDigits(d) && NoNewline(content)
    ensures ContentParse(info, DefaultContentFormatters, clock)
         == Success(WithCaptures(info, ContentCaptures(level, Some(d), content), clock))
  {
    ContentLineTagged(info.content, level, d, content);
    assert DefaultContentFormatters[0](info.content) == MatchContentLine(info.content);
  }

  /** The default content formatter on any `[L] C`: it always succeeds with
      level `L`, and the content is `C`, or `C` with a leading tag `(d) `
      removed. */
  lemma ContentParseBracketed(info: Info, clock: Clock, level: string, content: string)
    requires info.content == "[" + level + "] " + content
    requires |level| > 0 && ']' !in level && NoNewline(content)
    ensures ContentParse(info, DefaultContentFormatters, clock).Success?
    ensures ContentParse(info, DefaultContentFormatters, clock).value.loggingLevel == Some(level)
    ensures var c := ContentParse(info, DefaultContentFormatters, clock).value.content;
      c == content || exists d :: IsDigits(d) && content == "(" + d + ")" + " " + c
  {
    var s := info.content;
    var rest := BodyText(None, content);
    assert s == "[" + level + "]" + rest by {
      assert "] " + content == "]" + rest;
    }
    MatchBodyComplete(rest, None, content);
    MatchContentLineOf(s, level, rest);
    var b := MatchBody(rest).value;
    assert DefaultContentFormatters[0](s) == Some(ContentCaptures(level, b.0, b.1));
    FirstAcceptedIs(DefaultContentFormatters, AnyCapture, s, 0);
    if b.0.Some? {
      TaggedBodyOf(content, b.0.value, b.1);
    }
  }

  /** A tagged reading of ` C` says that `C` opens with the tag. */
  lemma TaggedBodyOf(content: string, d: string, c: string)
    requires IsContentBody(BodyText(None, content), Some(d), c)
    ensures content == "(" + d + ")" + " " + c
  {
    var p := "(" + d + ")";
    assert TagText(Some(d)) == " " + p;
    var q := p + " " + c;
    assert BodyText(Some(d), c) == " " + q;
    assert BodyText(None, content) == " " + content;
    assert (" " + q)[1..] == q && (" " + content)[1..] == content;
  }

  /** With the Pumpkin patterns, `[L] C` parses to level `L` and content `C`
      whenever `C` does not open with `(` and is not a chat line from a
      valid player. */
  lemma ParsePlainLine(text: string, clean: string -> string, clock: Clock, level: string, content: string)
    requires clean(text) == "[" + level + "] " + content
    requires |level| > 0 && ']' !in level && NoNewline(content)
    requires |content| == 0 || content[0] != '('
    requires forall c :: IsChatLine(content, c) ==> !IsValidPlayerName(c.name)
    ensures ParseServerStdout(Pumpkin, text, clean, clock).Success?
    ensures ParseServerStdout(Pumpkin, text, clean, clock).value.loggingLevel == Some(level)
    ensures ParseServerStdout(Pumpkin, text, clean, clock).value.content == content
    ensures ParseServerStdout(Pumpkin, text, clean, clock).value.player.None?
  {
    var raw := ServerStdoutRawResult(text, clean);
    ContentParseUntagged(raw, clock, level, content);
    ChatRewriteOtherwise(WithCaptures(raw, ContentCaptures(level, None, content), clock));
  }

  /** With the Pumpkin patterns, `[L] <chat> N: M` from a valid player `N`
      parses to level `L`, player `N` and content `M`. */
  lemma ParseChatLine(text: string, clean: string -> string, clock: Clock, level: string, chat: string, name: string, message: string)
    requires clean(text) == "[" + level + "] " + chat
    requires chat == ChatPrefix + name + ": " + message
    requires |level| > 0 && ']' !in level && NoNewline(message)
    requires IsValidPlayerName(name)
    ensures ParseServerStdout(Pumpkin, text, clean, clock).Success?
    ensures ParseServerStdout(Pumpkin, text, clean, clock).value.loggingLevel == Some(level)
    ensures ParseServerStdout(Pumpkin, text, clean, clock).value.player == Some(name)
    ensures ParseServerStdout(Pumpkin, text, clean, clock).value.content == message
    ensures IsUser(ParseServerStdout(Pumpkin, text, clean, clock).value)
  {
    ValidNameSeparators(name);
    assert chat[0] == '<';
    var raw := ServerStdoutRawResult(text, clean);
    ContentParseUntagged(raw, clock, level, chat);
    ChatRewriteApplies(WithCaptures(raw, ContentCaptures(level, None, chat), clock), name, message);
  }

  /** With the Pumpkin patterns, `[L] (d) C` parses to level `L` and
      content `C`, the tag removed, whenever `C` is not a chat line from a
      valid player. */
  lemma ParseTaggedLine(text: string, clean: string -> string, clock: Clock, level: string, d: string, content: string)
    requires clean(text) == "[" + level + "]" + BodyText(Some(d), content)
    requires |level| > 0 && ']' !in level && IsDigits(d) && NoNewline(content)
    requires forall c :: IsChatLine(content, c) ==> !IsValidPlayerName(c.name)
    ensures ParseServerStdout(Pumpkin, text, clean, clock).Success?
    ensures ParseServerStdout(Pumpkin, text, clean, clock).value.loggingLevel == Some(level)
    ensures ParseServerStdout(Pumpkin, text, clean, clock).value.content == content
    ensures ParseServerStdout(Pumpkin, text, clean, clock).value.player.None?
  {
    var raw := ServerStdoutRawResult(text, clean);
    ContentParseTagged(raw, clock, level, d, content);
    ChatRewriteOtherwise(WithCaptures(raw, ContentCaptures(level, Some(d), content), clock));
  }

  /** With the Pumpkin patterns, `[L] (d) <chat> N: M` from a valid player
      `N` parses to level `L`, player `N` and content `M`: the tag is
      removed before the chat pattern is tried. */
  lemma ParseTaggedChatLine(text: string, clean: string -> string, clock: Clock, level: string, d: string, name: string, message: string)
    requires clean(text) == "[" + level + "]" + BodyText(Some(d), ChatPrefix + name + ": " + message)
    requires |level| > 0 && ']' !in level && IsDigits(d) && NoNewline(message)
    requires IsValidPlayerName(name)
    ensures ParseServerStdout(Pumpkin, text, clean, clock).Success?
    ensures ParseServerStdout(Pumpkin, text, clean, clock).value.loggingLevel == Some(level)
    ensures ParseServerStdout(Pumpkin, text, clean, clock).value.player == Some(name)
    ensures ParseServerStdout(Pumpkin, text, clean, clock).value.content == message
    ensures IsUser(ParseServerStdout(Pumpkin, text, clean, clock).value)
  {
    ValidNameSeparators(name);
    var chat := ChatPrefix + name + ": " + message;
    assert NoNewline(chat) by {
      forall i | 0 <= i < |chat| ensures chat[i] != '\n' {
        if i >= |ChatPrefix| + |name| + 2 {
          assert chat[i] == message[i - |ChatPrefix| - |name| - 2];
        } else if i >= |ChatPrefix| {
          assert chat[i] == (name + ": ")[i - |ChatPrefix|];
        }
      }
    }
    var raw := ServerStdoutRawResult(text, clean);
    ContentParseTagged(raw, clock, level, d, chat);
    ChatRewriteApplies(WithCaptures(raw, ContentCaptures(level, Some(d), chat), clock), name, message);
  }
}
