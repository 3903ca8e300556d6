/** The commands the handler sends to the server: `tellraw` for private and
    broadcast messages, and `stop`. */
module Commands {
  import opened Wrappers
  import opened Text
  import opened JsonString

  const StopCommand := "stop"
  const TellrawPrefix := "tellraw "
  const BroadcastTarget := "@a"

  datatype Tellraw = Tellraw(target: string, message: string)

  /** Reads a `tellraw TARGET JSON` command back: the target runs to the
      first space after the keyword, and the rest must be a JSON string
      literal. */
  function ParseTellraw(command: string): Option<Tellraw> {
    match StripPrefix(command, TellrawPrefix)
    case None => None
    case Some(rest) =>
      match IndexOf(rest, ' ')
      case None => None
      case Some(k) =>
        match DecodeJsonString(rest[k + 1..])
        case None => None
        case Some(m) => Some(Tellraw(rest[..k], m))
  }

  lemma TellrawRoundTrip(target: string, message: string)
    ensures ' ' !in target ==>
      ParseTellraw(TellrawPrefix + (target + (" " + FormatMessage(message)))) == Some(Tellraw(target, message))
  {
    if ' ' in target {
      return;
    }
    var rest := target + (" " + FormatMessage(message));
    StripPrefixOf(TellrawPrefix, rest);
    AroundChar(target, ' ', FormatMessage(message));
    IndexOfIs(rest, ' ', |target|);
    FormatMessageRoundTrip(message);
  }

  /** The command that shows `message` to `target`: a space-free target and
      the message can both be read back from it. */
  function SendMessageCommand(target: string, message: string): (r: string)
    ensures StartsWith(r, TellrawPrefix)
    ensures ' ' !in target ==> ParseTellraw(r) == Some(Tellraw(target, message))
  {
    TellrawRoundTrip(target, message);
    TellrawPrefix + (target + (" " + FormatMessage(message)))
  }

  /** The command that shows `message` to every player: a send to `@a`. */
  function BroadcastMessageCommand(message: string): (r: string)
    ensures r == SendMessageCommand(BroadcastTarget, message)
    ensures ParseTellraw(r) == Some(Tellraw(BroadcastTarget, message))
  {
    SendMessageCommand(BroadcastTarget, message)
  }
}
