/** The parsed-line record the handler produces and its event recognisers
    consume. */
module Records {
  import opened Wrappers

  /** Where a line came from: the server's standard output, or text an
      administrator typed into the console. */
  datatype Source = Server | Console

  /** The wall-clock time of parsing, handed in by the caller. */
  datatype Clock = Clock(hour: nat, minute: nat, second: nat)

  /** One line of input after parsing. `rawContent` is the line as read,
      `content` what remains after the prefixes have been stripped. */
  datatype Info = Info(
    source: Source,
    rawContent: string,
    content: string,
    hour: nat,
    minute: nat,
    second: nat,
    loggingLevel: Option<string>,
    player: Option<string>)

  predicate IsFromServer(info: Info) {
    info.source == Server
  }

  predicate IsFromConsole(info: Info) {
    info.source == Console
  }

  /** A server line that the chat rewrite attributed to a player. */
  predicate IsPlayer(info: Info) {
    IsFromServer(info) && info.player.Some?
  }

  /** A line a person wrote: typed at the console, or said by a player in
      chat. */
  predicate IsUser(info: Info) {
    IsFromConsole(info) || IsPlayer(info)
  }
}
