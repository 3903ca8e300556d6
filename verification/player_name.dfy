/** The player-name check every extracted name passes through before the
    handler trusts it. */
module PlayerNames {
  import opened Text

  const MinNameLength: nat := 3
  const MaxNameLength: nat := 16

  /** `[A-Za-z0-9_]{3,16}` matched against the whole string. */
  predicate IsValidPlayerName(s: string) {
    && MinNameLength <= |s| <= MaxNameLength
    && forall i :: 0 <= i < |s| ==> IsWordChar(s[i])
  }

  /** The check run the way the pattern is: a greedy scan of at most sixteen
      name characters, accepted when it took at least three and reached the
      end of the string. */
  function VerifyPlayerName(name: string): (ok: bool)
    ensures ok <==> IsValidPlayerName(name)
  {
    var n := LeadingRun(name, IsWordChar, MaxNameLength);
    MinNameLength <= n && n == |name|
  }

  /** A valid name holds neither a space nor a colon, so it never straddles
      the separators of the chat and join/leave lines. */
  lemma ValidNameSeparators(s: string)
    requires IsValidPlayerName(s)
    ensures ' ' !in s && ':' !in s && '\n' !in s
  {
  }
}
