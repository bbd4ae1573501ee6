/** Resolution of particular inputs, as the chat input sees them. */
module CommandExamples {
  import opened Wrappers
  import opened Text
  import opened Commands
  import opened CommandProperties

  lemma MessageAliases(isGeoPublic: bool, isGeoDM: bool)
    ensures FromInput("/m", isGeoPublic, isGeoDM) == Some(Message)
    ensures FromInput("/msg", isGeoPublic, isGeoDM) == Some(Message)
  {
    var aliases := Aliases(Message);
    assert aliases == ["/m", "/msg"];
    AliasRoundTrip(Message, aliases[0], isGeoPublic, isGeoDM);
    AliasRoundTrip(Message, aliases[1], isGeoPublic, isGeoDM);
  }

  lemma WhoAliases(isGeoPublic: bool, isGeoDM: bool)
    ensures FromInput("/w", isGeoPublic, isGeoDM) == Some(Who)
    ensures FromInput("/who", isGeoPublic, isGeoDM) == Some(Who)
  {
    var aliases := Aliases(Who);
    assert aliases == ["/w", "/who"];
    AliasRoundTrip(Who, aliases[0], isGeoPublic, isGeoDM);
    AliasRoundTrip(Who, aliases[1], isGeoPublic, isGeoDM);
  }

  /** `/message` is not an alias; the raw-value fallback resolves it. */
  lemma FullNameResolves(isGeoPublic: bool, isGeoDM: bool)
    ensures FromInput("/message", isGeoPublic, isGeoDM) == Some(Message)
  {
    assert RawValue(Message) == "message";
    assert "/" + "message" == "/message";
    NameRoundTrip(Message, isGeoPublic, isGeoDM);
  }

  lemma UpperCaseResolves(isGeoPublic: bool, isGeoDM: bool)
    ensures FromInput("/WHO", isGeoPublic, isGeoDM) == Some(Who)
  {
    var lowered := Lower("/WHO");
    assert |lowered| == 4;
    assert lowered[0] == '/' && lowered[1] == 'w' && lowered[2] == 'h' && lowered[3] == 'o';
    assert lowered == "/who";
    ResolveIgnoresCase("/WHO", isGeoPublic, isGeoDM);
    WhoAliases(isGeoPublic, isGeoDM);
  }

  lemma PaddedResolves(isGeoPublic: bool, isGeoDM: bool)
    ensures FromInput("  /who\n", isGeoPublic, isGeoDM) == Some(Who)
  {
    assert "  /who\n" == "  " + "/who" + "\n";
    ResolveIgnoresPadding("  ", "/who", "\n", isGeoPublic, isGeoDM);
    WhoAliases(isGeoPublic, isGeoDM);
  }

  lemma NotCommands(isGeoPublic: bool, isGeoDM: bool)
    ensures FromInput("", isGeoPublic, isGeoDM) == None
    ensures FromInput("   ", isGeoPublic, isGeoDM) == None
    ensures FromInput("hello", isGeoPublic, isGeoDM) == None
  {
    BlankOrUnprefixedRejected("", isGeoPublic, isGeoDM);
    BlankOrUnprefixedRejected("   ", isGeoPublic, isGeoDM);
    TrimUnchanged("hello");
    BlankOrUnprefixedRejected("hello", isGeoPublic, isGeoDM);
  }

  /** The text after the `/` is not trimmed again. */
  lemma SpaceAfterSlashRejected(isGeoPublic: bool, isGeoDM: bool)
    ensures FromInput("/ who", isGeoPublic, isGeoDM) == None
  {
    var input := "/ who";
    TrimUnchanged(input);
    LowerUnchanged(input);
    RawInputOfNormalised(input);
    NonLetterTokenMatchesNothing(input[1..], 0, isGeoPublic, isGeoDM);
  }

  /** Only one leading `/` is dropped. */
  lemma DoubleSlashRejected(isGeoPublic: bool, isGeoDM: bool)
    ensures FromInput("//who", isGeoPublic, isGeoDM) == None
  {
    var input := "//who";
    TrimUnchanged(input);
    LowerUnchanged(input);
    RawInputOfNormalised(input);
    NonLetterTokenMatchesNothing(input[1..], 0, isGeoPublic, isGeoDM);
  }

  /** Favorite is not offered in a public location channel, yet typing it works. */
  lemma FavoriteInLocationChannel()
    ensures Favorite !in All(true, false)
    ensures FromInput("/favorite", true, false) == Some(Favorite)
  {
    assert RawValue(Favorite) == "favorite";
    assert "/" + "favorite" == "/favorite";
    HiddenCommandsStillResolve(Favorite, true, false);
  }
}
