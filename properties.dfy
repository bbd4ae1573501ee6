/**
 * What the command table and the resolver promise: distinct match keys,
 * alias round trips in every context, the `/` gate, insensitivity to case
 * and surrounding whitespace, and soundness of every resolved command.
 */
module CommandProperties {
  import opened Wrappers
  import opened Text
  import opened Sequences
  import opened Commands

  // ---------------------------------------------------------------------
  // The alias table

  /** The keys each command is matched by, written out. */
  ghost function KeyTable(c: CommandInfo): seq<string> {
    match c
    case Message => ["m", "msg"]
    case Who => ["w", "who"]
    case _ => [RawValue(c)]
  }

  lemma MatchKeysTable(c: CommandInfo)
    ensures MatchKeys(c) == KeyTable(c)
  {
  }

  /** The command a match key belongs to, read off the alias table. */
  ghost function KeyOwner(key: string): Option<CommandInfo> {
    if key == "m" || key == "msg" then Some(Message)
    else if key == "w" || key == "who" then Some(Who)
    else FromRawValue(key)
  }

  lemma KeyDeterminesCommand(c: CommandInfo, key: string)
    requires key in KeyTable(c)
    ensures KeyOwner(key) == Some(c)
  {
    // Holds by unfolding both tables.
  }

  /** No two commands share a match key, so the first-match search never
      depends on the order of the commands it searches. */
  lemma MatchKeysDisjoint(c1: CommandInfo, c2: CommandInfo, key: string)
    requires key in MatchKeys(c1) && key in MatchKeys(c2)
    ensures c1 == c2
  {
    MatchKeysTable(c1);
    MatchKeysTable(c2);
    KeyDeterminesCommand(c1, key);
    KeyDeterminesCommand(c2, key);
  }

  /** The empty token is nobody's key. */
  lemma NoEmptyMatchKey(c: CommandInfo)
    ensures [] !in MatchKeys(c)
  {
    MatchKeysTable(c);
  }

  lemma FirstMatchUnambiguous(cmds: seq<CommandInfo>, key: string, c: CommandInfo)
    requires c in cmds && key in MatchKeys(c)
    ensures First(cmds, HasKey(key)) == Some(c)
  {
    var r := First(cmds, HasKey(key));
    MatchKeysDisjoint(r.value, c, key);
  }

  lemma RawValueInjective(c1: CommandInfo, c2: CommandInfo)
    requires RawValue(c1) == RawValue(c2)
    ensures c1 == c2
  {
    // Holds by unfolding RawValue: the nine names are distinct.
  }

  /** The raw-value lookup inverts `RawValue`. */
  lemma RawValueRoundTrip(c: CommandInfo)
    ensures FromRawValue(RawValue(c)) == Some(c)
  {
    var r := FromRawValue(RawValue(c));
    RawValueInjective(r.value, c);
  }

  // ---------------------------------------------------------------------
  // Normalisation

  /** The resolver's token depends only on the cleaned text. */
  lemma RawInputOfCleaned(a: string, b: string)
    requires Trim(Lower(a)) == Trim(Lower(b))
    ensures RawInput(a) == RawInput(b)
  {
  }

  /** Trimming before the resolver trims again changes nothing. */
  lemma RawInputOfTrimmed(s: string)
    ensures RawInput(Trim(s)) == RawInput(s)
  {
    TrimCommutesWithLower(Trim(s));
    TrimCommutesWithLower(s);
    TrimIdempotent(s);
    assert Trim(Lower(Trim(s))) == Trim(Lower(s));
    RawInputOfCleaned(Trim(s), s);
  }

  lemma AliasNormalised(a: string)
    requires WellFormedAlias(a)
    ensures Trim(a) == a && Lower(a) == a
  {
    assert 'a' <= a[|a| - 1] <= 'z';
    TrimUnchanged(a);
    LowerUnchanged(a);
  }

  lemma RawInputOfSlashed(input: string)
    requires StartsWithSlash(Trim(Lower(input)))
    ensures RawInput(input) == Trim(Lower(input))[1..]
  {
  }

  /** Text already trimmed and lower-case that starts with `/` loses just that `/`. */
  lemma RawInputOfNormalised(a: string)
    requires StartsWithSlash(a) && Trim(a) == a && Lower(a) == a
    ensures RawInput(a) == a[1..]
  {
    RawInputOfSlashed(a);
  }

  lemma RawInputOfAlias(a: string)
    requires WellFormedAlias(a)
    ensures RawInput(a) == a[1..]
  {
    AliasNormalised(a);
    RawInputOfNormalised(a);
  }

  // ---------------------------------------------------------------------
  // Resolution

  /** Every alias of every command resolves to that command, in every
      context: an offered command through its alias, a hidden one through
      the raw-value fallback. */
  lemma AliasRoundTrip(c: CommandInfo, a: string, isGeoPublic: bool, isGeoDM: bool)
    requires a in Aliases(c)
    ensures FromInput(a, isGeoPublic, isGeoDM) == Some(c)
  {
    AliasNormalised(a);
    RawInputOfAlias(a);
    KeyRoundTrip(c, a[1..], isGeoPublic, isGeoDM);
  }

  /** Every match key of a command looks up that command, in every context. */
  lemma KeyRoundTrip(c: CommandInfo, key: string, isGeoPublic: bool, isGeoDM: bool)
    requires key in MatchKeys(c)
    ensures Lookup(key, isGeoPublic, isGeoDM) == Some(c)
  {
    var active := All(isGeoPublic, isGeoDM);
    if c in active {
      FirstMatchUnambiguous(active, key, c);
    } else {
      forall e | e in active ensures key !in MatchKeys(e) {
        if key in MatchKeys(e) { MatchKeysDisjoint(c, e, key); }
      }
      assert c == Favorite || c == Unfavorite;
      MatchKeysTable(c);
      assert key == RawValue(c);
      RawValueRoundTrip(c);
    }
  }

  /** The primary alias resolves back to its command. */
  lemma PrimaryAliasRoundTrip(c: CommandInfo, isGeoPublic: bool, isGeoDM: bool)
    ensures FromInput(PrimaryAlias(c), isGeoPublic, isGeoDM) == Some(c)
  {
    AliasRoundTrip(c, PrimaryAlias(c), isGeoPublic, isGeoDM);
  }

  /** A command's raw value is owned by that command in the key table. */
  lemma KeyOwnerOfRawValue(c: CommandInfo)
    ensures KeyOwner(RawValue(c)) == Some(c)
  {
    if c == Message {
      RawValueRoundTrip(c);
    } else {
      KeyDeterminesCommand(c, RawValue(c));
    }
  }

  /** A command's raw value looks up that command in every context: through
      the alias search when some offered command has it as a key (only the
      command itself can), through the raw-value fallback otherwise. */
  lemma RawValueLookup(c: CommandInfo, isGeoPublic: bool, isGeoDM: bool)
    ensures Lookup(RawValue(c), isGeoPublic, isGeoDM) == Some(c)
  {
    var key := RawValue(c);
    var found := First(All(isGeoPublic, isGeoDM), HasKey(key));
    if found.Some? {
      var e := found.value;
      assert key in MatchKeys(e);
      MatchKeysTable(e);
      KeyDeterminesCommand(e, key);
      KeyOwnerOfRawValue(c);
    } else {
      RawValueRoundTrip(c);
    }
  }

  /** Typing `/` and a command's name resolves that command in every
      context, including `/message`, which is not an alias. */
  lemma NameRoundTrip(c: CommandInfo, isGeoPublic: bool, isGeoDM: bool)
    ensures FromInput("/" + RawValue(c), isGeoPublic, isGeoDM) == Some(c)
  {
    var a := "/" + RawValue(c);
    assert a[1..] == RawValue(c);
    assert WellFormedAlias(a);
    AliasNormalised(a);
    RawInputOfAlias(a);
    assert FromInput(a, isGeoPublic, isGeoDM) == Lookup(RawValue(c), isGeoPublic, isGeoDM);
    RawValueLookup(c, isGeoPublic, isGeoDM);
  }

  /** Favorite and unfavorite are offered only outside location channels,
      yet typing their names resolves them everywhere. */
  lemma HiddenCommandsStillResolve(c: CommandInfo, isGeoPublic: bool, isGeoDM: bool)
    requires c == Favorite || c == Unfavorite
    ensures c in All(isGeoPublic, isGeoDM) <==> !(isGeoPublic || isGeoDM)
    ensures FromInput("/" + RawValue(c), isGeoPublic, isGeoDM) == Some(c)
  {
    assert c !in Mandatory && c in Optional;
    NameRoundTrip(c, isGeoPublic, isGeoDM);
  }

  /** A resolved command was matched by an offered alias or by its name. */
  lemma ResolveSound(input: string, isGeoPublic: bool, isGeoDM: bool, c: CommandInfo)
    requires FromInput(input, isGeoPublic, isGeoDM) == Some(c)
    ensures StartsWithSlash(Trim(input))
    ensures var key := RawInput(input);
      (c in All(isGeoPublic, isGeoDM) && key in MatchKeys(c)) || key == RawValue(c)
  {
    RawInputOfTrimmed(input);
  }

  /** Conversely, slash-prefixed text whose token is an offered command's
      key, or any command's name, resolves to that command. */
  lemma ResolveComplete(input: string, isGeoPublic: bool, isGeoDM: bool, c: CommandInfo)
    requires StartsWithSlash(Trim(input))
    requires (c in All(isGeoPublic, isGeoDM) && RawInput(input) in MatchKeys(c))
             || RawValue(c) == RawInput(input)
    ensures FromInput(input, isGeoPublic, isGeoDM) == Some(c)
  {
    RawInputOfTrimmed(input);
    var key := RawInput(input);
    if c in All(isGeoPublic, isGeoDM) && key in MatchKeys(c) {
      FirstMatchUnambiguous(All(isGeoPublic, isGeoDM), key, c);
    } else {
      RawValueLookup(c, isGeoPublic, isGeoDM);
    }
  }

  /** Resolution does not depend on letter case. */
  lemma ResolveIgnoresCase(input: string, isGeoPublic: bool, isGeoDM: bool)
    ensures FromInput(Lower(input), isGeoPublic, isGeoDM) == FromInput(input, isGeoPublic, isGeoDM)
  {
    var t := Trim(input);
    TrimCommutesWithLower(input);
    assert Trim(Lower(input)) == Lower(t);
    RawInputOfTrimmed(input);
    RawInputOfTrimmed(Lower(input));
    LowerIdempotent(input);
    TrimCommutesWithLower(Lower(input));
    assert RawInput(Lower(input)) == RawInput(input);
  }

  /** Resolution does not depend on surrounding whitespace. */
  lemma ResolveIgnoresPadding(w1: string, input: string, w2: string, isGeoPublic: bool, isGeoDM: bool)
    requires AllWhitespace(w1) && AllWhitespace(w2)
    ensures FromInput(w1 + input + w2, isGeoPublic, isGeoDM) == FromInput(input, isGeoPublic, isGeoDM)
  {
    TrimIgnoresPadding(w1, input, w2);
  }

  /** Empty, blank and unprefixed text is never a command. */
  lemma BlankOrUnprefixedRejected(input: string, isGeoPublic: bool, isGeoDM: bool)
    requires AllWhitespace(input) || (Trim(input) != [] && Trim(input)[0] != '/')
    ensures FromInput(input, isGeoPublic, isGeoDM) == None
  {
  }

  /** Every match key is a non-empty run of lower-case letters. */
  lemma MatchKeysAreLetters(c: CommandInfo, key: string)
    requires key in MatchKeys(c)
    ensures |key| >= 1 && forall i :: 0 <= i < |key| ==> 'a' <= key[i] <= 'z'
  {
    var j :| 0 <= j < |MatchKeys(c)| && MatchKeys(c)[j] == key;
    assert WellFormedAlias(Aliases(c)[j]);
  }

  /** A token holding anything but a lower-case letter (a space, a second
      `/`) matches no alias and no name. */
  lemma NonLetterTokenMatchesNothing(key: string, i: nat, isGeoPublic: bool, isGeoDM: bool)
    requires i < |key| && !('a' <= key[i] <= 'z')
    ensures Lookup(key, isGeoPublic, isGeoDM) == None
  {
    forall c ensures key !in MatchKeys(c) {
      if key in MatchKeys(c) { MatchKeysAreLetters(c, key); }
    }
  }

  /** The empty token matches nothing. */
  lemma EmptyTokenMatchesNothing(isGeoPublic: bool, isGeoDM: bool)
    ensures Lookup([], isGeoPublic, isGeoDM) == None
  {
    forall c ensures [] !in MatchKeys(c) { NoEmptyMatchKey(c); }
  }

  /** A lone `/` leaves the empty token, which matches nothing. */
  lemma LoneSlashRejected(isGeoPublic: bool, isGeoDM: bool)
    ensures FromInput("/", isGeoPublic, isGeoDM) == None
  {
    TrimUnchanged("/");
    LowerUnchanged("/");
    RawInputOfNormalised("/");
    EmptyTokenMatchesNothing(isGeoPublic, isGeoDM);
  }
}
