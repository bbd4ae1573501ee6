/**
 * The slash-command vocabulary of the chat input: the closed set of
 * commands, their aliases, the commands offered in a given context, and
 * the resolution of typed text to a command.
 */
module Commands {
  import opened Wrappers
  import opened Text
  import opened Sequences

  /** The nine commands, in declaration order. */
  datatype CommandInfo = Block | Clear | Hug | Message | Slap | Unblock | Who | Favorite | Unfavorite

  /** The raw value of each case: its name. */
  function RawValue(c: CommandInfo): (r: string)
    ensures |r| >= 3 && forall i :: 0 <= i < |r| ==> 'a' <= r[i] <= 'z'
  {
    match c
    case Block => "block"
    case Clear => "clear"
    case Hug => "hug"
    case Message => "message"
    case Slap => "slap"
    case Unblock => "unblock"
    case Who => "who"
    case Favorite => "favorite"
    case Unfavorite => "unfavorite"
  }

  /** The failable raw-value initialiser `CommandInfo(rawValue:)`. */
  function FromRawValue(s: string): (r: Option<CommandInfo>)
    ensures r.Some? ==> RawValue(r.value) == s
    ensures r.None? ==> forall c :: RawValue(c) != s
  {
    if s == "block" then Some(Block)
    else if s == "clear" then Some(Clear)
    else if s == "hug" then Some(Hug)
    else if s == "message" then Some(Message)
    else if s == "slap" then Some(Slap)
    else if s == "unblock" then Some(Unblock)
    else if s == "who" then Some(Who)
    else if s == "favorite" then Some(Favorite)
    else if s == "unfavorite" then Some(Unfavorite)
    else None
  }

  /** What every alias looks like: a `/` followed by lower-case letters. */
  predicate WellFormedAlias(a: string) {
    |a| >= 2 && a[0] == '/' && forall i :: 1 <= i < |a| ==> 'a' <= a[i] <= 'z'
  }

  /** The accepted spellings of a command, primary one first. */
  function Aliases(c: CommandInfo): (r: seq<string>)
    ensures |r| >= 1
    ensures forall i :: 0 <= i < |r| ==> WellFormedAlias(r[i])
    ensures "/" + RawValue(c) in r || c == Message || c == Who
  {
    match c
    case Message => ["/m", "/msg"]
    case Who => ["/w", "/who"]
    case _ => ["/" + RawValue(c)]
  }

  /** The alias shown to users. */
  function PrimaryAlias(c: CommandInfo): (r: string)
    ensures r in Aliases(c) && WellFormedAlias(r)
    ensures r == match c
      case Message => "/m"
      case Who => "/w"
      case _ => "/" + RawValue(c)
  {
    Aliases(c)[0]
  }

  /** Whether the input field shows a nickname placeholder after the command. */
  function HasPlaceholder(c: CommandInfo): (r: bool)
    ensures r <==> c != Clear && c != Who
  {
    match c
    case Block | Hug | Message | Slap | Unblock | Favorite | Unfavorite => true
    case Clear | Who => false
  }

  /** The commands offered in every context, in declaration order. */
  const Mandatory: seq<CommandInfo> := [Block, Clear, Hug, Message, Slap, Unblock, Who]

  /** The commands offered only outside location channels. */
  const Optional: seq<CommandInfo> := [Favorite, Unfavorite]

  /** `all(isGeoPublic:isGeoDM:)`: the commands offered in a context. */
  function All(isGeoPublic: bool, isGeoDM: bool): (r: seq<CommandInfo>)
    ensures |r| == if isGeoPublic || isGeoDM then 7 else 9
    ensures r[..|Mandatory|] == Mandatory
    ensures !(isGeoPublic || isGeoDM) ==> r[|Mandatory|..] == Optional
    ensures forall c :: c in r <==> c in Mandatory || !(isGeoPublic || isGeoDM)
    ensures forall i, j :: 0 <= i < j < |r| ==> r[i] != r[j]
  {
    var includeOptional := !(isGeoPublic || isGeoDM);
    if includeOptional then
      assert forall c :: c in Mandatory + Optional by {
        forall c: CommandInfo ensures c in Mandatory + Optional {
          if c.Favorite? || c.Unfavorite? { assert c in Optional; } else { assert c in Mandatory; }
        }
      }
      Mandatory + Optional
    else
      Mandatory
  }

  /** How an alias is compared: lower-cased, with every `/` removed. For
      a well-formed alias that leaves just the text after its `/`. */
  function MatchKey(alias: string): (r: string)
    ensures WellFormedAlias(alias) ==> r == alias[1..]
  {
    var r := Without(Lower(alias), '/');
    if WellFormedAlias(alias) then
      LowerUnchanged(alias);
      assert alias == ['/'] + alias[1..];
      WithoutAbsent(alias[1..], '/');
      r
    else
      r
  }

  /** The aliases of a command as `fromAlias` compares them: each alias
      without its leading `/`, position by position. */
  function MatchKeys(c: CommandInfo): (r: seq<string>)
    ensures |r| == |Aliases(c)|
    ensures forall i :: 0 <= i < |r| ==> r[i] == Aliases(c)[i][1..]
  {
    var aliases := Aliases(c);
    seq(|aliases|, i requires 0 <= i < |aliases| => MatchKey(aliases[i]))
  }

  /** The test `first` applies: whether `key` is one of a command's
      aliases with the `/` taken off. */
  function HasKey(key: string): (r: CommandInfo -> bool)
    ensures forall c :: r(c) <==> exists i :: 0 <= i < |Aliases(c)| && Aliases(c)[i][1..] == key
  {
    c => key in MatchKeys(c)
  }

  /** The token matched against aliases: the lower-cased, trimmed input
      with one leading `/` dropped. */
  function RawInput(input: string): (r: string)
    ensures var cleaned := Trim(Lower(input));
      cleaned == r || cleaned == ['/'] + r
  {
    var cleaned := Trim(Lower(input));
    if |cleaned| > 0 && cleaned[0] == '/' then cleaned[1..] else cleaned
  }

  /** The lookup `fromAlias` performs on its normalised token: an alias of
      an offered command, else the context-blind raw-value lookup. */
  function Lookup(rawInput: string, isGeoPublic: bool, isGeoDM: bool): (r: Option<CommandInfo>)
    ensures r.Some? ==> (r.value in All(isGeoPublic, isGeoDM) && rawInput in MatchKeys(r.value))
                        || RawValue(r.value) == rawInput
    ensures r.None? <==> (forall c :: c in All(isGeoPublic, isGeoDM) ==> rawInput !in MatchKeys(c))
                         && (forall c :: RawValue(c) != rawInput)
  {
    var active := All(isGeoPublic, isGeoDM);
    var hasKey := HasKey(rawInput);
    assert forall c :: hasKey(c) == (rawInput in MatchKeys(c));
    match First(active, hasKey)
    case Some(c) => Some(c)
    case None => FromRawValue(rawInput)
  }

  /** `fromAlias(_:isGeoPublic:isGeoDM:)`: a resolved command was matched
      by the normalised input, through an offered alias or its name. */
  function FromAlias(input: string, isGeoPublic: bool, isGeoDM: bool): (r: Option<CommandInfo>)
    ensures var key := RawInput(input);
      r.Some? ==> (r.value in All(isGeoPublic, isGeoDM) && key in MatchKeys(r.value))
                  || RawValue(r.value) == key
    ensures var key := RawInput(input);
      r.None? <==> (forall c :: c in All(isGeoPublic, isGeoDM) ==> key !in MatchKeys(c))
                   && (forall c :: RawValue(c) != key)
  {
    Lookup(RawInput(input), isGeoPublic, isGeoDM)
  }

  /** `hasPrefix("/")`: the text's first one-character prefix is `/`. */
  predicate StartsWithSlash(s: string): (r: bool)
    ensures r <==> |s| >= 1 && s[..1] == "/"
  {
    |s| > 0 && s[0] == '/'
  }

  /** The failable initialiser `init?(from:isGeoPublic:isGeoDM:)`: text
      that does not start with `/` once trimmed is never a command. */
  function FromInput(input: string, isGeoPublic: bool, isGeoDM: bool): (r: Option<CommandInfo>)
    ensures !StartsWithSlash(Trim(input)) ==> r.None?
  {
    var trimmed := Trim(input);
    if !StartsWithSlash(trimmed) then None
    else FromAlias(trimmed, isGeoPublic, isGeoDM)
  }
}
