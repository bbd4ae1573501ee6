# bitchat slash commands, modelled in Dafny

This project models the slash-command vocabulary of bitchat's chat input
(`CommandInfo` in `bitchat/Models/CommandInfo.swift`) and proves what it
promises. The vocabulary has four parts:

- the closed set of nine commands (`block`, `clear`, `hug`, `message`,
  `slap`, `unblock`, `who`, `favorite`, `unfavorite`);
- the alias table (`/m` and `/msg` for message, `/w` and `/who` for who,
  `/` plus the command's name for every other command) and the primary
  alias;
- the list of commands offered in a context. Favorite and unfavorite are
  dropped in location channels, that is when `isGeoPublic` or `isGeoDM` is set;
- the resolver that turns typed text into a command. It has a `/` gate,
  case folding and trimming, a first-match search over the offered
  commands' aliases, and a fallback to the raw value that ignores the context.

The source is pure: an enum with switch-computed properties, array
literals and one search. The model therefore uses only datatypes,
functions and lemmas.

Files:

- `wrappers.dfy` (`Wrappers`): `Option`, standing for Swift's optionals.
- `sequences.dfy` (`Sequences`): `First`, Swift's `first(where:)`.
- `text.dfy` (`Text`): lower-casing, the whitespace set, trimming, and
  removing every `/`.
- `commands.dfy` (`Commands`): the enum, its tables and the resolver.
- `properties.dfy` (`CommandProperties`): the lemmas about the table and
  the resolver.
- `examples.dfy` (`CommandExamples`): particular inputs.

The resolver follows the code exactly; in particular:

- The text left after dropping the `/` is not trimmed a second time. So
  `"/ who"` gives the token `" who"`, which matches nothing
  (`SpaceAfterSlashRejected`).
- Exactly one leading `/` is dropped, so `"//who"` matches nothing
  (`DoubleSlashRejected`).
- `fromAlias` lower-cases the input before trimming it. The model keeps
  that order, and `TrimCommutesWithLower` shows the order does not matter.

## Model

| member | source | states |
|---|---|---|
| Commands.RawValue | bitchat/Models/CommandInfo.swift:13-22 | every command's raw value is a word of at least three lower-case ASCII letters |
| Commands.FromRawValue | bitchat/Models/CommandInfo.swift:88 | `CommandInfo(rawValue:)` returns a command exactly when the text is that command's raw value, and nil when it is nobody's raw value |
| CommandProperties.RawValueRoundTrip | bitchat/Models/CommandInfo.swift:88 | looking up any command's raw value gives back that command |
| Commands.Aliases | bitchat/Models/CommandInfo.swift:26-35 | every command has at least one alias; each alias is `/` followed by lower-case letters; every command other than message and who has `"/" + rawValue` as an alias |
| Commands.PrimaryAlias | bitchat/Models/CommandInfo.swift:37-39 | the primary alias is always defined and is one of the command's aliases: `/m` for message, `/w` for who, `"/" + rawValue` otherwise |
| Commands.HasPlaceholder | bitchat/Models/CommandInfo.swift:41-48 | a placeholder is present for every command except clear and who |
| Commands.All | bitchat/Models/CommandInfo.swift:64-74 | the result has 9 commands without a geo flag and 7 with one. The seven mandatory commands always come first, in declaration order, and favorite then unfavorite follow only when no geo flag is set. A command is offered exactly when it is mandatory or no flag is set, and no command is listed twice |
| Text.LowerChar | bitchat/Models/CommandInfo.swift:81 | an upper-case ASCII letter becomes the lower-case letter at the same place in the alphabet; every other character is left as it is. Hence no upper-case letter remains, whitespace stays whitespace, and only `/` maps to `/` |
| Text.Lower | bitchat/Models/CommandInfo.swift:81 | `lowercased()` keeps the length and maps each character in place by `LowerChar`, so no upper-case letter remains and every other character, `/` included, stays where it was |
| Text.TrimStartSpec | bitchat/Models/CommandInfo.swift:92 | removing leading whitespace drops a prefix made only of whitespace and keeps a suffix that is empty or starts with a non-whitespace character |
| Text.TrimEndSpec | bitchat/Models/CommandInfo.swift:92 | removing trailing whitespace drops a suffix made only of whitespace and keeps a prefix that is empty or ends with a non-whitespace character |
| Text.Trim | bitchat/Models/CommandInfo.swift:92 | the trimmed text is a slice of the input with only whitespace on either side of it. It is empty exactly when the input is all whitespace; otherwise it starts and ends with a non-whitespace character |
| Text.IsWhitespace | bitchat/Models/CommandInfo.swift:92 | a member of `.whitespacesAndNewlines` is never a letter and never `/`, so trimming cannot eat into a command word or its prefix |
| Text.TrimIgnoresPadding | bitchat/Models/CommandInfo.swift:92 | adding whitespace on either side never changes the trimmed text |
| Text.TrimCommutesWithLower | bitchat/Models/CommandInfo.swift:81 | lower-casing and trimming can be done in either order |
| Text.TrimUnchanged | bitchat/Models/CommandInfo.swift:92 | text that starts and ends with a non-whitespace character is not changed by trimming |
| Text.Without | bitchat/Models/CommandInfo.swift:86 | `replacingOccurrences(of: "/", with: "")` keeps every other character and only those, and never lengthens the text |
| Text.WithoutAppend | bitchat/Models/CommandInfo.swift:86 | the removal works piece by piece: removing from `s + t` is removing from `s` followed by removing from `t`, so the kept characters stay in order and keep their count |
| Text.WithoutAbsent | bitchat/Models/CommandInfo.swift:86 | text without `/` is not changed by the replacement |
| Sequences.First | bitchat/Models/CommandInfo.swift:84-87 | `first(where:)` returns an element that satisfies the test, and no element before it satisfies the test; it returns nil exactly when no element does |
| Commands.RawInput | bitchat/Models/CommandInfo.swift:81-82 | the token is the lower-cased, trimmed input, with or without one leading `/` removed |
| Commands.Lookup | bitchat/Models/CommandInfo.swift:84-88 | a found command is an offered command with the token among its match keys, or the command whose raw value is the token; nil exactly when neither exists |
| Commands.FromAlias | bitchat/Models/CommandInfo.swift:80-89 | the same two facts, stated about the normalised input of `fromAlias` |
| Commands.FromInput | bitchat/Models/CommandInfo.swift:91-100 | text that does not start with `/` after trimming is never a command |
| Commands.MatchKey | bitchat/Models/CommandInfo.swift:86 | lower-casing an alias and removing every `/` from it leaves exactly the text after its leading `/` |
| Commands.MatchKeys | bitchat/Models/CommandInfo.swift:85-87 | the mapped alias list has one key per alias: each alias without its leading `/`, in the same order |
| Commands.HasKey | bitchat/Models/CommandInfo.swift:84-87 | the test given to `first(where:)` holds for a command exactly when the token is one of its aliases with the `/` taken off |
| Commands.StartsWithSlash | bitchat/Models/CommandInfo.swift:93 | `hasPrefix("/")` holds exactly when the text's one-character prefix is `/` |
| CommandProperties.MatchKeysTable | bitchat/Models/CommandInfo.swift:26-35 | the match keys are `m` and `msg` for message, `w` and `who` for who, and the raw value for every other command |
| CommandProperties.KeyDeterminesCommand | bitchat/Models/CommandInfo.swift:26-35 | every key in the alias table names the command it belongs to |
| CommandProperties.MatchKeysDisjoint | bitchat/Models/CommandInfo.swift:26-35 | no two commands share a match key |
| CommandProperties.NoEmptyMatchKey | bitchat/Models/CommandInfo.swift:26-35 | no match key is empty |
| CommandProperties.MatchKeysAreLetters | bitchat/Models/CommandInfo.swift:26-35 | every match key is a non-empty run of lower-case letters |
| CommandProperties.FirstMatchUnambiguous | bitchat/Models/CommandInfo.swift:84-87 | when a command in the searched list has the key, the first-match search returns that command, whatever the order of the list |
| CommandProperties.RawValueInjective | bitchat/Models/CommandInfo.swift:13-22 | different commands have different raw values |
| Text.TrimIdempotent | bitchat/Models/CommandInfo.swift:92 | trimming twice is the same as trimming once |
| CommandProperties.RawInputOfCleaned | bitchat/Models/CommandInfo.swift:81-82 | the token depends only on the lower-cased, trimmed text |
| CommandProperties.RawInputOfTrimmed | bitchat/Models/CommandInfo.swift:92-96 | the extra trim in `init?(from:)` does not change the token `fromAlias` computes |
| CommandProperties.AliasNormalised | bitchat/Models/CommandInfo.swift:26-35 | aliases are already trimmed and lower-case |
| CommandProperties.RawInputOfSlashed | bitchat/Models/CommandInfo.swift:82 | when the cleaned text starts with `/`, the token is that text without its first character |
| CommandProperties.RawInputOfNormalised | bitchat/Models/CommandInfo.swift:81-82 | trimmed, lower-case text that starts with `/` loses only that `/` |
| CommandProperties.RawInputOfAlias | bitchat/Models/CommandInfo.swift:81-82 | an alias gives the token that follows its `/` |
| CommandProperties.AliasRoundTrip | bitchat/Models/CommandInfo.swift:80-99 | every alias of every command resolves to that command, with any pair of flags |
| CommandProperties.KeyRoundTrip | bitchat/Models/CommandInfo.swift:84-88 | every match key of a command looks up that command, with any pair of flags: through the alias search when the command is offered, and through the raw-value fallback when it is not |
| CommandProperties.PrimaryAliasRoundTrip | bitchat/Models/CommandInfo.swift:37-39 | the primary alias resolves back to its command, with any pair of flags |
| CommandProperties.KeyOwnerOfRawValue | bitchat/Models/CommandInfo.swift:13-35 | the command that owns a raw value in the key table is the command with that raw value; for message, whose raw value is not an alias key, it is the raw-value lookup that gives it |
| CommandProperties.RawValueLookup | bitchat/Models/CommandInfo.swift:84-88 | a command's raw value looks up that command in every context. Only the command itself can match it as an alias key; otherwise the raw-value fallback finds it |
| CommandProperties.NameRoundTrip | bitchat/Models/CommandInfo.swift:80-100 | `/` followed by any command's raw value resolves to that command with every pair of flags. This includes `/message`, which is not an alias |
| CommandProperties.HiddenCommandsStillResolve | bitchat/Models/CommandInfo.swift:64-88 | favorite and unfavorite are offered exactly when no geo flag is set, yet `/favorite` and `/unfavorite` resolve with every pair of flags |
| CommandProperties.ResolveSound | bitchat/Models/CommandInfo.swift:82-96 | a resolved input starts with `/` after trimming. Its token is a match key of the resolved command, which is offered, or the token is that command's raw value |
| CommandProperties.ResolveComplete | bitchat/Models/CommandInfo.swift:84-96 | input that starts with `/` after trimming resolves to command c whenever its token is a key of c and c is offered, or the token is c's raw value. The second case applies in any context |
| CommandProperties.ResolveIgnoresCase | bitchat/Models/CommandInfo.swift:81 | lower-casing the input never changes its resolution |
| CommandProperties.ResolveIgnoresPadding | bitchat/Models/CommandInfo.swift:92 | whitespace around the input never changes its resolution |
| CommandProperties.BlankOrUnprefixedRejected | bitchat/Models/CommandInfo.swift:93-95 | empty input, all-whitespace input and input whose trimmed text does not start with `/` resolve to nil |
| CommandProperties.NonLetterTokenMatchesNothing | bitchat/Models/CommandInfo.swift:84-88 | a token containing anything other than a lower-case letter, such as a space or a second `/`, matches no alias and no raw value |
| CommandProperties.EmptyTokenMatchesNothing | bitchat/Models/CommandInfo.swift:84-88 | the empty token matches nothing |
| CommandProperties.LoneSlashRejected | bitchat/Models/CommandInfo.swift:82-88 | `/` on its own resolves to nil |
| CommandExamples.FullNameResolves | bitchat/Models/CommandInfo.swift:88 | `/message` resolves to message through the raw-value fallback |
| CommandExamples.MessageAliases | bitchat/Models/CommandInfo.swift:28-29 | `/m` and `/msg` resolve to message |
| CommandExamples.WhoAliases | bitchat/Models/CommandInfo.swift:30-31 | `/w` and `/who` resolve to who |
| CommandExamples.UpperCaseResolves | bitchat/Models/CommandInfo.swift:81 | `/WHO` resolves to who |
| CommandExamples.PaddedResolves | bitchat/Models/CommandInfo.swift:92 | `"  /who\n"` resolves to who |
| CommandExamples.NotCommands | bitchat/Models/CommandInfo.swift:93-95 | `""`, `"   "` and `"hello"` resolve to nil |
| CommandExamples.SpaceAfterSlashRejected | bitchat/Models/CommandInfo.swift:82 | `"/ who"` resolves to nil, because the text after the `/` is not trimmed again |
| CommandExamples.DoubleSlashRejected | bitchat/Models/CommandInfo.swift:82 | `"//who"` resolves to nil, because only one `/` is dropped |
| CommandExamples.FavoriteInLocationChannel | bitchat/Models/CommandInfo.swift:64-88 | in a public location channel favorite is not offered, yet `/favorite` resolves to favorite |

## Left out

- `description` and the placeholder's text: both are `String(localized:)` lookups in the app's localization bundle. The placeholder is modelled only as present or absent (`HasPlaceholder`).
- `id` (the `Identifiable` conformance): it only returns the raw value.
- Text.LowerChar: lower-cases ASCII `A`-`Z` only. The standard library's `String.lowercased()` applies full Unicode case mapping. For example, it maps the Kelvin sign U+212A to `k`, and it can lengthen a string (`İ`). Text outside ASCII can therefore resolve in the app where it does not in the model.
- Grapheme clusters: Swift's `hasPrefix("/")` and `dropFirst()` work on extended grapheme clusters. The model works on Unicode scalars. The two differ only when a scalar that extends a cluster directly follows the `/`, such as a combining mark, ZERO WIDTH JOINER U+200D or a variation selector. `init?(from:)` returns nil then in both: the app fails the `/` check, and the model's token begins with a character that is not a letter (`NonLetterTokenMatchesNothing`).
- Text.IsWhitespace: lists the scalars of `CharacterSet.whitespacesAndNewlines`, written out by hand. The list follows CoreFoundation's built-in whitespace test: the Unicode separator categories, tab, U+000A to U+000D, U+0085, and ZERO WIDTH SPACE U+200B, which is in CoreFoundation's range U+2000 to U+200B but is not Unicode White_Space. Any further difference in the Foundation set itself is not captured.
- Splitting an argument off the command token (`/block alice`): callers do that before resolution. It is not part of this model.
