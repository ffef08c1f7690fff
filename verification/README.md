# Translate command of the synus chat bot, modelled in Dafny

The bot's `translate` command takes a source language code (default `auto`),
a target language code (default `en`), an optional query and an optional
`-m` lookback index. It validates the codes against the language registry,
picks the text to translate (the query, or the message `index` places back
in the channel), asks a translation provider, and sends back one reply: the
translation tagged `[ requested >> target ]`, with a warning and a
suggestion line when the detected source language is not the requested one.

The model is a set of pure functions over strings, an integer and a
`map<string, string>` registry:

- `wrappers.dfy` (`Wrappers`): `Option` (with `None` for JavaScript's `undefined`) and `Result`.
- `ascii_case.dfy` (`AsciiCase`): lower- and upper-casing of codes, and case-insensitive equality.
- `whitespace.dfy` (`Whitespace`): `String.prototype.trim` over the ECMAScript white space and line terminators.
- `language_registry.dfy` (`LanguageRegistry`): the registry, its truthiness test `Known` and the lookup `NameOf`.
- `interpreter.dfy` (`Interpreter`): argument interpretation, the error kinds and resolved requests.
- `formatter.dfy` (`Formatter`): display names, the mismatch flag and the reply text.
- `translate_command.dfy` (`TranslateCommand`): the blank-content guard, the provider call, the error replies and the whole invocation.

The channel history (`messageFromChannel`) and the provider
(`@vitalets/google-translate-api`) are function parameters returning `Option`.
`None` stands for a thrown error, which the command's `catch` turns into the
"Yikes" reply. `TextFormatter.monospace` is also a parameter, because its
definition is not part of this model.

With source `auto` the code never warns, because the requested name is then
the detected name (`Formatter.AutoNeverWarns`). After blank content,
`translateMessage` sends the "Sorry" message and returns `undefined`. The
`if (translation)` at line 88 then sends nothing more, so the model returns
`EmptyContent`, whose reply is that message.

## Model

| member | source | states |
|---|---|---|
| AsciiCase.Lower | src/commands/general/translate.ts:55-56 | lower-casing keeps the length, maps each character independently, and leaves no upper-case ASCII letter |
| AsciiCase.Upper | src/commands/general/translate.ts:61-68 | upper-casing keeps the length, maps each character independently, and leaves no lower-case ASCII letter |
| AsciiCase.LowerIdempotent | src/commands/general/translate.ts:55-56 | normalising an already lower-cased code changes nothing |
| AsciiCase.UpperOfLower | src/commands/general/translate.ts:55-61 | upper-casing the lower-cased code gives the typed code upper-cased, so error messages show the user's code regardless of normalisation |
| AsciiCase.LowerOfUpper | src/commands/general/translate.ts:55-56 | lower-casing forgets any earlier upper-casing |
| AsciiCase.LowerEqualIff | src/commands/general/translate.ts:55-56 | two codes normalise to the same code exactly when they are equal ignoring case, in both directions |
| Whitespace.TrimStart | src/commands/general/translate.ts:158 | the result is a suffix of the input, everything dropped is white space, and the result does not start with white space |
| Whitespace.TrimEnd | src/commands/general/translate.ts:158 | the result is a prefix of the input, everything dropped is white space, and the result does not end with white space |
| Whitespace.Trim | src/commands/general/translate.ts:158 | the trimmed string is a contiguous piece of the input, everything before and after it is white space, and neither of its ends is white space |
| Whitespace.BlankIffAllWhitespace | src/commands/general/translate.ts:158 | content trims to the empty string exactly when every character is white space or a line terminator |
| LanguageRegistry.NameOf | src/commands/general/translate.ts:91-94 | a lookup yields a name exactly for registry keys, and `undefined` otherwise |
| Interpreter.Interpret | src/commands/general/translate.ts:55-86 | checks run in `exec`'s order. An unaccepted source (neither `auto` nor known) gives InvalidSource with the typed code upper-cased, whatever the target. Then an unknown target gives InvalidTarget. Then a negative index without a query gives BadMessageTarget. Success holds exactly when none of these apply. Every success is a valid request with lower-cased codes. A non-empty query is used verbatim whatever the index. Without a query, lookback 0 becomes 1 and any other index is kept |
| Interpreter.InterpretUnparse | src/commands/general/translate.ts:55-86 | every valid request with lower-case codes is reached from the arguments that spell it out, so the interpreter accepts all that its checks allow |
| Interpreter.UnparseInterpret | src/commands/general/translate.ts:55-86 | re-interpreting the spelled-out result of an interpretation reproduces it |
| Interpreter.InterpretIgnoresCase | src/commands/general/translate.ts:55-71 | arguments whose codes differ only in letter case get identical results, errors included |
| Interpreter.AutoTargetRefused | src/commands/general/translate.ts:67-71 | `auto` as a target is refused as InvalidTarget("AUTO") unless the registry lists it |
| Formatter.ResolveNames | src/commands/general/translate.ts:89-94 | the detected and target names are the registry entries of the ISO code and of `to`. The requested name is the detected one for `auto`, and the entry of `from` otherwise |
| Formatter.Format | src/commands/general/translate.ts:96-110 | on a mismatch the reply is the warning prefix, then the tag-and-text body, then the suggestion line with the detected name and upper-cased ISO code, and nothing else. Without a mismatch the reply is exactly the body |
| Formatter.AutoNeverWarns | src/commands/general/translate.ts:89-106 | with source `auto` the flag is never set, and the reply is the tag built from the detected and target names, then the text |
| Formatter.ExplicitSourceWarnsIff | src/commands/general/translate.ts:89-96 | with an explicit source, the flag is set exactly when the source's registry entry differs from the detected code's entry |
| Formatter.ExtrasIffMismatch | src/commands/general/translate.ts:98-110 | the reply differs from the bare tag-and-text body exactly when the flag is set, so prefix and suggestion come together or not at all |
| Formatter.WarningNamesDetected | src/commands/general/translate.ts:108-110 | when an explicit source mismatches, the reply ends with the suggestion naming the detected language and the upper-cased ISO code |
| Formatter.ExampleNoWarning | src/commands/general/translate.ts:98-106 | French requested and detected, to English, "Hello": the reply is exactly the backticked tag `[ French >> English ]`, four spaces, then "Hello" |
| Formatter.ExampleWarning | src/commands/general/translate.ts:98-110 | Spanish requested, Italian detected: the reply opens with the warning, carries the Spanish-to-English tag and the text, and closes with the suggestion of Italian (IT) |
| TranslateCommand.GuardContent | src/commands/general/translate.ts:156-162 | fetched content is refused with EmptyContent exactly when it is all white space; otherwise it passes through unchanged and is non-empty |
| TranslateCommand.PrepareCall | src/commands/general/translate.ts:83-168 | interpreter errors pass through unchanged. A query goes to the provider as typed, untrimmed. Otherwise the message at the effective index is fetched: a fetch failure gives TranslationFailed, blank content gives EmptyContent, and other content is sent as is. Every call's text is non-empty, and its codes are the interpreted ones |
| TranslateCommand.Run | src/commands/general/translate.ts:55-168 | the message sent, in terms of the typed arguments. An unaccepted source gives "<FROM> is not a valid language code." with the typed code upper-cased. Otherwise an unknown target gives "<TO> is not a valid ISO language code.". Otherwise, without a query, a negative index gives "Sorry". Without a query, the message at index 1 (for 0) or at the given index is fetched: a fetch throw gives "Yikes" and blank content gives "Sorry". Other content, or a query as typed, is sent to the provider with the lower-cased codes, and the reply is "Yikes" if the provider throws and the formatted translation otherwise |
| TranslateCommand.BothCodesInvalid | src/commands/general/translate.ts:59-71 | when both codes are invalid, the reply names the source code, upper-cased as typed |
| TranslateCommand.BlankContentNeverTranslated | src/commands/general/translate.ts:156-167 | blank fetched content yields the "Sorry" reply whatever the provider would have answered |
| TranslateCommand.ProviderOnlyAfterChecks | src/commands/general/translate.ts:59-86 | when preparation fails, the provider's behaviour cannot affect the reply |
| TranslateCommand.QueryIgnoresIndexAndChannel | src/commands/general/translate.ts:84-86 | with a query, the provider call does not depend on the lookback index or on the channel's contents |
| TranslateCommand.CodeRepliesDistinct | src/commands/general/translate.ts:61-68 | the invalid-source and invalid-target replies differ for every pair of codes |

## Left out

- The Discord client and the `Logger` calls are left out. Sending a message is modelled as the reply string `Run` returns, and the log lines are dropped.
- Command metadata and akairo argument parsing (phrase, rest and option matching, defaults, flags) are left out. The `Number(...)` coercion of the index is left out too. Arguments arrive already parsed, and an empty query stands for an absent one.
- The translation provider and message fetching are function parameters. Their behaviour, and any use of the query text in the provider, are not modelled.
- `AsciiCase.Lower`: models `toLocaleLowerCase` as ASCII-only case mapping. Non-ASCII letters and locale rules (such as Turkish dotted I) are not folded.
- `AsciiCase.Upper`: models `toUpperCase` as ASCII-only case mapping, for the same reason.
- `LanguageRegistry.NameOf`: a lookup on the JavaScript object `languageNames` would also see inherited properties such as `constructor`. The registry's contents are not part of this model, so lookups see only the map's own keys.
- `TextFormatter.monospace` is not part of this model. The reply is stated for an arbitrary `monospace` function, and the examples use backticks.
- `src/events/guild-create.ts` is left out: it only writes a log line when the bot joins a guild.
- `commands/general/echo.js` is left out: it only sends its arguments joined by spaces.
- The async ordering of the two awaits is left out. It is a single sequential flow with no concurrency to model.
