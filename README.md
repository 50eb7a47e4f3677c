# Loc-file parser cache of the webpack localization plugin

This project models `LocFileParser.parseLocFile` from the localization plugin
(`webpack/localization-plugin/src/utilities/LocFileParser.ts`) in Dafny and proves
properties of the model.

The function memoises its parses in a module-level map. The key is the file path
followed by `?` and the resx newline-normalisation mode; an undefined mode is
written as `none`. A call returns the stored result when the entry under its key
holds the very same content string. Otherwise it parses the file:

- a path ending in `.resx`, in any letter case, goes to the resx reader;
- every other path goes through JSON parsing and then schema validation. A schema
  failure is written to the terminal's error channel and otherwise ignored.

It then overwrites the entry for the key with the new content and result.

Files:

- `Wrappers.dfy`: `Option` (for `undefined`) and `Result` (a `Failure` is an
  exception that propagates to the caller).
- `NodeCoreLibrary.dfy`: the `NewlineKind` enum with its string values, and a
  `Terminal` class whose error channel is the list of messages written to it.
- `LocFileParser.dfy`, module `LocFile`:
  - the class `LocFileParser`, whose `parseCache` field is the module-level map;
  - the pure specification `Run` of one call, built on `CacheKey`, `IsResxPath`
    and `ParseUncached`;
  - the lemmas about `Run`.

The resx reader, `JsonFile.parseString` and the schema's `validateObject` are
outside this file. They are modelled as arbitrary functions held in a
`Collaborators` value, which the class receives once, at construction. Every lemma
holds for every choice of them. A ghost counter `parserCalls` records how often a
parser ran.

`LocFileParser.Valid()` is the class invariant. It says that every cache entry is
what a fresh parse of its stored content produces, for a path and mode with that
key and for some setting of `ignoreMissingResxComments`. Every call preserves it.
With the injectivity of the key, it gives `HitIsFreshParse`: a hit is never stale,
provided no caller changes the parsed object it was handed. The source returns the
very object it cached, so such a change would show up in every later hit; the
model treats a parsed file as an immutable value.

## Model

| member | source | states |
|---|---|---|
| `LocFile.ModeTag` | webpack/localization-plugin/src/utilities/LocFileParser.ts:33 | The mode part of the key is `none` exactly when the mode is undefined; no newline kind's string reads as `none`. |
| `LocFile.CacheKey` | webpack/localization-plugin/src/utilities/LocFileParser.ts:33 | The key is the file path, then `?`, then the mode's string value, or `none` when the mode is undefined. |
| `LocFile.CacheKeyInjective` | webpack/localization-plugin/src/utilities/LocFileParser.ts:33 | Two calls get the same cache key exactly when they have the same path and the same newline mode. So the modes of one file, and different files, never share an entry. |
| `LocFile.IsResxPath` | webpack/localization-plugin/src/utilities/LocFileParser.ts:42 | The routing test `/\.resx$/i`: the last five characters are a dot and the letters r, e, s, x, each in either case. Its meaning is proved in the next row. |
| `LocFile.IsResxPathIsCaseInsensitiveSuffix` | webpack/localization-plugin/src/utilities/LocFileParser.ts:42 | The routing test `/\.resx$/i` holds exactly when the path ends in `.resx`, comparing ASCII letters without regard to case. |
| `LocFile.ResxSuffixInAnyCase` | webpack/localization-plugin/src/utilities/LocFileParser.ts:42 | Any path whose last five characters are `.resx` in some letter case (`.RESX`, `.Resx`, ...) is routed to the resx reader. |
| `LocFile.WarnOnMissingComment` | webpack/localization-plugin/src/utilities/LocFileParser.ts:47 | `!ignoreMissingResxComments` is true exactly when the flag is not `true`, so also when it is `undefined`. |
| `LocFile.ParseUncached` | webpack/localization-plugin/src/utilities/LocFileParser.ts:41-56 | The parse done on a miss logs at most one message. A logged message only ever comes from a successful JSON parse of a non-resx path whose object the schema rejected, and it starts with the fixed prefix. |
| `LocFile.ResxRoute` | webpack/localization-plugin/src/utilities/LocFileParser.ts:42-48 | On a `.resx` path, the result is the resx reader's, whatever the content. The reader receives the content, the path, the newline mode and the negated ignore flag. No schema error is logged. |
| `LocFile.JsonRoute` | webpack/localization-plugin/src/utilities/LocFileParser.ts:49-56 | On any other path, a JSON parse error propagates and nothing is logged. Otherwise the parsed object is returned unvalidated. Exactly one error message, the prefix followed by the validator's error, is logged when validation fails, and none when it passes. |
| `LocFile.Run` | webpack/localization-plugin/src/utilities/LocFileParser.ts:32-60 | One call runs no parser exactly on a hit and at most one otherwise. It never removes a cache entry and adds none but its own key. After a successful return, the key holds the incoming content and the returned file. After a throw, the cache is unchanged and nothing was logged. |
| `LocFile.RunOnHit` | webpack/localization-plugin/src/utilities/LocFileParser.ts:33-39 | When the entry for the key holds the same content, the stored parsed file is returned. No parser runs, nothing is logged and the cache is unchanged. |
| `LocFile.RunOnMiss` | webpack/localization-plugin/src/utilities/LocFileParser.ts:41-59 | Otherwise exactly one parser runs. On success the key maps to exactly (incoming content, result), replacing any earlier entry; the key set grows by at most that key, and every other entry is unchanged. If the parse throws, the exception is the result and the cache is unchanged. |
| `LocFile.RunLeavesOtherKeys` | webpack/localization-plugin/src/utilities/LocFileParser.ts:33-58 | A call never adds, removes or changes the entry of any other (path, mode) pair, including the same path under another newline mode. |
| `LocFile.RepeatedCallHits` | webpack/localization-plugin/src/utilities/LocFileParser.ts:33-59 | After a call that returns, a second call with the same path, mode and content hits. It returns the same value, logs nothing and leaves the cache alone, so the two calls parse at most once. This holds whatever the second call's `ignoreMissingResxComments` and terminal are. |
| `LocFile.RunPreservesFaithfulness` | webpack/localization-plugin/src/utilities/LocFileParser.ts:41-58 | Every call keeps this invariant: each cache entry is a fresh parse of its stored content, for a path and mode that map to its key. |
| `LocFile.HitIsFreshParse` | webpack/localization-plugin/src/utilities/LocFileParser.ts:33-58 | On a faithful cache, a hit returns what parsing the incoming content for this path and mode would produce under some setting of the missing-comment flag. For a JSON file it is exactly what parsing now would produce. |
| `LocFile.LocFileParser.Lookup` | webpack/localization-plugin/src/utilities/LocFileParser.ts:34-38 | The result is the stored parsed file exactly when an entry exists under the key and its content is string-equal to the incoming content. Otherwise there is no result. |
| `LocFile.LocFileParser.ParseLocFile` | webpack/localization-plugin/src/utilities/LocFileParser.ts:32-60 | The result, the new cache, the messages added to the terminal and the parser count are those of `Run` on the old cache. The class invariant is kept. |
| `LocFile.LocFileParser.constructor` | webpack/localization-plugin/src/utilities/LocFileParser.ts:26 | The cache starts empty, which satisfies the invariant. |
| `NodeCoreLibrary.Terminal.WriteError` | webpack/localization-plugin/src/utilities/LocFileParser.ts:54 | Writing an error appends exactly that message to the terminal's error channel. |

## Left out

- `ResxReader.readResxAsLocFile` is not part of this model. It is an arbitrary function of the content and its options (path, newline mode, warning flag). The warnings and errors it writes to the terminal are not modelled.
- `JsonFile.parseString` and the loc-file schema's `validateObject` are library code. They are modelled as an arbitrary partial parser and an arbitrary check that yields the text of the error it throws.
- The parsed file's structure (`ILocalizationFile`) is an opaque type.
- HitIsFreshParse: treats the parsed file as an immutable value. The source caches and returns the same mutable object, so a caller that changes it would see the change in every later hit; the lemma holds only when no caller does.
- The exact rendering of the schema error is not modelled. The logged message is the fixed prefix followed by the error's text as a string; how JavaScript stringifies the thrown value is not captured.
- The string values of `NewlineKind` (`"\r\n"`, `"\n"`, `"os"`) come from the node-core-library enum, which is not part of this model. Key injectivity relies on them, and on `none`, being told apart by the key's last two characters.
- Regular-expression semantics in general are not modelled, only the one suffix test. Paths are sequences of Dafny characters, not UTF-16 code units.
- Output on the terminal's other channels and the terminal's own formatting are not modelled.
- The cache is a field of one parser object rather than a module-level global. Execution is single-threaded and synchronous, so nothing else touches it during a call.
