/** The memoising loc-file parser of the localization plugin
    (webpack/localization-plugin/src/utilities/LocFileParser.ts).

    One call either answers from a cache keyed by file path and resx newline
    mode, when the stored content is the same string, or parses the file
    (resx reader for `.resx` paths, JSON parsing plus schema validation for
    everything else) and stores the result under that key. */
module LocFile {
  import opened Wrappers
  import opened NodeCoreLibrary

  /** The parsed localization file (ILocalizationFile); its structure is not modelled. */
  type LocalizationFile

  /** What the resx reader receives besides the content. */
  datatype ResxReaderOptions = ResxReaderOptions(
    resxFilePath: string,
    newlineNormalization: Option<NewlineKind>,
    warnOnMissingComment: bool)

  /** The code parseLocFile calls into, as functions. A `Failure` is an exception
      the callee throws. `validateObject` yields the text of the error it
      throws, or `None` when the object matches the loc-file schema. */
  datatype Collaborators = Collaborators(
    readResxAsLocFile: (string, ResxReaderOptions) -> Result<LocalizationFile, string>,
    parseString: string -> Result<LocalizationFile, string>,
    validateObject: (LocalizationFile, string) -> Option<string>)

  /** The arguments of one call; `None` stands for `undefined`. */
  datatype ParseLocFileOptions = ParseLocFileOptions(
    terminal: Terminal,
    filePath: string,
    content: string,
    resxNewlineNormalization: Option<NewlineKind>,
    ignoreMissingResxComments: Option<bool>)

  datatype CacheEntry = CacheEntry(content: string, parsedFile: LocalizationFile)

  type Cache = map<string, CacheEntry>

  /** The text put before a schema error when it is written to the terminal. */
  const InvalidFilePrefix := "The loc file is invalid. Error: "

  // ---------------------------------------------------------------------------
  // The cache key

  /** The mode as it appears in the key: an undefined mode becomes `none`. */
  function ModeTag(mode: Option<NewlineKind>): (tag: string)
    ensures tag == "none" <==> mode.None?
  {
    match mode
    case None => "none"
    case Some(kind) => kind.Value()
  }

  /** `${filePath}?${resxNewlineNormalization || 'none'}`. No enum value is the
      empty string, so `||` only replaces `undefined`. */
  function CacheKey(filePath: string, mode: Option<NewlineKind>): (key: string)
  {
    filePath + "?" + ModeTag(mode)
  }

  /** Two calls share a cache entry exactly when they name the same path and the
      same newline mode: different modes of one file, and different files, are
      cached independently. */
  lemma {:induction false} CacheKeyInjective(
    path1: string, mode1: Option<NewlineKind>, path2: string, mode2: Option<NewlineKind>)
    ensures CacheKey(path1, mode1) == CacheKey(path2, mode2) <==> path1 == path2 && mode1 == mode2
  {
    var key1, key2 := CacheKey(path1, mode1), CacheKey(path2, mode2);
    if key1 == key2 {
      var tag1, tag2 := ModeTag(mode1), ModeTag(mode2);
      var n := |key1|;
      assert key1[n - 1] == tag1[|tag1| - 1] && key2[n - 1] == tag2[|tag2| - 1];
      assert key1[n - 2] == (if |tag1| == 1 then '?' else tag1[|tag1| - 2]);
      assert key2[n - 2] == (if |tag2| == 1 then '?' else tag2[|tag2| - 2]);
      assert mode1 == mode2;
      assert path1 == key1[..|path1|];
      assert path2 == key2[..|path2|];
    }
  }

  // ---------------------------------------------------------------------------
  // Routing by file name

  /** The regular expression `/\.resx$/i`: the path ends in a dot followed by
      `resx` in any mix of ASCII upper and lower case. Without the `u` flag no
      non-ASCII character folds onto these letters, and `$` only matches at the
      very end of the string. */
  predicate IsResxPath(path: string)
  {
    var n := |path|;
    && n >= 5
    && path[n - 5] == '.'
    && path[n - 4] in "rR"
    && path[n - 3] in "eE"
    && path[n - 2] in "sS"
    && path[n - 1] in "xX"
  }

  function AsciiLower(c: char): char
  {
    if 'A' <= c <= 'Z' then (c as int + 32) as char else c
  }

  /** The string with every ASCII capital replaced by its small letter. */
  function LowerCase(s: string): (lowered: string)
    ensures |lowered| == |s|
    ensures forall i :: 0 <= i < |s| ==> lowered[i] == AsciiLower(s[i])
  {
    if s == [] then [] else [AsciiLower(s[0])] + LowerCase(s[1..])
  }

  /** Reference definition of a case-insensitive suffix test. */
  predicate EndsWithIgnoringCase(s: string, suffix: string)
  {
    |suffix| <= |s| && LowerCase(s[|s| - |suffix|..]) == LowerCase(suffix)
  }

  /** The routing test is exactly "ends with `.resx`, ignoring case". */
  lemma IsResxPathIsCaseInsensitiveSuffix(path: string)
    ensures IsResxPath(path) <==> EndsWithIgnoringCase(path, ".resx")
  {
  }

  /** Any file name whose last five characters spell `.resx` in any case
      (`.RESX`, `.Resx`, ...) is routed to the resx reader. */
  lemma ResxSuffixInAnyCase(stem: string, extension: string)
    requires LowerCase(extension) == ".resx"
    ensures IsResxPath(stem + extension)
  {
    var path := stem + extension;
    assert path[|path| - 5..] == extension;
    IsResxPathIsCaseInsensitiveSuffix(path);
  }

  // ---------------------------------------------------------------------------
  // Parsing on a cache miss

  /** `warnOnMissingComment: !options.ignoreMissingResxComments`. */
  function WarnOnMissingComment(ignoreMissingResxComments: Option<bool>): (warn: bool)
    ensures warn <==> ignoreMissingResxComments != Some(true)
  {
    match ignoreMissingResxComments
    case None => true
    case Some(ignore) => !ignore
  }

  /** What a parse produced, and the error messages it wrote to the terminal. */
  datatype Parsed = Parsed(outcome: Result<LocalizationFile, string>, logged: seq<string>)

  /** The parse done on a cache miss: the resx reader for `.resx` paths;
      otherwise JSON parsing, whose exception propagates, followed by schema
      validation, whose exception is written to the terminal and swallowed. */
  function ParseUncached(
    filePath: string, content: string, mode: Option<NewlineKind>,
    ignoreMissingResxComments: Option<bool>, env: Collaborators): (parsed: Parsed)
    ensures |parsed.logged| <= 1
    ensures parsed.logged != [] ==> !IsResxPath(filePath) && parsed.outcome.Success?
    ensures parsed.logged != [] ==>
      && env.validateObject(parsed.outcome.value, filePath).Some?
      && InvalidFilePrefix <= parsed.logged[0]
  {
    if IsResxPath(filePath) then
      var readerOptions := ResxReaderOptions(filePath, mode, WarnOnMissingComment(ignoreMissingResxComments));
      Parsed(env.readResxAsLocFile(content, readerOptions), [])
    else
      match env.parseString(content)
      case Failure(error) => Parsed(Failure(error), [])
      case Success(parsedFile) =>
        match env.validateObject(parsedFile, filePath)
        case None => Parsed(Success(parsedFile), [])
        case Some(error) => Parsed(Success(parsedFile), [InvalidFilePrefix + error])
  }

  /** A `.resx` path goes to the resx reader whatever its content, with the
      path, the newline mode, and a warning flag that is on unless missing
      comments are explicitly ignored; the resx route writes no schema error. */
  lemma ResxRoute(
    filePath: string, content: string, mode: Option<NewlineKind>,
    ignoreMissingResxComments: Option<bool>, env: Collaborators)
    requires IsResxPath(filePath)
    ensures var parsed := ParseUncached(filePath, content, mode, ignoreMissingResxComments, env);
      && parsed.logged == []
      && parsed.outcome == env.readResxAsLocFile(content,
           ResxReaderOptions(filePath, mode, ignoreMissingResxComments != Some(true)))
  {
  }

  /** Every other path is parsed as JSON. A JSON syntax error propagates and
      nothing is logged; otherwise the parsed object is returned unvalidated,
      with exactly one error message when the schema rejects it and none when it
      accepts it. */
  lemma JsonRoute(
    filePath: string, content: string, mode: Option<NewlineKind>,
    ignoreMissingResxComments: Option<bool>, env: Collaborators)
    requires !IsResxPath(filePath)
    ensures var parsed := ParseUncached(filePath, content, mode, ignoreMissingResxComments, env);
      && (env.parseString(content).Failure? ==>
            parsed == Parsed(Failure(env.parseString(content).error), []))
      && (env.parseString(content).Success? ==>
            var parsedFile := env.parseString(content).value;
            && parsed.outcome == Success(parsedFile)
            && |parsed.logged| == (if env.validateObject(parsedFile, filePath).Some? then 1 else 0)
            && (env.validateObject(parsedFile, filePath).Some? ==>
                  parsed.logged == [InvalidFilePrefix + env.validateObject(parsedFile, filePath).value]))
  {
  }

  // ---------------------------------------------------------------------------
  // One call, as a function of the cache before it

  /** The cache holds an entry under `key` whose stored content is `content`. */
  predicate IsHit(cache: Cache, key: string, content: string)
  {
    key in cache && cache[key].content == content
  }

  /** The result of one call, the cache after it, the error messages it wrote and
      how many times it ran a parser. */
  datatype Outcome = Outcome(
    result: Result<LocalizationFile, string>,
    cache: Cache,
    logged: seq<string>,
    parserCalls: nat)

  /** parseLocFile on a given cache: a hit answers from the cache; a miss
      parses and, unless the parse threw, overwrites the entry for the key. */
  function Run(cache: Cache, options: ParseLocFileOptions, env: Collaborators): (out: Outcome)
    ensures var key := CacheKey(options.filePath, options.resxNewlineNormalization);
      && (out.parserCalls == 0 <==> IsHit(cache, key, options.content))
      && out.parserCalls <= 1
      && cache.Keys <= out.cache.Keys <= cache.Keys + {key}
      && (out.result.Success? ==> key in out.cache && out.cache[key] == CacheEntry(options.content, out.result.value))
      && (out.result.Failure? ==> out.cache == cache && out.logged == [])
  {
    var key := CacheKey(options.filePath, options.resxNewlineNormalization);
    if IsHit(cache, key, options.content) then
      Outcome(Success(cache[key].parsedFile), cache, [], 0)
    else
      var parsed := ParseUncached(options.filePath, options.content,
                                  options.resxNewlineNormalization, options.ignoreMissingResxComments, env);
      match parsed.outcome
      case Failure(error) => Outcome(Failure(error), cache, parsed.logged, 1)
      case Success(parsedFile) =>
        Outcome(Success(parsedFile), cache[key := CacheEntry(options.content, parsedFile)], parsed.logged, 1)
  }

  /** A hit returns the stored parsed file, runs no parser, logs nothing and
      leaves the cache as it was. */
  lemma RunOnHit(cache: Cache, options: ParseLocFileOptions, env: Collaborators)
    requires IsHit(cache, CacheKey(options.filePath, options.resxNewlineNormalization), options.content)
    ensures var key := CacheKey(options.filePath, options.resxNewlineNormalization);
      Run(cache, options, env) == Outcome(Success(cache[key].parsedFile), cache, [], 0)
  {
  }

  /** A miss runs exactly one parser. If the parse succeeds, the key now maps
      to exactly the incoming content and the new result, and every other key
      is as before; if it throws, the exception is the result and the cache is
      unchanged. */
  lemma RunOnMiss(cache: Cache, options: ParseLocFileOptions, env: Collaborators)
    requires !IsHit(cache, CacheKey(options.filePath, options.resxNewlineNormalization), options.content)
    ensures var key := CacheKey(options.filePath, options.resxNewlineNormalization);
      var parsed := ParseUncached(options.filePath, options.content,
                                  options.resxNewlineNormalization, options.ignoreMissingResxComments, env);
      var out := Run(cache, options, env);
      && out.parserCalls == 1
      && out.result == parsed.outcome
      && out.logged == parsed.logged
      && (out.result.Success? ==>
            && out.cache.Keys == cache.Keys + {key}
            && out.cache[key] == CacheEntry(options.content, out.result.value)
            && forall other :: other in cache && other != key ==> out.cache[other] == cache[other])
      && (out.result.Failure? ==> out.cache == cache)
  {
  }

  /** Entries stored under any other path or newline mode are not touched by a call. */
  lemma RunLeavesOtherKeys(
    cache: Cache, options: ParseLocFileOptions, env: Collaborators,
    otherPath: string, otherMode: Option<NewlineKind>)
    requires otherPath != options.filePath || otherMode != options.resxNewlineNormalization
    ensures var other := CacheKey(otherPath, otherMode);
      var after := Run(cache, options, env).cache;
      && (other in after <==> other in cache)
      && (other in cache ==> after[other] == cache[other])
  {
    CacheKeyInjective(otherPath, otherMode, options.filePath, options.resxNewlineNormalization);
  }

  /** Two calls in a row with the same path, newline mode and content: when the
      first returns, the second is a hit that returns the same value, logs
      nothing and leaves the cache alone, so the pair parses at most once. The
      second call may differ in its terminal and in ignoreMissingResxComments,
      which is not part of the key. */
  lemma RepeatedCallHits(
    cache: Cache, first: ParseLocFileOptions, second: ParseLocFileOptions, env: Collaborators)
    requires second.filePath == first.filePath
    requires second.resxNewlineNormalization == first.resxNewlineNormalization
    requires second.content == first.content
    requires Run(cache, first, env).result.Success?
    ensures var out1 := Run(cache, first, env);
      var out2 := Run(out1.cache, second, env);
      && out2 == Outcome(out1.result, out1.cache, [], 0)
      && out1.parserCalls + out2.parserCalls <= 1
  {
  }

  // ---------------------------------------------------------------------------
  // What the cache holds

  /** The entry stored under `key` is what a fresh parse of its content would
      produce for some path and newline mode with that key and some setting
      of the missing-comment flag. */
  ghost predicate EntryIsFreshParse(key: string, entry: CacheEntry, env: Collaborators)
  {
    exists filePath, mode, ignore ::
      && key == CacheKey(filePath, mode)
      && ParseUncached(filePath, entry.content, mode, ignore, env).outcome == Success(entry.parsedFile)
  }

  ghost predicate CacheIsFaithful(cache: Cache, env: Collaborators)
  {
    forall key :: key in cache ==> EntryIsFreshParse(key, cache[key], env)
  }

  /** Every call keeps the cache faithful. */
  lemma RunPreservesFaithfulness(cache: Cache, options: ParseLocFileOptions, env: Collaborators)
    requires CacheIsFaithful(cache, env)
    ensures CacheIsFaithful(Run(cache, options, env).cache, env)
  {
  }

  /** On a faithful cache a hit is never stale: it returns what parsing the
      incoming content for this path and mode would produce under some setting
      of the missing-comment flag, and for a JSON file exactly what parsing it
      now would produce. */
  lemma HitIsFreshParse(cache: Cache, options: ParseLocFileOptions, env: Collaborators)
    requires CacheIsFaithful(cache, env)
    requires IsHit(cache, CacheKey(options.filePath, options.resxNewlineNormalization), options.content)
    ensures exists ignore ::
      ParseUncached(options.filePath, options.content, options.resxNewlineNormalization, ignore, env).outcome
        == Run(cache, options, env).result
    ensures !IsResxPath(options.filePath) ==>
      ParseUncached(options.filePath, options.content, options.resxNewlineNormalization,
                    options.ignoreMissingResxComments, env).outcome
        == Run(cache, options, env).result
  {
    var key := CacheKey(options.filePath, options.resxNewlineNormalization);
    var entry := cache[key];
    assert EntryIsFreshParse(key, entry, env);
    var filePath, mode, ignore :|
      && key == CacheKey(filePath, mode)
      && ParseUncached(filePath, entry.content, mode, ignore, env).outcome == Success(entry.parsedFile);
    CacheKeyInjective(filePath, mode, options.filePath, options.resxNewlineNormalization);
    assert ParseUncached(options.filePath, options.content, options.resxNewlineNormalization, ignore, env).outcome
      == Run(cache, options, env).result;
  }

  // ---------------------------------------------------------------------------
  // The parser with its process-wide cache

  class LocFileParser {
    /** The resx reader, the JSON loader and the schema the file imports. */
    const collaborators: Collaborators
    /** The module-level `parseCache` map. */
    var parseCache: Cache
    /** How many times a parser (resx reader or JSON loader) has run. */
    ghost var parserCalls: nat

    ghost predicate Valid()
      reads this
    {
      CacheIsFaithful(parseCache, collaborators)
    }

    /** Module initialisation: the cache starts empty. */
    constructor (collaborators: Collaborators)
      ensures Valid()
      ensures this.collaborators == collaborators && parseCache == map[] && parserCalls == 0
    {
      this.collaborators := collaborators;
      parseCache := map[];
      parserCalls := 0;
    }

    /** `parseCache.has(key)`, `parseCache.get(key)` and the content comparison:
        the stored parsed file when the entry exists and its content is the
        same string, nothing otherwise. */
    method Lookup(key: string, content: string) returns (hit: Option<LocalizationFile>)
      ensures hit.Some? <==> key in parseCache && parseCache[key].content == content
      ensures hit.Some? ==> hit.value == parseCache[key].parsedFile
    {
      hit := None;
      if key in parseCache {
        var entry := parseCache[key];
        if entry.content == content {
          hit := Some(entry.parsedFile);
        }
      }
    }

    /** `LocFileParser.parseLocFile`: a `Failure` result is an exception thrown
        by the resx reader or the JSON loader. */
    method ParseLocFile(options: ParseLocFileOptions) returns (r: Result<LocalizationFile, string>)
      requires Valid()
      modifies this, options.terminal
      ensures Valid()
      ensures var out := Run(old(parseCache), options, collaborators);
        && r == out.result
        && parseCache == out.cache
        && options.terminal.errorMessages == old(options.terminal.errorMessages) + out.logged
        && parserCalls == old(parserCalls) + out.parserCalls
    {
      RunPreservesFaithfulness(parseCache, options, collaborators);
      var fileCacheKey := CacheKey(options.filePath, options.resxNewlineNormalization);
      var cached := Lookup(fileCacheKey, options.content);
      if cached.Some? {
        return Success(cached.value);
      }

      var parsedFile: LocalizationFile;
      if IsResxPath(options.filePath) {
        var readerOptions := ResxReaderOptions(
          options.filePath, options.resxNewlineNormalization,
          WarnOnMissingComment(options.ignoreMissingResxComments));
        var read := collaborators.readResxAsLocFile(options.content, readerOptions);
        parserCalls := parserCalls + 1;
        if read.Failure? {
          return Failure(read.error);
        }
        parsedFile := read.value;
      } else {
        var json := collaborators.parseString(options.content);
        parserCalls := parserCalls + 1;
        if json.Failure? {
          return Failure(json.error);
        }
        parsedFile := json.value;
        var schemaError := collaborators.validateObject(parsedFile, options.filePath);
        if schemaError.Some? {
          options.terminal.WriteError(InvalidFilePrefix + schemaError.value);
        }
      }

      parseCache := parseCache[fileCacheKey := CacheEntry(options.content, parsedFile)];
      r := Success(parsedFile);
    }
  }
}
