/**
 * Loading BlueGreen's configuration from disk: the JSON file loader and its
 * error helper, and the two configuration loaders built on it (the
 * `bluegreen` section of `package.json`, and `bluegreen.json`).
 *
 * The file system is an input: what `fs.stat` and `fs.readFile` report for
 * the path is given as a `FileState`.
 */
module Config {
  import opened Wrappers
  import opened Model
  import Json
  import JsonText
  import JsonRoundTrip

  /** What the file system reports for one path. */
  datatype FileState =
    | StatError(code: string)       // `fs.stat` fails with this error code
    | NotAFile                      // it exists, but is not a regular file
    | ReadError(code: string)       // a regular file that `fs.readFile` fails on
    | Contents(text: string)        // a regular file and its text

  /** `fs.stat` says the path does not exist. */
  predicate IsMissing(f: FileState) {
    f.StatError? && f.code == "ENOENT"
  }

  /** The second argument of a loader's callback: `false`, `undefined`, or a parsed value. */
  datatype LoadData = NoFile | Undefined | Data(value: Json.Value)

  /** JavaScript truthiness of a loader's result. */
  predicate LoadTruthy(d: LoadData) {
    d.Data? && Json.Truthy(d.value)
  }

  /** One call of the logger: its labels, and the message and error it is given. */
  datatype LogEntry = LogEntry(labels: seq<string>, message: string, error: Err)

  /** The error `JSON.parse` throws (its wording is left to the engine). */
  const JsonSyntaxError := ErrorObj("SyntaxError: Unexpected token in JSON")

  /**
   * `logErrorAndNotfiy`: the error handed on is the given one, or a new
   * `Error(message)` when none is given; it is logged under `error` once.
   */
  function Notify(err: Option<Err>, message: string): (r: (Err, LogEntry))
    ensures ErrTruthy(err) ==> r.0 == err.value
    ensures !ErrTruthy(err) ==> r.0 == ErrorObj(message)
    ensures ErrTruthy(Some(r.0))
    ensures r.1 == LogEntry(["error"], message, r.0)
  {
    var e := if ErrTruthy(err) then err.value else ErrorObj(message);
    (e, LogEntry(["error"], message, e))
  }

  /** How `tryParseJSON` calls back: with the exception, or with `(null, value)`. */
  datatype ParseOutcome = ParseFailed(error: Err) | ParsedValue(value: Json.Value)

  function TryParseJson(text: string): (r: ParseOutcome)
    ensures r.ParsedValue? <==> JsonText.Parse(text).Some?
    ensures r.ParsedValue? ==> JsonText.Parse(text) == Some(r.value)
  {
    match JsonText.Parse(text)
    case Some(v) => ParsedValue(v)
    case None => ParseFailed(JsonSyntaxError)
  }

  /** Text written by `JSON.stringify` from an object of string or null values parses back to it. */
  lemma TryParseStringified(ms: seq<Json.Member>)
    requires JsonRoundTrip.FlatObject(ms)
    ensures TryParseJson(JsonText.Stringify(Json.JObj(ms))) == ParsedValue(Json.JObj(ms))
  {
    JsonRoundTrip.FlatObject_RoundTrip(ms);
  }

  /** What a loader's callback receives, and what was logged on the way. */
  datatype Loaded = Loaded(err: Option<Err>, data: LoadData, logged: seq<LogEntry>)

  /** `loadJsonFile(filePath, log, callback)`. */
  function LoadJsonFile(f: FileState): (r: Loaded)
    // a missing file is no error: the result is `false`
    ensures IsMissing(f) ==> r == Loaded(None, NoFile, [])
    // any other outcome that is not a parsed file is an error, with no data
    ensures ErrTruthy(r.err) <==> !IsMissing(f) && !(f.Contents? && JsonText.Parse(f.text).Some?)
    ensures ErrTruthy(r.err) ==> r.data == Undefined && |r.logged| == 1
    ensures f.StatError? && !IsMissing(f) ==> r.err == Some(SystemErr(f.code))
    ensures f.NotAFile? ==> r.err == Some(ErrorObj("bluegreen.json exists but is not a file."))
    ensures f.ReadError? ==> r.err == Some(SystemErr(f.code))
    // a parsed file gives its value
    ensures r.data.Data? <==> f.Contents? && JsonText.Parse(f.text).Some?
    ensures r.data.Data? ==> r.err == None && JsonText.Parse(f.text) == Some(r.data.value) && r.logged == []
  {
    match f
    case StatError(code) =>
      if code == "ENOENT" then Loaded(None, NoFile, [])
      else
        var (e, entry) := Notify(Some(SystemErr(code)), "Could not stat bluegreen.json file.");
        Loaded(Some(e), Undefined, [entry])
    case NotAFile =>
      var (e, entry) := Notify(None, "bluegreen.json exists but is not a file.");
      Loaded(Some(e), Undefined, [entry])
    case ReadError(code) =>
      var (e, entry) := Notify(Some(SystemErr(code)), "Could not read bluegreen.json file.");
      Loaded(Some(e), Undefined, [entry])
    case Contents(text) =>
      match TryParseJson(text)
      case ParsedValue(v) => Loaded(None, Data(v), [])
      case ParseFailed(pe) =>
        var (e, entry) := Notify(Some(pe), ParseMessage);
        Loaded(Some(e), Undefined, [entry])
  }

  /**
   * How a configuration loader ends: it calls back once, it calls back and
   * then throws, or it throws without calling back.
   */
  datatype LoaderReply =
    | Delivered(err: Option<Err>, data: LoadData)
    | DeliveredThenCrashed(first: Err, reason: string)
    | Crashed(reason: string)

  /** The `bluegreen` section of a loaded `package.json`, or `false` when it has none. */
  function NpmSection(d: LoadData): (r: LoaderReply)
    requires d != Undefined
    ensures d == Data(Json.JNull) <==> r.Crashed?
    ensures r.Delivered? ==> r.err == None
    ensures r.Delivered? && r.data.Data? <==> d.Data? && d.value.JObj? && Json.HasKey(d.value.members, "bluegreen")
    ensures r.Delivered? && r.data.Data? ==> Some(r.data.value) == Json.Get(d.value.members, "bluegreen")
  {
    if d.NoFile? then Delivered(None, NoFile)                // `false` has no own `bluegreen`
    else if d.value.JNull? then Crashed(NullManifest)
    else if d.value.JObj? && Json.HasKey(d.value.members, "bluegreen") then
      Delivered(None, Data(Json.Get(d.value.members, "bluegreen").value))
    else Delivered(None, NoFile)
  }

  const ParseMessage := "Could not parse bluegreen.json file (not valid JSON).  Check your syntax."
  const NpmLoadMessage := "Error encountered loading package.json from the filesystem"
  const NullManifest := "TypeError: Cannot read property 'hasOwnProperty' of null"
  const UndefinedManifest := "TypeError: Cannot read property 'hasOwnProperty' of undefined"

  /**
   * Every call `tryParseJSON(text, callback)` makes to its callback when the
   * callback throws `throws(v)` on a parsed value `v`: the `try` around the
   * first call catches that exception and calls back a second time with it.
   */
  function TryParseCalls(text: string, throws: Json.Value -> Option<Err>): (calls: seq<ParseOutcome>)
    ensures 1 <= |calls| <= 2 && calls[0] == TryParseJson(text)
    ensures |calls| == 2 <==> calls[0].ParsedValue? && throws(calls[0].value).Some?
    ensures |calls| == 2 ==> calls[1] == ParseFailed(throws(calls[0].value).value)
  {
    match TryParseJson(text)
    case ParseFailed(e) => [ParseFailed(e)]
    case ParsedValue(v) =>
      if throws(v).Some? then [ParsedValue(v), ParseFailed(throws(v).value)] else [ParsedValue(v)]
  }

  /** What the npm loader's callback throws when handed the parsed manifest `v`. */
  function SectionThrows(v: Json.Value): Option<Err> {
    if NpmSection(Data(v)).Crashed? then Some(ErrorObj(NpmSection(Data(v)).reason)) else None
  }

  /** A loader's reply, and what was logged on the way to it. */
  datatype LoaderRun = LoaderRun(reply: LoaderReply, logged: seq<LogEntry>)

  /**
   * The npm loader's callback handed an error after `before` was logged: it
   * reports the error and hands it on, then dereferences the missing manifest.
   */
  function NpmFailed(err: Option<Err>, before: seq<LogEntry>): LoaderRun {
    var (e, entry) := Notify(err, NpmLoadMessage);
    LoaderRun(DeliveredThenCrashed(e, UndefinedManifest), before + [entry])
  }

  /**
   * The npm loader, given what the file system reports for `<cwd>/package.json`.
   * A load error is reported twice (by `loadJsonFile`, then by the loader)
   * and handed on before the loader throws. So is a manifest that is `null`:
   * the loader's own `TypeError` on it is thrown inside `tryParseJSON`'s
   * `try`, which hands it back as a parse failure.
   */
  function NpmLoader(packageJson: FileState): (r: LoaderRun)
    ensures IsMissing(packageJson) ==> r == LoaderRun(Delivered(None, NoFile), [])
    ensures r.reply.Delivered? || r.reply.DeliveredThenCrashed?
    ensures r.reply.DeliveredThenCrashed? <==>
              ErrTruthy(LoadJsonFile(packageJson).err) || LoadJsonFile(packageJson).data == Data(Json.JNull)
    ensures ErrTruthy(LoadJsonFile(packageJson).err) ==>
              r.reply == DeliveredThenCrashed(LoadJsonFile(packageJson).err.value, UndefinedManifest)
              && r.logged == LoadJsonFile(packageJson).logged + [LogEntry(["error"], NpmLoadMessage, r.reply.first)]
    ensures LoadJsonFile(packageJson).data == Data(Json.JNull) ==>
              r == LoaderRun(DeliveredThenCrashed(ErrorObj(NullManifest), UndefinedManifest),
                             [LogEntry(["error"], ParseMessage, ErrorObj(NullManifest)),
                              LogEntry(["error"], NpmLoadMessage, ErrorObj(NullManifest))])
    ensures r.reply.Delivered? ==> r.reply.err == None && r.logged == []
  {
    var loaded := LoadJsonFile(packageJson);
    if ErrTruthy(loaded.err) then NpmFailed(loaded.err, loaded.logged)
    else if loaded.data.Data? && SectionThrows(loaded.data.value).Some? then
      var calls := TryParseCalls(packageJson.text, SectionThrows);
      var (e, entry) := Notify(Some(calls[1].error), ParseMessage);
      NpmFailed(Some(e), [entry])
    else LoaderRun(NpmSection(loaded.data), [])
  }

  /** The `bluegreen.json` loader: `loadJsonFile`'s result, unchanged. */
  function BlueGreenLoader(bluegreenJson: FileState): (r: LoaderReply)
    ensures r == Delivered(LoadJsonFile(bluegreenJson).err, LoadJsonFile(bluegreenJson).data)
  {
    var loaded := LoadJsonFile(bluegreenJson);
    Delivered(loaded.err, loaded.data)
  }

  /**
   * A manifest whose `bluegreen` section is an object yields that object,
   * with no error.
   */
  lemma NpmLoaderYieldsSection(text: string, ms: seq<Json.Member>, section: seq<Json.Member>)
    requires JsonText.Parse(text) == Some(Json.JObj(ms))
    requires Json.Get(ms, "bluegreen") == Some(Json.JObj(section))
    ensures NpmLoader(Contents(text)) == LoaderRun(Delivered(None, Data(Json.JObj(section))), [])
    ensures LoadTruthy(NpmLoader(Contents(text)).reply.data)
  {
  }

  /** A manifest parsed to an object without a `bluegreen` key yields `(null, false)`. */
  lemma NpmLoaderWithoutSection(text: string, ms: seq<Json.Member>)
    requires JsonText.Parse(text) == Some(Json.JObj(ms)) && !Json.HasKey(ms, "bluegreen")
    ensures NpmLoader(Contents(text)) == LoaderRun(Delivered(None, NoFile), [])
  {
  }

  /** Neither loader reports an error for a missing file, and both yield a falsy `false`. */
  lemma MissingIsAbsent(f: FileState)
    requires IsMissing(f)
    ensures NpmLoader(f) == LoaderRun(Delivered(None, NoFile), []) && BlueGreenLoader(f) == Delivered(None, NoFile)
    ensures !LoadTruthy(NoFile)
  {
  }
}
