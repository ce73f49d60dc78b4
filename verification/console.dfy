/**
 * The console view layer: which renderer a view kind reaches, what each
 * renderer prints, the centring of the error banner, the classification of
 * version statuses, and the rows of the versions table.
 *
 * Colours, table layout and relative times are not part of the output here;
 * a printed item is a line of text, a stack trace, or the versions table.
 */
module ConsoleView {
  import opened Wrappers
  import opened Model
  import Text

  /** The template name a view kind maps to; the view-type table defines only four. */
  function LayoutName(v: View): (r: Option<string>)
    ensures r.Some? <==> v in {ErrorView, SuccessView, HelpView, VersionsAndStatusView}
  {
    match v
    case ErrorView => Some("error")
    case SuccessView => Some("success")
    case HelpView => Some("help")
    case VersionsAndStatusView => Some("versions-and-status")
    case _ => None
  }

  /** The colour a status is shown in. */
  datatype Tint = Red | Yellow | Cyan | Green

  /** One row of the versions table (the creation time is not modelled). */
  datatype Row = Row(version: string, status: string, tint: Tint, deployments: string)

  /** One item printed to the console. */
  datatype Out =
    | Line(text: string)
    | StackTrace(error: Err)
    | Table(heading: string, rows: seq<Row>)

  /** What a call of `render` does: it prints, or it throws. */
  datatype Shown = Printed(out: seq<Out>) | Failed(reason: string)

  // ---------------------------------------------------------------------
  // padLeftRightString
  // ---------------------------------------------------------------------

  /** `n` copies of `p`. */
  function Repeat(p: string, n: nat): (r: string)
    ensures |r| == n * |p|
    ensures |p| == 1 ==> forall i :: 0 <= i < |r| ==> r[i] == p[0]
  {
    if n == 0 then "" else p + Repeat(p, n - 1)
  }

  /**
   * The padding put on each side by `padLeftRightString`: the pad string
   * (a space when none is given) repeated `floor((maxLength - |s|) / 2)`
   * times; a negative count gives as many as its magnitude, which is what
   * `_.range` does with a negative bound.
   */
  function Side(s: string, maxLength: int, pad: string): (r: string)
    ensures |s| <= maxLength ==> |r| == (maxLength - |s|) / 2 * |if pad == "" then " " else pad|
    // a text longer than the width by two or more is still padded
    ensures |s| >= maxLength + 2 ==> |r| >= (|s| - maxLength) / 2 >= 1
  {
    var k := (maxLength - |s|) / 2;
    Repeat(if pad == "" then " " else pad, if k >= 0 then k else -k)
  }

  /** `padLeftRightString(s, maxLength, pad)`: `s` between two equal paddings. */
  function PadLeftRight(s: string, maxLength: int, pad: string): (r: string)
    ensures var m := |Side(s, maxLength, pad)|;
            |r| == 2 * m + |s| && r[m..m + |s|] == s && r[..m] == r[m + |s|..] == Side(s, maxLength, pad)
  {
    var side := Side(s, maxLength, pad);
    side + s + side
  }

  /**
   * A string no longer than the width, padded with one character, comes out
   * centred: its length is the width or one less, and equal runs of the pad
   * character surround it.
   */
  lemma PadCentres(s: string, maxLength: int, c: char)
    requires |s| <= maxLength
    ensures var r := PadLeftRight(s, maxLength, [c]);
            var n := (maxLength - |s|) / 2;
            (|r| == maxLength || |r| == maxLength - 1)
            && r[n..n + |s|] == s
            && (forall i :: 0 <= i < n ==> r[i] == c)
            && (forall i :: n + |s| <= i < |r| ==> r[i] == c)
  {
    var n := (maxLength - |s|) / 2;
    var side := Repeat([c], n);
    assert Side(s, maxLength, [c]) == side;
    var r := PadLeftRight(s, maxLength, [c]);
    assert r == side + s + side;
  }

  /** With no pad string given, the pad is a space. */
  lemma PadDefaultsToSpace(s: string, maxLength: int)
    ensures PadLeftRight(s, maxLength, "") == PadLeftRight(s, maxLength, " ")
  {
  }

  // ---------------------------------------------------------------------
  // colorizeStatus
  // ---------------------------------------------------------------------

  /** ASCII lower case. */
  function Lower(s: string): (r: string)
    ensures |r| == |s|
    ensures forall i :: 0 <= i < |s| ==> r[i] == (if 'A' <= s[i] <= 'Z' then (s[i] as int + 32) as char else s[i])
  {
    if s == [] then "" else [if 'A' <= s[0] <= 'Z' then (s[0] as int + 32) as char else s[0]] + Lower(s[1..])
  }

  /** ASCII upper case. */
  function Upper(s: string): (r: string)
    ensures |r| == |s|
    ensures forall i :: 0 <= i < |s| ==> r[i] == (if 'a' <= s[i] <= 'z' then (s[i] as int - 32) as char else s[i])
  {
    if s == [] then "" else [if 'a' <= s[0] <= 'z' then (s[0] as int - 32) as char else s[0]] + Upper(s[1..])
  }

  /** `colorizeStatus(status)`: failed, unprocessed and processing, in any letter case, have their own tint. */
  function ColorizeStatus(status: string): (t: Tint)
    ensures t == Red <==> Lower(status) == "failed"
    ensures t == Yellow <==> Lower(status) == "unprocessed"
    ensures t == Cyan <==> Lower(status) == "processing"
  {
    var l := Lower(status);
    if l == "failed" then Red
    else if l == "unprocessed" then Yellow
    else if l == "processing" then Cyan
    else Green
  }

  /** The status classification ignores letter case. */
  lemma ColorizeIgnoresCase(status: string)
    ensures ColorizeStatus(Upper(status)) == ColorizeStatus(status)
  {
    LowerUpper(status);
  }

  lemma {:induction false} LowerUpper(s: string)
    ensures Lower(Upper(s)) == Lower(s)
  {
    if s != [] {
      LowerUpper(s[1..]);
      assert Upper(s)[1..] == Upper(s[1..]);
    }
  }

  // ---------------------------------------------------------------------
  // renderVersionsAndStatus
  // ---------------------------------------------------------------------

  /** A deployment's name with its first `('nr8-' + service).length + 1` characters removed. */
  function ShortName(service: string, name: string): (r: string)
    ensures |name| >= |service| + 5 ==> name == name[..|service| + 5] + r
    ensures |name| <= |service| + 5 ==> r == ""
  {
    Text.Slice(name, |"nr8-" + service| + 1)
  }

  /** The environment part of a name built as `nr8-<service>-<environment>` is what is shown. */
  lemma ShortNameOfEnvironment(service: string, environment: string)
    ensures ShortName(service, "nr8-" + service + "-" + environment) == environment
  {
    var name := "nr8-" + service + "-" + environment;
    assert name[|service| + 5..] == environment;
  }

  /** The short names of a version's deployments. */
  function ShortNames(service: string, deployments: seq<Environment>): (r: seq<string>)
    ensures |r| == |deployments|
    ensures forall i :: 0 <= i < |r| ==> r[i] == ShortName(service, deployments[i].name)
  {
    if deployments == [] then []
    else [ShortName(service, deployments[0].name)] + ShortNames(service, deployments[1..])
  }

  /** The table row of one version. */
  function RowOf(service: string, v: Version): Row {
    Row(v.name, v.status, ColorizeStatus(v.status), Text.Join(ShortNames(service, v.deployments), ", "))
  }

  /** The rows of the versions table, one per version in order. */
  function Rows(service: string, versions: seq<Version>): (r: seq<Row>)
    ensures |r| == |versions|
    ensures forall i :: 0 <= i < |r| ==> r[i] == RowOf(service, versions[i])
  {
    if versions == [] then []
    else Rows(service, versions[..|versions| - 1]) + [RowOf(service, versions[|versions| - 1])]
  }

  /** The `forEach` that fills the table, one row per version. */
  method VersionRows(service: string, versions: seq<Version>) returns (rows: seq<Row>)
    ensures rows == Rows(service, versions)
  {
    rows := [];
    var i := 0;
    while i < |versions|
      invariant 0 <= i <= |versions|
      invariant rows == Rows(service, versions[..i])
    {
      assert versions[..i + 1][..i] == versions[..i];
      rows := rows + [RowOf(service, versions[i])];
      i := i + 1;
    }
    assert versions[..i] == versions;
  }

  // ---------------------------------------------------------------------
  // render
  // ---------------------------------------------------------------------

  const DefaultErrorMessage := "Oops, an error has occurred."

  /** `data.message` of an error view's data. */
  function MessageOf(data: ViewData): Payload {
    match data
    case ErrorData(_, m) => m
    case MessageData(t) => PText(t)
    case _ => PNone
  }

  /** `data.error` of a view's data. */
  function ErrorOf(data: ViewData): Option<Err> {
    match data
    case ErrorData(e, _) => e
    case DebugData(_, e) => e
    case _ => None
  }

  /** An error object carries a stack; a bare string does not. */
  predicate HasStack(e: Option<Err>) {
    e.Some? && !e.value.ErrorText?
  }

  /**
   * `renderError(data)`: a blank line, the message centred on 80 columns
   * (the default message when none is given), then the stack if there is one.
   */
  function RenderError(data: ViewData): (r: seq<Out>)
    ensures |r| == (if HasStack(ErrorOf(data)) then 3 else 2)
    ensures MessageOf(data) == PNone ==> r[1] == Line(PadLeftRight(DefaultErrorMessage, 80, "") + "\n")
    ensures MessageOf(data).PText? && MessageOf(data).text != "" ==>
              r[1] == Line(PadLeftRight(MessageOf(data).text, 80, "") + "\n")
  {
    var m := MessageOf(data);
    var banner :=
      if !PayloadTruthy(m) then PadLeftRight(DefaultErrorMessage, 80, "")
      else if m.PText? then PadLeftRight(m.text, 80, "")
      else "[object Object]";    // a non-string has no length, so it is not padded
    var e := ErrorOf(data);
    [Line("\n"), Line(banner + "\n")] + (if HasStack(e) then [StackTrace(e.value)] else [])
  }

  /** `renderSuccess(data)`: the message between blank lines. */
  function RenderSuccess(data: ViewData): (r: seq<Out>)
    ensures data.MessageData? ==> r == [Line("\n" + data.text + "\n")]
  {
    [Line("\n" + (if data.MessageData? then data.text else "undefined") + "\n")]
  }

  /** `renderVersionsAndStatus(context)`: a heading naming the service in capitals, then the table. */
  function RenderVersions(data: ViewData): (r: Shown)
    ensures r.Printed? <==> data.PayloadData? && data.payload.PVersions? && data.payload.forService.Some?
    ensures r.Printed? ==> |r.out| == 1 && r.out[0].Table? && |r.out[0].rows| == |data.payload.versions|
    // the heading names the service in capitals, and the rows are the versions' rows in order
    ensures r.Printed? ==>
              r.out == [Table("\nVersions for Service \"" + Upper(data.payload.forService.value) + "\"\n\n",
                              Rows(data.payload.forService.value, data.payload.versions))]
    // without a service, upper-casing it throws
    ensures !r.Printed? ==> r == Failed("TypeError: Cannot read property 'toUpperCase' of undefined")
  {
    if data.PayloadData? && data.payload.PVersions? && data.payload.forService.Some? then
      var service := data.payload.forService.value;
      Printed([Table("\nVersions for Service \"" + Upper(service) + "\"\n\n", Rows(service, data.payload.versions))])
    else Failed("TypeError: Cannot read property 'toUpperCase' of undefined")
  }

  /**
   * `render(app, layout, data)`: the four defined templates reach their
   * renderers; any other view kind is reported as a missing template.
   */
  function Render(layout: View, data: ViewData): (r: Shown)
    ensures layout == ErrorView ==> r == Printed(RenderError(data))
    ensures layout == SuccessView ==> r == Printed(RenderSuccess(data))
    ensures layout == HelpView ==> r == Printed([])
    ensures layout == VersionsAndStatusView ==> r == RenderVersions(data)
    ensures LayoutName(layout).None? ==>
              r == Printed(RenderError(ErrorData(Some(ErrorObj("Missing View")), PText("Could not find template: undefined"))))
  {
    match LayoutName(layout)
    case Some(name) =>
      if name == "error" then Printed(RenderError(data))
      else if name == "success" then Printed(RenderSuccess(data))
      else if name == "help" then Printed([])
      else RenderVersions(data)
    case None =>
      Printed(RenderError(ErrorData(Some(ErrorObj("Missing View")), PText("Could not find template: undefined"))))
  }

  /** A view kind outside the four templates prints the missing-template banner and the stack of its error. */
  lemma MissingTemplate(layout: View, data: ViewData)
    requires layout !in {ErrorView, SuccessView, HelpView, VersionsAndStatusView}
    ensures Render(layout, data) == Printed([
              Line("\n"),
              Line(PadLeftRight("Could not find template: undefined", 80, "") + "\n"),
              StackTrace(ErrorObj("Missing View"))])
  {
  }
}
