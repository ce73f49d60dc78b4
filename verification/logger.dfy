/**
 * BlueGreen's console logger: which labelled messages it prints, and in
 * which colour. The filters are fixed when the logger is built.
 */
module Logger {
  import opened Wrappers

  /** The colour a printed message is given. */
  datatype Colour = Red | Yellow | Green

  /** One printed line: the labels and the message (timestamps are not modelled). */
  datatype Line = Line(labels: seq<string>, colour: Colour, message: string)

  const DefaultFilters: seq<string> := ["info", "warn", "error"]

  /** The filters of a logger built with `options.filters` (an array, which is truthy even when empty). */
  function Filters(given: Option<seq<string>>): (r: seq<string>)
    ensures given.Some? ==> r == given.value
    ensures given.None? ==> r == DefaultFilters
  {
    if given.Some? then given.value else DefaultFilters
  }

  /** The labels share at least one element with the filters. */
  predicate Shares(filters: seq<string>, labels: seq<string>) {
    exists i :: 0 <= i < |filters| && filters[i] in labels
  }

  /** `shouldOutput(labels)`: everything when there are no filters, else a shared label. */
  function ShouldOutput(filters: seq<string>, labels: seq<string>): (r: bool)
    ensures filters == [] ==> r
    ensures filters != [] ==> (r <==> exists l :: l in filters && l in labels)
  {
    filters == [] || Intersects(filters, labels)
  }

  /** `_.intersection(filters, labels).length > 0`, walking the filters. */
  function Intersects(filters: seq<string>, labels: seq<string>): (r: bool)
    ensures r <==> Shares(filters, labels)
  {
    if filters == [] then false
    else if filters[0] in labels then
      assert filters[0] == filters[0];
      true
    else
      var r := Intersects(filters[1..], labels);
      assert Shares(filters, labels) <==> Shares(filters[1..], labels) by {
        if Shares(filters, labels) {
          var i :| 0 <= i < |filters| && filters[i] in labels;
          assert i > 0 && filters[1..][i - 1] == filters[i];
        }
        if Shares(filters[1..], labels) {
          var i :| 0 <= i < |filters[1..]| && filters[1..][i] in labels;
          assert filters[i + 1] == filters[1..][i];
        }
      }
      r
  }

  /** `Logger.colorize`: `error` wins over `warn`, which wins over anything else. */
  function Colorize(labels: seq<string>): (c: Colour)
    ensures c == Red <==> "error" in labels
    ensures c == Yellow <==> "warn" in labels && "error" !in labels
    ensures c == Green <==> "warn" !in labels && "error" !in labels
  {
    if "error" in labels then Red else if "warn" in labels then Yellow else Green
  }

  /** `_log(labels, message)`: the line printed, if any. */
  function Log(filters: seq<string>, labels: seq<string>, message: string): (r: Option<Line>)
    ensures r.Some? <==> filters == [] || exists l :: l in filters && l in labels
    ensures r.Some? ==> r.value.labels == labels && r.value.message == message
    ensures r.Some? ==> (r.value.colour == Red <==> "error" in labels)
    ensures r.Some? ==> (r.value.colour == Green <==> "warn" !in labels && "error" !in labels)
  {
    if ShouldOutput(filters, labels) then Some(Line(labels, Colorize(labels), message)) else None
  }

  /** A default logger prints errors (in red) and drops debug messages. */
  lemma DefaultLogger(message: string)
    ensures Log(Filters(None), ["error"], message) == Some(Line(["error"], Red, message))
    ensures Log(Filters(None), ["debug"], message) == None
  {
    assert DefaultFilters[2] == "error" && "error" in ["error"];
    assert !Shares(DefaultFilters, ["debug"]);
  }
}
