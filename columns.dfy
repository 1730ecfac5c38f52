/**
 * Column resolution by header name: Python's `list.index`, asked for each
 * required column in turn, where the first missing name ends the step.
 */
module Columns {
  import opened Wrappers

  /** `i` is the position of the first occurrence of `name` in `header`. */
  predicate IsFirstIndex(header: seq<string>, name: string, i: nat) {
    i < |header| && header[i] == name && forall j :: 0 <= j < i ==> header[j] != name
  }

  /** `header.index(name)`: the first position of `name`, or None where Python raises ValueError. */
  function IndexOf(header: seq<string>, name: string): (r: Option<nat>)
    ensures r.None? <==> name !in header
    ensures r.Some? ==> IsFirstIndex(header, name, r.value)
  {
    if header == [] then None
    else if header[0] == name then Some(0)
    else match IndexOf(header[1..], name)
      case None => None
      case Some(i) => Some(i + 1)
  }

  /**
   * Looks up every name of `names` in order, as consecutive `header.index`
   * calls inside one `try` do: either all positions, or the first name that
   * is missing (the one whose ValueError ends the step).
   */
  function Resolve(header: seq<string>, names: seq<string>): (r: Result<seq<nat>, string>)
    ensures r.Success? <==> forall k :: 0 <= k < |names| ==> names[k] in header
    ensures r.Success? ==> |r.value| == |names|
    ensures r.Success? ==> forall k :: 0 <= k < |names| ==> IsFirstIndex(header, names[k], r.value[k])
    ensures r.Failure? ==> r.error !in header
    ensures r.Failure? ==>
              exists k :: 0 <= k < |names| && names[k] == r.error && forall j :: 0 <= j < k ==> names[j] in header
  {
    if names == [] then Success([])
    else match IndexOf(header, names[0])
      case None => Failure(names[0])
      case Some(i) =>
        match Resolve(header, names[1..])
        case Failure(e) => Failure(e)
        case Success(rest) => Success([i] + rest)
  }
}
