/** The closed set of BigQuery regions the adapter accepts (`RegionEnum`) and
    the validation of a raw region string against it (`RegionEnum(value)`
    lookup, raising `InvalidRegionError`). This allow-list is the only thing
    between user input and the catalog query template. */
module Regions {
  import opened Wrappers
  import Text

  /** The members of `RegionEnum`, in declaration order. */
  datatype Region = EuropeWest2 | UsEast1

  /** Every region, in the order the enumeration declares them. */
  const AllRegions: seq<Region> := [EuropeWest2, UsEast1]

  /** The canonical string value of a region (`RegionEnum.value`). */
  function Value(r: Region): string
  {
    match r
    case EuropeWest2 => "europe-west2"
    case UsEast1 => "us-east1"
  }

  /** The predicate the enumeration lookup decides: `s` is one of the values. */
  predicate IsRegionName(s: string)
  {
    s == "europe-west2" || s == "us-east1"
  }

  /** The values of the given regions, in order. */
  function Values(rs: seq<Region>): (vs: seq<string>)
    ensures |vs| == |rs|
    ensures forall i :: 0 <= i < |rs| ==> vs[i] == Value(rs[i])
  {
    if rs == [] then [] else [Value(rs[0])] + Values(rs[1..])
  }

  /** The message of `InvalidRegionError(region)`: the attempted value and
      the valid values joined by ", " in declaration order. */
  function InvalidRegionMessage(region: string): (m: string)
    ensures m == "Region '" + region + "' is not valid. Must be one of: europe-west2, us-east1"
  {
    var valid := Text.Join(", ", Values(AllRegions));
    assert Values(AllRegions) == ["europe-west2", "us-east1"];
    assert ["europe-west2", "us-east1"][1..] == ["us-east1"];
    assert valid == "europe-west2" + ", " + "us-east1";
    "Region '" + region + "' is not valid. Must be one of: " + valid
  }

  /** `RegionEnum(value)`: the first member (in declaration order) whose value
      is `s`, if any. */
  function Lookup(s: string, candidates: seq<Region>): (found: Option<Region>)
    ensures found.Some? ==> found.value in candidates && Value(found.value) == s
    ensures found.None? ==> forall r :: r in candidates ==> Value(r) != s
  {
    if candidates == [] then None
    else if Value(candidates[0]) == s then Some(candidates[0])
    else Lookup(s, candidates[1..])
  }

  /** Region validation as the `Toolbox` constructor performs it: accept
      exactly the two enumerated strings, returning the member whose value is
      the input; reject everything else with `InvalidRegionError`'s message. */
  function ParseRegion(s: string): (r: Result<Region, string>)
    ensures r.Success? <==> IsRegionName(s)
    ensures r.Success? ==> Value(r.value) == s
    ensures r.Failure? ==> r.error == InvalidRegionMessage(s)
  {
    match Lookup(s, AllRegions)
    case Some(region) => Success(region)
    case None => Failure(InvalidRegionMessage(s))
  }

  /** Every region's canonical value parses back to that region, so the value
      `Toolbox.region` returns is itself accepted. */
  lemma ParseValue(r: Region)
    ensures ParseRegion(Value(r)) == Success(r)
  {
  }

  /** A string that merely contains a valid region (the injection-shaped
      inputs: a statement terminator, a quote, a backtick added) is rejected,
      and the message quotes it verbatim. */
  lemma RejectsExtension(s: string, prefix: string, r: Region, suffix: string)
    requires s == prefix + Value(r) + suffix
    requires prefix != [] || suffix != []
    ensures ParseRegion(s) ==
      Failure("Region '" + s + "' is not valid. Must be one of: europe-west2, us-east1")
  {
    assert |s| > |Value(r)|;
    if r == UsEast1 {
      UsEast1NotInside(prefix, suffix);
    }
    assert !IsRegionName(s);
  }

  /** "europe-west2" has no "us" in it, so it does not contain "us-east1". */
  lemma UsEast1NotInside(prefix: string, suffix: string)
    ensures prefix + "us-east1" + suffix != "europe-west2"
  {
    var s := prefix + "us-east1" + suffix;
    var k := |prefix|;
    assert s[k] == 'u' && s[k + 1] == 's';
  }
}
