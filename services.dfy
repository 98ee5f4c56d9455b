/**
  The temperature business logic of the service layer: the configured list of
  senseBox station ids, kept behind defensive copies, and the three-way
  classification of an average temperature.
*/
module Services {
  import opened Wrappers

  /** The station ids used when the service is built without a list of its own. */
  const DefaultSenseboxIds: seq<string> := [
    "5c647389a100840019eea656",
    "66268770eaca630008ec4f9e",
    "6570eb180db9850007f21abe"
  ]

  /** Below this a temperature is too cold; the value itself is already good. */
  const ColdBelow: real := 10.0
  /** Above this a temperature is too hot; the value itself is still good. */
  const HotAbove: real := 36.0

  /** The verdicts the service gives, from coldest to hottest. */
  datatype Status = TooCold | Good | TooHot {

    /** The text the endpoint reports for the verdict. */
    function Label(): string {
      match this
      case TooCold => "Too Cold"
      case Good => "Good"
      case TooHot => "Too Hot"
    }

    /** Position in the order Too Cold < Good < Too Hot. */
    function Rank(): nat {
      match this
      case TooCold => 0
      case Good => 1
      case TooHot => 2
    }
  }

  /**
    Reference definition of the classification, independent of the order of
    the tests in the service: each verdict owns one band of the number line,
    and the band of Good is closed at both ends.
  */
  predicate InBand(s: Status, t: real) {
    match s
    case TooCold => t < ColdBelow
    case Good => ColdBelow <= t <= HotAbove
    case TooHot => HotAbove < t
  }

  /**
    A new list holding the given items in the same order, as Python's
    `list(...)` builds one: the result is an array nobody else refers to.
  */
  method NewList(items: seq<string>) returns (r: array<string>)
    ensures fresh(r)
    ensures r[..] == items
  {
    r := new string[|items|];
    var i := 0;
    while i < |items|
      invariant 0 <= i <= |items| == r.Length
      invariant r[..i] == items[..i]
    {
      r[i] := items[i];
      i := i + 1;
    }
  }

  class TemperatureService {
    /** The service's own list of station ids; no caller ever holds it. */
    var senseboxIds: array<string>

    /** The station ids the service currently holds, in order. */
    function Ids(): seq<string>
      reads this, senseboxIds
    {
      senseboxIds[..]
    }

    /**
      Stores a copy of the given list, or of the default list when none is
      given, so that later changes to the caller's list do not reach it.
    */
    constructor (ids: Option<array<string>>)
      ensures fresh(senseboxIds)
      ensures ids.Some? ==> Ids() == ids.value[..]
      ensures ids.None? ==> Ids() == DefaultSenseboxIds
    {
      var copy := NewList(if ids.Some? then ids.value[..] else DefaultSenseboxIds);
      senseboxIds := copy;
    }

    /**
      The station ids the service holds, as a new list: writing to it does
      not change the service, and the call changes nothing either.
    */
    method GetSenseboxIds() returns (r: array<string>)
      ensures fresh(r)
      ensures r[..] == Ids()
    {
      r := NewList(senseboxIds[..]);
    }

    /**
      The verdict for an average temperature: the one whose band holds it
      (below 10, 10 to 36 inclusive, above 36).
    */
    static function GetTemperatureStatus(t: real): (s: Status)
      ensures InBand(s, t)
    {
      if t < ColdBelow then TooCold
      else if t <= HotAbove then Good
      else TooHot
    }
  }

  /** Every temperature lies in some band: the classification is total. */
  lemma BandsCoverEveryTemperature(t: real)
    ensures exists s: Status :: InBand(s, t)
  {
    assert InBand(TemperatureService.GetTemperatureStatus(t), t);
  }

  /** No temperature lies in two bands. */
  lemma BandsAreDisjoint(s1: Status, s2: Status, t: real)
    requires InBand(s1, t) && InBand(s2, t)
    ensures s1 == s2
  {
  }

  /**
    The service picks exactly the verdict whose band holds the temperature:
    Too Cold exactly below 10, Good exactly from 10 to 36, Too Hot exactly above 36.
  */
  lemma StatusIsTheBand(s: Status, t: real)
    ensures InBand(s, t) <==> s == TemperatureService.GetTemperatureStatus(t)
  {
    if InBand(s, t) {
      BandsAreDisjoint(s, TemperatureService.GetTemperatureStatus(t), t);
    }
  }

  /** A warmer temperature never gets a colder verdict. */
  lemma StatusIsMonotone(t1: real, t2: real)
    requires t1 <= t2
    ensures TemperatureService.GetTemperatureStatus(t1).Rank()
         <= TemperatureService.GetTemperatureStatus(t2).Rank()
  {
  }

  /** The three verdicts are reported as three different texts. */
  lemma LabelsAreDistinct(s1: Status, s2: Status)
    ensures s1.Label() == s2.Label() <==> s1 == s2
  {
  }

  /**
    Verdicts at and around both boundaries. The endpoint tests check 5, 10,
    20, 36, 37 and 40; 9.999 and 36.001, just beyond each boundary, are added
    here.
  */
  lemma StatusExamples()
    ensures TemperatureService.GetTemperatureStatus(5.0).Label() == "Too Cold"
    ensures TemperatureService.GetTemperatureStatus(9.999).Label() == "Too Cold"
    ensures TemperatureService.GetTemperatureStatus(10.0).Label() == "Good"
    ensures TemperatureService.GetTemperatureStatus(20.0).Label() == "Good"
    ensures TemperatureService.GetTemperatureStatus(36.0).Label() == "Good"
    ensures TemperatureService.GetTemperatureStatus(36.001).Label() == "Too Hot"
    ensures TemperatureService.GetTemperatureStatus(37.0).Label() == "Too Hot"
    ensures TemperatureService.GetTemperatureStatus(40.0).Label() == "Too Hot"
  {
  }

  /**
    A caller that builds a service from its own list, then overwrites that
    list and the list the service hands back, still finds the original ids in
    the service; two reads give equal contents in two different lists
    (`firstRead` is the first list as it was handed back, before the overwrite).
  */
  method DefensiveCopies(input: array<string>, junk: string)
    returns (svc: TemperatureService, first: array<string>, second: array<string>, ghost firstRead: seq<string>)
    modifies input
    ensures svc.Ids() == old(input[..])
    ensures first.Length == input.Length
    ensures input.Length > 0 ==> input[0] == junk && first[0] == junk
    ensures firstRead == old(input[..]) && second[..] == firstRead
    ensures first != second
  {
    svc := new TemperatureService(Some(input));
    if input.Length > 0 {
      input[0] := junk;
    }
    first := svc.GetSenseboxIds();
    firstRead := first[..];
    if first.Length > 0 {
      first[0] := junk;
    }
    second := svc.GetSenseboxIds();
  }
}
