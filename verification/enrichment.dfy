/** The per-poll enrichment of tracked aircraft: airline name, aircraft type,
    altitude in feet and flight-phase context, with the altitude side-table
    threaded from one aircraft to the next. */
module Enrichment {
  import opened Wrappers
  import opened Lookup
  import JsNumbers
  import opened ReferenceRows

  /** The unit an altitude was reported in. */
  datatype AltitudeUnit = Feet | Meters

  /** Flight phase shown next to an aircraft. */
  datatype Context = PassingBy | Landing | TakingOff

  /** A tracked aircraft as the store hands it out. `icao` is the address as
      the store renders it (a decimal number); `airline`, `planeType` and
      `context` are absent until a poll sets them. */
  datatype Aircraft = Aircraft(
    icao: string, callsign: Option<string>, altitude: real, unit: AltitudeUnit,
    speed: Option<real>, heading: Option<real>, lat: Option<real>, lng: Option<real>,
    airline: Option<string>, planeType: Option<string>, context: Option<Context>)

  /** Last altitude seen below the threshold, per address. A key mapped to
      None is present with the value `undefined`. */
  type AltitudeTable = map<string, Option<real>>

  const FeetPerMeter: real := 3.2808399
  const UnknownAirline: string := "Unknown"
  const InactiveMarker: string := "*"
  /** What `NaN.toString(16)` prints. */
  const NaNKey: string := "NaN"

  /** JavaScript truthiness of a possibly-null string. */
  predicate Truthy(v: Option<string>) {
    v.Some? && v.value != ""
  }

  predicate HasCallsign(a: Aircraft) {
    Truthy(a.callsign)
  }

  /** The aircraft a poll enriches: those with a callsign, in store order. */
  function Tracked(s: seq<Aircraft>): (r: seq<Aircraft>)
    ensures |r| <= |s|
    ensures forall i :: 0 <= i < |r| ==> HasCallsign(r[i])
  {
    if |s| == 0 then []
    else if HasCallsign(s[0]) then [s[0]] + Tracked(s[1..])
    else Tracked(s[1..])
  }

  /** An aircraft is enriched exactly when it is in the store's list and has
      a callsign. */
  lemma {:induction false} TrackedMembers(s: seq<Aircraft>, x: Aircraft)
    ensures x in Tracked(s) <==> x in s && HasCallsign(x)
  {
    if |s| > 0 {
      TrackedMembers(s[1..], x);
      assert s == [s[0]] + s[1..];
    }
  }

  /** Filtering commutes with concatenation, so the relative order of the
      aircraft that are kept is the store's order. */
  lemma {:induction false} TrackedDistributes(s: seq<Aircraft>, t: seq<Aircraft>)
    ensures Tracked(s + t) == Tracked(s) + Tracked(t)
  {
    if |s| == 0 {
      assert s + t == t;
    } else {
      assert (s + t)[1..] == s[1..] + t;
      TrackedDistributes(s[1..], t);
    }
  }

  /** Key of the aircraft table: the decimal address re-rendered in
      lower-case hexadecimal; "NaN" when the address does not parse. */
  function PlaneKey(icao: string): (key: string)
    ensures JsNumbers.ParseInt(icao, 10).None? ==> key == NaNKey
    ensures JsNumbers.ParseInt(icao, 10).Some? ==>
              && JsNumbers.IsCanonicalRadixString(key, 16)
              && JsNumbers.ParseInt(key, 16) == JsNumbers.ParseInt(icao, 10)
  {
    match JsNumbers.ParseInt(icao, 10)
    case None => NaNKey
    case Some(v) =>
      JsNumbers.ParseIntOfHexString(v);
      JsNumbers.ToHexString(v)
  }

  predicate IsFirstPlane(planes: seq<PlaneRow>, key: string, i: int) {
    && 0 <= i < |planes| && planes[i].icao == Some(key)
    && forall j :: 0 <= j < i ==> planes[j].icao != Some(key)
  }

  /** The first aircraft-table row whose address is `key`. */
  function PlaneFor(planes: seq<PlaneRow>, key: string): (r: Option<PlaneRow>)
    ensures r.None? <==> forall i :: 0 <= i < |planes| ==> planes[i].icao != Some(key)
    ensures forall i :: IsFirstPlane(planes, key, i) ==> r == Some(planes[i])
  {
    Find(planes, (row: PlaneRow) => row.icao == Some(key))
  }

  /** `callsign.substr(0, 3)`: the airline designator a callsign starts with. */
  function AirlineCode(callsign: string): string {
    if |callsign| <= 3 then callsign else callsign[..3]
  }

  predicate IsFirstAirline(airlines: seq<AirlineRow>, code: string, i: int) {
    && 0 <= i < |airlines| && airlines[i].icao == Some(code)
    && forall j :: 0 <= j < i ==> airlines[j].icao != Some(code)
  }

  /** Alias if it is a non-empty string, else the name; a null name is
      joined as the empty string. */
  function AliasOrName(a: AirlineRow): string {
    if Truthy(a.alias) then a.alias.value else a.name.GetOr("")
  }

  /** Display name of an airline, marked when the airline is inactive. */
  function DisplayName(a: AirlineRow): string {
    AliasOrName(a) + (if a.active then "" else InactiveMarker)
  }

  /** The aircraft-table row names an operator, which takes precedence. */
  predicate OperatorOverride(plane: Option<PlaneRow>) {
    plane.Some? && Truthy(plane.value.operator)
  }

  /** The airline name shown for a callsign: the operator of the matched
      aircraft row if it has one, else the display name of the first airline
      whose ICAO code is the callsign's first three characters, else "Unknown". */
  function AirlineName(callsign: string, airlines: seq<AirlineRow>, plane: Option<PlaneRow>): (r: string)
    ensures OperatorOverride(plane) ==> r == plane.value.operator.value
    ensures !OperatorOverride(plane) ==>
              forall i :: IsFirstAirline(airlines, AirlineCode(callsign), i) ==> r == DisplayName(airlines[i])
    ensures !OperatorOverride(plane) ==>
              (forall i :: 0 <= i < |airlines| ==> airlines[i].icao != Some(AirlineCode(callsign))) ==> r == UnknownAirline
  {
    var code := AirlineCode(callsign);
    var derived :=
      match Find(airlines, (row: AirlineRow) => row.icao == Some(code))
      case Some(a) => DisplayName(a)
      case None => UnknownAirline;
    if OperatorOverride(plane) then plane.value.operator.value else derived
  }

  /** Altitude in feet: metre reports are multiplied by 3.2808399, other
      reports are multiplied by 1. */
  function FeetAltitude(a: Aircraft): real {
    if a.unit == Meters then a.altitude * FeetPerMeter else a.altitude
  }

  /** An absent, zero or negative threshold switches the window logic off. */
  predicate ThresholdActive(threshold: Option<real>) {
    threshold.Some? && threshold.value > 0.0
  }

  predicate BelowThreshold(altitude: real, threshold: Option<real>) {
    ThresholdActive(threshold) && altitude < threshold.value
  }

  predicate IsTrend(c: Option<Context>) {
    c == Some(Landing) || c == Some(TakingOff)
  }

  /** The context state machine for one aircraft: returns the context and the
      updated side-table. */
  function ContextStep(current: Option<Context>, key: string, altitude: real,
                       threshold: Option<real>, tbl: AltitudeTable): (r: (Option<Context>, AltitudeTable))
    ensures current.Some? ==> r == (current, tbl)
    ensures current.None? ==>
              (r.0 == Some(PassingBy) <==> !ThresholdActive(threshold) || altitude > threshold.value)
    ensures current.None? ==>
              (r.0 == Some(Landing) <==>
                 BelowThreshold(altitude, threshold) && key in tbl && tbl[key].Some? && tbl[key].value > altitude)
    ensures current.None? ==>
              (r.0 == Some(TakingOff) <==>
                 BelowThreshold(altitude, threshold) && key in tbl && tbl[key].Some? && tbl[key].value < altitude)
    ensures IsTrend(r.0) && current.None? ==> r.1 == tbl[key := None]
    ensures !IsTrend(r.0) || current.Some? ==>
              r.1 == tbl || (key !in tbl && BelowThreshold(altitude, threshold) && r.1 == tbl[key := Some(altitude)])
    ensures current.None? && BelowThreshold(altitude, threshold) && key !in tbl ==> r == (None, tbl[key := Some(altitude)])
    ensures r.0.None? ==> current.None? && ThresholdActive(threshold) && altitude <= threshold.value
  {
    if current.Some? then (current, tbl)
    else if !ThresholdActive(threshold) then (Some(PassingBy), tbl)
    else if altitude > threshold.value then (Some(PassingBy), tbl)
    else if altitude < threshold.value then
      if key !in tbl then (None, tbl[key := Some(altitude)])
      else if tbl[key].Some? && tbl[key].value > altitude then (Some(Landing), tbl[key := None])
      else if tbl[key].Some? && tbl[key].value < altitude then (Some(TakingOff), tbl[key := None])
      else (None, tbl)
    else (None, tbl)
  }

  /** The state machine touches at most the entry of its own address and
      never removes an entry. */
  lemma ContextStepFrame(current: Option<Context>, key: string, altitude: real,
                         threshold: Option<real>, tbl: AltitudeTable)
    ensures var t := ContextStep(current, key, altitude, threshold, tbl).1;
            && t.Keys == tbl.Keys + (t.Keys * {key})
            && forall k :: k in tbl && k != key ==> t[k] == tbl[k]
  {
  }

  /** The fields a poll copies unchanged from the store's record. */
  predicate SameReport(a: Aircraft, e: Aircraft) {
    && e.icao == a.icao && e.callsign == a.callsign && e.unit == a.unit
    && e.speed == a.speed && e.heading == a.heading && e.lat == a.lat && e.lng == a.lng
  }

  /** `e` is what a poll makes of `a`: the same record with the altitude in
      feet, and airline, type and context filled in only where absent. */
  predicate EnrichedFrom(a: Aircraft, e: Aircraft, airlines: seq<AirlineRow>, planes: seq<PlaneRow>) {
    var plane := PlaneFor(planes, PlaneKey(a.icao));
    && SameReport(a, e)
    && (a.unit == Meters ==> e.altitude == a.altitude * FeetPerMeter)
    && (a.unit == Feet ==> e.altitude == a.altitude)
    && (a.airline.Some? ==> e.airline == a.airline)
    && (a.airline.None? ==> e.airline == Some(AirlineName(a.callsign.GetOr(""), airlines, plane)))
    && (a.planeType.Some? ==> e.planeType == a.planeType)
    && (a.planeType.None? ==> (e.planeType.Some? <==> plane.Some? && Truthy(plane.value.planeType)))
    && (a.planeType.None? && e.planeType.Some? ==> e.planeType == plane.value.planeType)
    && (a.context.Some? ==> e.context == a.context)
  }

  /** Airline, type and altitude of one aircraft: the parts of its
      enrichment that neither read nor write the side-table. */
  function Annotate(a: Aircraft, airlines: seq<AirlineRow>, planes: seq<PlaneRow>): Aircraft {
    var plane := PlaneFor(planes, PlaneKey(a.icao));
    var airline := if a.airline.Some? then a.airline else Some(AirlineName(a.callsign.GetOr(""), airlines, plane));
    var planeType :=
      if a.planeType.None? && plane.Some? && Truthy(plane.value.planeType) then plane.value.planeType
      else a.planeType;
    a.(altitude := FeetAltitude(a), airline := airline, planeType := planeType)
  }

  /** The context state machine run over the aircraft of a poll in order,
      each step seeing the side-table the previous one left. */
  function Contexts(t: seq<Aircraft>, threshold: Option<real>, tbl: AltitudeTable): (r: (seq<Option<Context>>, AltitudeTable))
    ensures |r.0| == |t|
    ensures forall i :: 0 <= i < |t| && t[i].context.Some? ==> r.0[i] == t[i].context
  {
    if |t| == 0 then ([], tbl)
    else
      var step := ContextStep(t[0].context, t[0].icao, FeetAltitude(t[0]), threshold, tbl);
      var rest := Contexts(t[1..], threshold, step.1);
      ([step.0] + rest.0, rest.1)
  }

  /** Annotation fills exactly what the record lacks; any context that keeps
      a present one completes the enrichment. */
  lemma AnnotateSpec(a: Aircraft, airlines: seq<AirlineRow>, planes: seq<PlaneRow>, c: Option<Context>)
    requires a.context.Some? ==> c == a.context
    ensures EnrichedFrom(a, Annotate(a, airlines, planes).(context := c), airlines, planes)
  {
  }

  /** One poll: the aircraft with a callsign, each annotated and given the
      context the state machine derives for it, and the side-table after all
      of them. Only the context step touches the side-table, so deriving the
      contexts in one pass and the rest pointwise is the same as doing both
      per aircraft. */
  function Enrich(s: seq<Aircraft>, airlines: seq<AirlineRow>, planes: seq<PlaneRow>,
                  threshold: Option<real>, tbl: AltitudeTable): (r: (seq<Aircraft>, AltitudeTable))
    ensures |r.0| == |Tracked(s)|
    ensures forall i :: 0 <= i < |r.0| ==>
              SameReport(Tracked(s)[i], r.0[i]) && r.0[i].altitude == FeetAltitude(Tracked(s)[i])
    ensures var c := Contexts(Tracked(s), threshold, tbl);
            && r.1 == c.1
            && forall i :: 0 <= i < |r.0| ==> r.0[i].context == c.0[i]
  {
    var t := Tracked(s);
    var c := Contexts(t, threshold, tbl);
    (seq(|t|, i requires 0 <= i < |t| => Annotate(t[i], airlines, planes).(context := c.0[i])), c.1)
  }

  /** The i-th output of a poll is the i-th tracked aircraft, enriched. */
  lemma EnrichCorrespondence(s: seq<Aircraft>, airlines: seq<AirlineRow>, planes: seq<PlaneRow>,
                             threshold: Option<real>, tbl: AltitudeTable)
    ensures var r := Enrich(s, airlines, planes, threshold, tbl);
            forall i :: 0 <= i < |r.0| ==> EnrichedFrom(Tracked(s)[i], r.0[i], airlines, planes)
  {
    var t := Tracked(s);
    var c := Contexts(t, threshold, tbl);
    var r := Enrich(s, airlines, planes, threshold, tbl);
    forall i | 0 <= i < |r.0|
      ensures EnrichedFrom(t[i], r.0[i], airlines, planes)
    {
      assert r.0[i] == Annotate(t[i], airlines, planes).(context := c.0[i]);
      AnnotateSpec(t[i], airlines, planes, c.0[i]);
    }
  }

  /** The side-table only grows, and only at addresses of the aircraft run
      through the state machine: an entry for any other address keeps its value. */
  lemma {:induction false} ContextsTableFrame(t: seq<Aircraft>, threshold: Option<real>, tbl: AltitudeTable)
    ensures var r := Contexts(t, threshold, tbl).1;
            && tbl.Keys <= r.Keys
            && (forall k :: k in tbl && (forall i :: 0 <= i < |t| ==> t[i].icao != k) ==> r[k] == tbl[k])
            && (forall k :: k in r && k !in tbl ==> exists i :: 0 <= i < |t| && t[i].icao == k)
  {
    if |t| > 0 {
      var a := t[0];
      var step := ContextStep(a.context, a.icao, FeetAltitude(a), threshold, tbl);
      ContextStepFrame(a.context, a.icao, FeetAltitude(a), threshold, tbl);
      ContextsTableFrame(t[1..], threshold, step.1);
      assert forall i :: 0 <= i < |t[1..]| ==> t[1..][i] == t[i + 1];
    }
  }

  /** The i-th aircraft got LANDING or TAKING_OFF from the state machine (it
      had no context yet), for address `key`. */
  predicate Resolves(t: seq<Aircraft>, ctxs: seq<Option<Context>>, key: string, i: int) {
    0 <= i < |t| && i < |ctxs| && t[i].context.None? && t[i].icao == key && IsTrend(ctxs[i])
  }

  /** The side-table entry of `key` was resolved: present, but `undefined`. */
  predicate Retired(tbl: AltitudeTable, key: string) {
    key in tbl && tbl[key].None?
  }

  /** Resolutions in a run that starts with `c`, by position. */
  lemma ResolvesShift(t: seq<Aircraft>, c: Option<Context>, rest: seq<Option<Context>>, key: string)
    requires |t| > 0
    ensures Resolves(t, [c] + rest, key, 0) <==> t[0].context.None? && t[0].icao == key && IsTrend(c)
    ensures forall j :: 0 < j ==> (Resolves(t, [c] + rest, key, j) <==> Resolves(t[1..], rest, key, j - 1))
  {
    var ctxs := [c] + rest;
    forall j | 0 < j
      ensures Resolves(t, ctxs, key, j) <==> Resolves(t[1..], rest, key, j - 1)
    {
      if j < |t| && j < |ctxs| {
        assert ctxs[j] == rest[j - 1] && t[j] == t[1..][j - 1];
      }
    }
  }

  /** Once an address is retired, comparisons against its entry are all false:
      no later aircraft with that address is resolved and the entry stays
      retired. */
  lemma {:induction false} ContextsRetiredStaysSilent(t: seq<Aircraft>, threshold: Option<real>, tbl: AltitudeTable, key: string)
    requires Retired(tbl, key)
    ensures var r := Contexts(t, threshold, tbl);
            Retired(r.1, key) && forall i :: !Resolves(t, r.0, key, i)
  {
    if |t| > 0 {
      var a := t[0];
      var step := ContextStep(a.context, a.icao, FeetAltitude(a), threshold, tbl);
      ContextStepFrame(a.context, a.icao, FeetAltitude(a), threshold, tbl);
      assert Retired(step.1, key);
      ContextsRetiredStaysSilent(t[1..], threshold, step.1, key);
      var rest := Contexts(t[1..], threshold, step.1);
      ResolvesShift(t, step.0, rest.0, key);
      forall i
        ensures !Resolves(t, [step.0] + rest.0, key, i)
      {
        if 0 < i {
          assert !Resolves(t[1..], rest.0, key, i - 1);
        }
      }
    }
  }

  /** A resolution retires the address, so at most one aircraft with that
      address is resolved in a run. */
  lemma {:induction false} ContextsResolutionRetires(t: seq<Aircraft>, threshold: Option<real>, tbl: AltitudeTable,
                                             key: string, i: int)
    requires Resolves(t, Contexts(t, threshold, tbl).0, key, i)
    ensures var r := Contexts(t, threshold, tbl);
            Retired(r.1, key) && forall j :: Resolves(t, r.0, key, j) ==> j == i
  {
    var a := t[0];
    var step := ContextStep(a.context, a.icao, FeetAltitude(a), threshold, tbl);
    var rest := Contexts(t[1..], threshold, step.1);
    var r := Contexts(t, threshold, tbl);
    assert r == ([step.0] + rest.0, rest.1);
    ResolvesShift(t, step.0, rest.0, key);
    if a.context.None? && a.icao == key && IsTrend(step.0) {
      assert Retired(step.1, key);
      ContextsRetiredStaysSilent(t[1..], threshold, step.1, key);
      forall j
        ensures Resolves(t, r.0, key, j) ==> j == 0
      {
        if 0 < j {
          assert !Resolves(t[1..], rest.0, key, j - 1);
        }
      }
    } else {
      assert Resolves(t[1..], rest.0, key, i - 1);
      ContextsResolutionRetires(t[1..], threshold, step.1, key, i - 1);
      forall j
        ensures Resolves(t, r.0, key, j) ==> j == i
      {
        if 0 < j {
          assert Resolves(t, r.0, key, j) ==> Resolves(t[1..], rest.0, key, j - 1);
        }
      }
    }
  }

  /** With the window logic switched off every aircraft gets a context (its
      own, else PASSING_BY) and the side-table is not touched. */
  lemma {:induction false} DisabledThresholdContexts(t: seq<Aircraft>, threshold: Option<real>, tbl: AltitudeTable)
    requires !ThresholdActive(threshold)
    ensures var r := Contexts(t, threshold, tbl);
            && r.1 == tbl
            && forall i :: 0 <= i < |t| ==> r.0[i] == Some(t[i].context.GetOr(PassingBy))
  {
    if |t| > 0 {
      var a := t[0];
      var step := ContextStep(a.context, a.icao, FeetAltitude(a), threshold, tbl);
      DisabledThresholdContexts(t[1..], threshold, tbl);
      var rest := Contexts(t[1..], threshold, tbl);
      assert step.1 == tbl;
      forall i | 0 < i < |t|
        ensures ([step.0] + rest.0)[i] == rest.0[i - 1] && t[i] == t[1..][i - 1]
      {
      }
    }
  }

  /** The i-th output of poll `s` was resolved to LANDING or TAKING_OFF for
      address `key` (the store's record had no context yet). */
  predicate FreshAt(s: seq<Aircraft>, out: seq<Aircraft>, key: string, i: int) {
    var t := Tracked(s);
    0 <= i < |t| && i < |out| && t[i].context.None? && t[i].icao == key && IsTrend(out[i].context)
  }

  /** Resolutions in a poll's output are those of its state-machine run. */
  lemma FreshAtResolves(s: seq<Aircraft>, airlines: seq<AirlineRow>, planes: seq<PlaneRow>,
                        threshold: Option<real>, tbl: AltitudeTable, key: string)
    ensures var r := Enrich(s, airlines, planes, threshold, tbl);
            var c := Contexts(Tracked(s), threshold, tbl);
            forall i :: FreshAt(s, r.0, key, i) <==> Resolves(Tracked(s), c.0, key, i)
  {
  }

  /** A retired address is never resolved again by a poll and stays retired. */
  lemma RetiredStaysSilent(s: seq<Aircraft>, airlines: seq<AirlineRow>, planes: seq<PlaneRow>,
                           threshold: Option<real>, tbl: AltitudeTable, key: string)
    requires Retired(tbl, key)
    ensures var r := Enrich(s, airlines, planes, threshold, tbl);
            Retired(r.1, key) && forall i :: !FreshAt(s, r.0, key, i)
  {
    ContextsRetiredStaysSilent(Tracked(s), threshold, tbl, key);
    FreshAtResolves(s, airlines, planes, threshold, tbl, key);
  }

  /** A poll resolves an address at most once, and retires it when it does. */
  lemma ResolutionRetires(s: seq<Aircraft>, airlines: seq<AirlineRow>, planes: seq<PlaneRow>,
                          threshold: Option<real>, tbl: AltitudeTable, key: string, i: int)
    requires FreshAt(s, Enrich(s, airlines, planes, threshold, tbl).0, key, i)
    ensures var r := Enrich(s, airlines, planes, threshold, tbl);
            Retired(r.1, key) && forall j :: FreshAt(s, r.0, key, j) ==> j == i
  {
    FreshAtResolves(s, airlines, planes, threshold, tbl, key);
    ContextsResolutionRetires(Tracked(s), threshold, tbl, key, i);
  }

  /** With the window logic off a poll shows every aircraft with a context
      (its own, else PASSING_BY) and leaves the side-table alone. */
  lemma DisabledThresholdPoll(s: seq<Aircraft>, airlines: seq<AirlineRow>, planes: seq<PlaneRow>,
                              threshold: Option<real>, tbl: AltitudeTable)
    requires !ThresholdActive(threshold)
    ensures var r := Enrich(s, airlines, planes, threshold, tbl);
            && r.1 == tbl
            && forall i :: 0 <= i < |r.0| ==> r.0[i].context == Some(Tracked(s)[i].context.GetOr(PassingBy))
  {
    DisabledThresholdContexts(Tracked(s), threshold, tbl);
  }

  /** Only addresses of tracked aircraft enter the side-table, and entries of
      other addresses keep their values. */
  lemma EnrichTableFrame(s: seq<Aircraft>, airlines: seq<AirlineRow>, planes: seq<PlaneRow>,
                         threshold: Option<real>, tbl: AltitudeTable)
    ensures var r := Enrich(s, airlines, planes, threshold, tbl).1;
            && tbl.Keys <= r.Keys
            && (forall k :: k in tbl && (forall a :: a in s && HasCallsign(a) ==> a.icao != k) ==> r[k] == tbl[k])
            && (forall k :: k in r && k !in tbl ==> exists a :: a in s && HasCallsign(a) && a.icao == k)
  {
    var t := Tracked(s);
    ContextsTableFrame(t, threshold, tbl);
    forall a | a in t
      ensures a in s && HasCallsign(a)
    {
      TrackedMembers(s, a);
    }
    forall a | a in s && HasCallsign(a)
      ensures a in t
    {
      TrackedMembers(s, a);
    }
  }

  /** Two successive polls of one address below the threshold: the first
      records its altitude and shows no context, the second shows LANDING if
      the aircraft descended and TAKING_OFF if it climbed, and retires the
      address. */
  lemma TrendAcrossTwoPolls(a: Aircraft, b: Aircraft, airlines: seq<AirlineRow>, planes: seq<PlaneRow>,
                            threshold: real, tbl: AltitudeTable)
    requires HasCallsign(a) && HasCallsign(b) && a.icao == b.icao && a.icao !in tbl
    requires a.context.None? && b.context.None?
    requires 0.0 < threshold && FeetAltitude(a) < threshold && FeetAltitude(b) < threshold
    requires FeetAltitude(a) != FeetAltitude(b)
    ensures var first := Enrich([a], airlines, planes, Some(threshold), tbl);
            var second := Enrich([b], airlines, planes, Some(threshold), first.1);
            && first.0[0].context.None?
            && a.icao in first.1 && first.1[a.icao] == Some(FeetAltitude(a))
            && second.0[0].context == (if FeetAltitude(b) < FeetAltitude(a) then Some(Landing) else Some(TakingOff))
            && Retired(second.1, a.icao)
  {
    var first := Enrich([a], airlines, planes, Some(threshold), tbl);
    assert Tracked([a]) == [a];
    var c1 := SingleContext(a, Some(threshold), tbl);
    var c2 := SingleContext(b, Some(threshold), first.1);
    assert Tracked([b]) == [b];
  }

  /** The state machine over a single aircraft is one step. */
  lemma SingleContext(a: Aircraft, threshold: Option<real>, tbl: AltitudeTable) returns (step: (Option<Context>, AltitudeTable))
    ensures step == ContextStep(a.context, a.icao, FeetAltitude(a), threshold, tbl)
    ensures Contexts([a], threshold, tbl) == ([step.0], step.1)
  {
    step := ContextStep(a.context, a.icao, FeetAltitude(a), threshold, tbl);
    assert [a][1..] == [];
    assert Contexts([a][1..], threshold, step.1) == ([], step.1);
    assert [step.0] + [] == [step.0];
  }
}
