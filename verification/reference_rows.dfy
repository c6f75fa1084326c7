/** Normalisation of the two reference tables as their CSV rows are read:
    the airline table (id, name, alias, IATA, ICAO, callsign, country, active)
    and the aircraft table (ICAO address in hex, registration, model, type,
    operator). Every cell arrives as a string. */
module ReferenceRows {
  import opened Wrappers
  import JsNumbers

  /** The airline table writes a missing value as the two characters `\N`. */
  const AirlineNullMarker: string := "\\N"

  /** The aircraft table leaves a missing value empty. */
  const PlaneNullMarker: string := ""

  /** Replaces a cell equal to `marker` by null. */
  function NullIf(cell: string, marker: string): (r: Option<string>)
    ensures r.None? <==> cell == marker
    ensures r.Some? ==> r.value == cell
  {
    if cell == marker then None else Some(cell)
  }

  /** `String(v)`: how a null cell is rendered when JavaScript converts it. */
  function JsString(v: Option<string>): string {
    v.GetOr("null")
  }

  datatype RawAirlineRow = RawAirlineRow(
    id: string, name: string, alias: string, iata: string,
    icao: string, callsign: string, country: string, active: string)

  /** An airline row after normalisation; `id` is None when it parsed to NaN. */
  datatype AirlineRow = AirlineRow(
    id: Option<int>, name: Option<string>, alias: Option<string>, iata: Option<string>,
    icao: Option<string>, callsign: Option<string>, country: Option<string>, active: bool)

  /** `value` is the null-normalised form of `cell`: writing it back gives the
      cell, and a present value is never the marker itself. */
  predicate NormalisedCell(cell: string, value: Option<string>, marker: string) {
    value.GetOr(marker) == cell && value != Some(marker)
  }

  /** Every `\N` cell becomes null; then the id is parsed in base 10 and
      `active` becomes a boolean that is true only for "Y". */
  function NormalizeAirline(raw: RawAirlineRow): (r: AirlineRow)
    ensures NormalisedCell(raw.name, r.name, AirlineNullMarker)
    ensures NormalisedCell(raw.alias, r.alias, AirlineNullMarker)
    ensures NormalisedCell(raw.iata, r.iata, AirlineNullMarker)
    ensures NormalisedCell(raw.icao, r.icao, AirlineNullMarker)
    ensures NormalisedCell(raw.callsign, r.callsign, AirlineNullMarker)
    ensures NormalisedCell(raw.country, r.country, AirlineNullMarker)
    ensures r.id == JsNumbers.ParseInt(raw.id, 10)
    ensures r.active <==> raw.active == "Y"
  {
    var id := NullIf(raw.id, AirlineNullMarker);
    var active := NullIf(raw.active, AirlineNullMarker);
    JsNumbers.ParseIntDecimalNoDigits("null");
    JsNumbers.ParseIntDecimalNoDigits(AirlineNullMarker);
    AirlineRow(
      JsNumbers.ParseInt(JsString(id), 10),
      NullIf(raw.name, AirlineNullMarker),
      NullIf(raw.alias, AirlineNullMarker),
      NullIf(raw.iata, AirlineNullMarker),
      NullIf(raw.icao, AirlineNullMarker),
      NullIf(raw.callsign, AirlineNullMarker),
      NullIf(raw.country, AirlineNullMarker),
      active == Some("Y"))
  }

  datatype RawPlaneRow = RawPlaneRow(
    icao: string, regid: string, model: string, planeType: string, operator: string)

  datatype PlaneRow = PlaneRow(
    icao: Option<string>, regid: Option<string>, model: Option<string>,
    planeType: Option<string>, operator: Option<string>)

  /** No present field of a normalised aircraft row is the empty string. */
  predicate NoEmptyCells(r: PlaneRow) {
    && r.icao != Some(PlaneNullMarker) && r.regid != Some(PlaneNullMarker)
    && r.model != Some(PlaneNullMarker) && r.planeType != Some(PlaneNullMarker)
    && r.operator != Some(PlaneNullMarker)
  }

  /** The row written back as CSV cells, null as the empty string. */
  function DenormalizePlane(r: PlaneRow): RawPlaneRow {
    RawPlaneRow(
      r.icao.GetOr(PlaneNullMarker), r.regid.GetOr(PlaneNullMarker),
      r.model.GetOr(PlaneNullMarker), r.planeType.GetOr(PlaneNullMarker),
      r.operator.GetOr(PlaneNullMarker))
  }

  /** Every empty cell becomes null and nothing else changes: the result holds
      no empty string and writes back to exactly the raw row. */
  function NormalizePlane(raw: RawPlaneRow): (r: PlaneRow)
    ensures NoEmptyCells(r)
    ensures DenormalizePlane(r) == raw
  {
    PlaneRow(
      NullIf(raw.icao, PlaneNullMarker), NullIf(raw.regid, PlaneNullMarker),
      NullIf(raw.model, PlaneNullMarker), NullIf(raw.planeType, PlaneNullMarker),
      NullIf(raw.operator, PlaneNullMarker))
  }

  /** The other direction: a row without empty strings is what normalising its
      CSV form produces, so normalisation loses nothing. */
  lemma NormalizeDenormalizePlane(r: PlaneRow)
    requires NoEmptyCells(r)
    ensures NormalizePlane(DenormalizePlane(r)) == r
  {
  }
}
