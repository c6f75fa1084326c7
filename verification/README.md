# FlightTracker enrichment, modelled in Dafny

This project models the server half of the MagicMirror FlightTracker
module. Each time the display asks for aircraft, `trackAircrafts` takes the
aircraft that the ADS-B store currently tracks and enriches them:

- It drops every aircraft without a callsign.
- It renders the decimal address in lower-case hexadecimal and looks that
  key up in the aircraft-type table.
- It fills in the airline name. This is the operator of the matched aircraft
  row if it has one. Otherwise it is the alias or name of the first airline
  whose ICAO code is the callsign's first three characters, marked with `*`
  when that airline is inactive. Failing both, it is `Unknown`.
- It fills in the aircraft type from the matched row.
- It converts a metre altitude to feet.
- It derives a flight-phase context (PASSING_BY, LANDING or TAKING_OFF). A
  small state machine does this, keyed by address, over an altitude
  side-table that lives across polls.

The model also covers how each airline and aircraft-type CSV row is
normalised as it loads.

Modules:

- `Wrappers`: `Option`.
- `Lookup`: `Array.prototype.find` as a first-match search.
- `JsNumbers`: JavaScript's `parseInt(s, radix)` and `Number#toString(16)`
  over `string`, with NaN as `None`.
- `ReferenceRows`: the two row normalisations.
- `Enrichment`: one poll. `Annotate` handles the airline, the type and the
  altitude. `Contexts` is a left fold of the state machine `ContextStep`,
  which threads the side-table from one aircraft to the next. `Enrich`
  combines the two. Splitting the work this way is the same as doing
  everything per aircraft, because only the context step reads or writes
  the side-table.
- `Polling`: a run of polls against one side-table, each poll with its own
  aircraft list, reference tables and threshold.

The side-table is a `map<string, Option<real>>`. A key mapped to `None` is
present but holds `undefined`, which is what the code assigns once an
address resolves. The code never deletes a key. Every later comparison
against `undefined` is false, so the model proves that an address is
resolved to LANDING or TAKING_OFF at most once, however many polls run
(`Polling.AtMostOneResolution`, `Polling.ReportedAtMostOnce`).

Details of the code that the model keeps:

- **A resolution does not clear the entry.** The code stores `undefined`
  (node_helper.js:153, 156), so the key stays present and an address never
  starts a fresh cycle: no second LANDING or TAKING_OFF is ever derived for it.
- **Altitudes are always converted to feet,** by the factor 3.2808399
  (node_helper.js:140), whatever unit the display is set to; only the display
  divides back (MMM-FlightTracker.js:130).
- **The window logic is off** when the threshold is absent, zero or negative
  (`!config.passingByThreshold || config.passingByThreshold <= 0`,
  node_helper.js:144), so the threshold is an `Option<real>`.
- **An altitude equal to the threshold changes nothing** (node_helper.js:146,
  148): no context is set and the side-table is not touched.

## Model

| member | source | states |
|---|---|---|
| Lookup.FindIndex | node_helper.js:114-115 | the index found is a match with no match before it, and there is none exactly when no element matches |
| Lookup.Find | node_helper.js:114-115 | `find` returns the first matching element, or nothing exactly when no element matches |
| JsNumbers.NatToHexDigits | node_helper.js:113 | `toString(16)` of a non-negative number is lower-case with no leading zero, and is "0" exactly for zero |
| JsNumbers.ToHexString | node_helper.js:113 | the hex rendering is canonical and starts with "-" exactly for negative numbers |
| JsNumbers.ParseIntOfHexString | node_helper.js:113 | parsing the hex rendering of any integer back in base 16 gives that integer |
| JsNumbers.ParseIntStopsAtNonDigit | node_helper.js:39 | `parseInt(s, 10)` reads the longest run of leading decimal digits and ignores the rest |
| JsNumbers.ParseIntDecimalNoDigits | node_helper.js:39 | a string that starts with something other than white space, a sign or a digit parses to NaN (so do "null" and `\N`) |
| ReferenceRows.NullIf | node_helper.js:35-37 | a cell becomes null exactly when it equals the null marker, and keeps its text otherwise |
| ReferenceRows.NormalizeAirline | node_helper.js:34-40 | each text field is null exactly when its cell is `\N` and otherwise holds the cell; the id is the base-10 parse of the raw cell; active is true exactly when the cell is "Y" |
| ReferenceRows.NormalizePlane | node_helper.js:54-58 | no present field is the empty string, and writing the row back gives exactly the raw cells, so only empty cells change |
| ReferenceRows.NormalizeDenormalizePlane | node_helper.js:54-58 | the reverse round trip: a row with no empty strings is what normalising its written-back form yields |
| Enrichment.Tracked | node_helper.js:110-111 | the filtered list is no longer than the store's, and every aircraft in it has a non-empty callsign |
| Enrichment.TrackedMembers | node_helper.js:110-111 | an aircraft is enriched exactly when it is in the store's list and has a callsign |
| Enrichment.TrackedDistributes | node_helper.js:110-112 | filtering commutes with concatenation, so the kept aircraft keep the store's order |
| Enrichment.PlaneKey | node_helper.js:113 | the key is "NaN" when the address does not parse; otherwise it is canonical lower-case hex and parses back to the address's value |
| Enrichment.PlaneFor | node_helper.js:114 | the aircraft row used is the first one whose address equals the key, and there is none exactly when no row matches |
| Enrichment.AirlineName | node_helper.js:115-131 | an operator in the matched row wins; otherwise the first airline with the callsign's 3-letter code gives its display name; with no such airline the name is "Unknown" |
| Enrichment.ContextStep | node_helper.js:143-159 | a present context is kept and the table is left alone; PASSING_BY exactly when the threshold is off or exceeded; LANDING (TAKING_OFF) exactly when below the threshold with a recorded altitude above (below) the current one; a trend leaves the entry present with no value; a first sighting below the threshold with the address absent records exactly that altitude and sets no context; otherwise the table is unchanged |
| Enrichment.ContextStepFrame | node_helper.js:149-156 | the state machine never removes an entry and touches no address other than its own |
| Enrichment.Contexts | node_helper.js:143 | the fold gives one context per aircraft and keeps every context the store already set |
| Enrichment.AnnotateSpec | node_helper.js:118-140 | an annotated record keeps every reported field; the altitude is in feet; airline and type are filled only where absent, as the lookup rules say; a present context is kept |
| Enrichment.Enrich | node_helper.js:109-165 | a poll yields one entry per tracked aircraft, the i-th being the i-th tracked record with the same reported fields and its altitude in feet; its contexts and final side-table are those of the state-machine run |
| Enrichment.EnrichCorrespondence | node_helper.js:161-164 | the i-th output is the i-th tracked aircraft with only altitude, airline, type and context changed, and those as the rules say |
| Enrichment.ContextsTableFrame | node_helper.js:149-156 | over a poll the side-table only grows, only at addresses of aircraft in the poll, and keeps every other entry's value |
| Enrichment.EnrichTableFrame | node_helper.js:149-156 | a poll adds only addresses of aircraft with a callsign, and entries of addresses not in the poll keep their values |
| Enrichment.ContextsRetiredStaysSilent | node_helper.js:151-156 | once an entry holds `undefined`, no later aircraft with that address gets LANDING or TAKING_OFF and the entry stays `undefined` |
| Enrichment.ContextsResolutionRetires | node_helper.js:151-156 | a resolution leaves the entry `undefined`, and no other aircraft in the same run is resolved for that address |
| Enrichment.DisabledThresholdContexts | node_helper.js:144-145 | with the window logic off, every aircraft's context is its own or PASSING_BY and the side-table is untouched |
| Enrichment.FreshAtResolves | node_helper.js:143-164 | a poll's output shows a new LANDING or TAKING_OFF exactly where the state-machine run resolved one |
| Enrichment.RetiredStaysSilent | node_helper.js:151-156 | a poll never reports a new trend for an address whose entry is `undefined`, and leaves the entry so |
| Enrichment.ResolutionRetires | node_helper.js:151-156 | a poll reports at most one new trend per address and leaves that address's entry `undefined` |
| Enrichment.DisabledThresholdPoll | node_helper.js:144-145 | with the window logic off, a poll leaves the side-table alone and shows every aircraft with a context |
| Enrichment.TrendAcrossTwoPolls | node_helper.js:148-156 | two polls of one address below the threshold: the first records the altitude and shows no context; the second shows LANDING after a descent, TAKING_OFF after a climb, and retires the address |
| Polling.RunPolls | node_helper.js:109-111 | a run yields one output list per poll, each as long as that poll's tracked aircraft |
| Polling.RetiredAddressStaysSilent | node_helper.js:151-156 | once an address is retired, the state machine resolves it in no later poll, whatever the polls hold, and the entry stays retired |
| Polling.AtMostOneResolution | node_helper.js:151-156 | across any sequence of polls sharing one side-table, the state machine resolves each address to LANDING or TAKING_OFF at most once |
| Polling.RunPollsShowsContextRun | node_helper.js:143-165 | the polls' outputs report a new LANDING or TAKING_OFF exactly where the state-machine run resolved one, and leave the same side-table |
| Polling.ReportedAtMostOnce | node_helper.js:151-165 | across any sequence of polls, each address appears with a newly derived LANDING or TAKING_OFF at most once |

## Left out

- The CSV streaming with `csv-parse` and `fs`, and its error handlers (node_helper.js:19-33, 44-53, 59-63). The model takes a table's rows as a sequence. Rows still loading while polls run are covered because each poll carries its own tables.
- `startTracking`, `stop` and the socket-notification dispatch (node_helper.js:66-107). These are event-emitter and network plumbing.
- lib/adsb.js, the Mode S decoder and the aircraft store. The store module is not part of this model. The aircraft list of each poll is a parameter.
- In-place write-back. The code writes `airline`, `type` and `context` onto the store's own objects, so later polls see them as present. The store is not modelled as state. Instead the multi-poll lemmas hold for any later aircraft lists, including those carrying the written-back fields.
- Floating point. Altitudes are exact `real`s. A missing (NaN) altitude or threshold is not modelled, and `parseInt` values are unbounded integers rather than doubles, which would lose precision above 2^53.
- The display (MMM-FlightTracker.js): DOM building, timers, `Math.floor` rounding and the unit conversions. Its metric altitude divides the converted feet by 3.2808399 again (MMM-FlightTracker.js:130); in doubles that quotient can fall just short of the reported metres (11 m shows as 10), which exact reals cannot express.
- Distance and bearing. No file in the module computes them.
- The `|| []` fallback (node_helper.js:165). It never applies, because `map` always returns an array.
- `Polling.RunPolls`: states lengths only. The context behaviour across polls is stated by `Polling.RunPollsShowsContextRun`, `Polling.RetiredAddressStaysSilent` and `Polling.AtMostOneResolution`.
