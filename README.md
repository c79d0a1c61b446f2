# MiniSOC events API: query resolution and hit projection

This project models the decision logic of the MiniSOC API's `GET /api/events` handler
(`api/src/index.js`). The handler reads four query parameters and turns them into a search
of the security-event store. It then maps every returned hit (a Suricata alert, a Zeek
connection record, ...) to one output item. The mapping uses fallback chains over the
field names of the different producers. It adds geo and ASN context from two MaxMind
readers that may not be loaded yet.

Modules, with the source lines of the definitions that carry the model (all in
`api/src/index.js`):

- `Wrappers`: `Option` and `Result`.
- `JsValue`: decoded JSON values plus `undefined`. It defines JavaScript truthiness, `?.`
  property access, `||` and `??`. `OrChain` and `CoalesceChain` are the left-grouped chains
  `a || b || c` and `a ?? b ?? c`, proved to pick the first truthy (resp. non-nullish)
  operand, or the last operand when there is none.
- `IntParsing`: `parseInt(text, 10)` over characters. It skips the ECMAScript white space
  and line terminators, takes one optional sign, then the longest run of decimal digits.
  `None` stands for NaN. `DecimalText` renders a number as digits, and `ParseIntOfDecimal`
  proves that parseInt reads it back. `ParseInt` is the `parseInt(size, 10)` of line 37.
- `EventQuery`: the parameter defaults (`now-1h`, `now`, 0, 200) of line 33 in
  `ResolveQuery`, and `Math.min(parseInt(size, 10) || 200, 1000)` of line 37 in
  `ResolveSize`; `ResolveQuery` also builds the search of lines 42-43.
- `EventProjection`: the `hits.map` callback (`ProjectHit`) and the map itself
  (`ProjectAll`). The readers are `Option<Value -> Lookup>`. A lookup either returns a
  record (or null) or throws. The definitions:
  - `Document`: `h._source || {}`, line 49;
  - `SourceAddress`, `DestinationAddress`: lines 50-51;
  - `GatedLookup`: the `src && reader ? reader.get(src) : null` of lines 52-53;
  - `Signature`: line 58; `Severity`: line 59;
  - `GeoOf`, `AsnOf`: lines 62-63;
  - `ProjectHit`: the callback, lines 48-64; `ProjectAll`: the `hits.map`, lines 48-65.
- `EventsHandler`: the handler's `try` block (`HandleEvents`, lines 32-70). The search
  engine is a function parameter.

Three behaviours of the handler are worth knowing before reading the lemmas:

- There is no lower bound on the result size: the code only caps it at 1000. A `size` that
  parses to -5 reaches the search as -5 (`EventQuery.SizeOfDigits`,
  `EventQuery.LenientSizeExamples`). Only NaN and 0 become 200.
- No `try` surrounds the geo and ASN lookups. A reader that throws fails the whole
  `hits.map`, so one throwing lookup fails the whole request
  (`EventProjection.LookupExceptionEscapes`, `EventsHandler.LookupExceptionFailsRequest`).
- `Number(severity)` is not modelled: the severity text is carried unconverted (see
  "## Left out").

## Model

| member | source | states |
|---|---|---|
| JsValue.OrChain | api/src/index.js:50-51 | `a || b || ...` is the first truthy operand, or the last operand when none is truthy; it is truthy exactly when some operand is |
| JsValue.CoalesceChain | api/src/index.js:59 | `a ?? b ?? ...` is the first operand that is neither null nor undefined, or the last one; it is nullish exactly when all operands are |
| JsValue.MapOrThrow | api/src/index.js:48-65 | `Array.prototype.map` with a callback that may throw: it succeeds exactly when every callback returns, then with one element per input in order; otherwise it fails with the exception of the first callback that throws |
| IntParsing.TrimStartDropsWhitespacePrefix | api/src/index.js:37 | parseInt's trimming drops exactly the leading white space: the dropped prefix is all white space, and the rest is a suffix that does not start with white space |
| IntParsing.ParseIntSkipsWhitespace | api/src/index.js:37 | leading white space never changes what parseInt returns |
| IntParsing.ParseIntOfDecimal | api/src/index.js:37 | round trip: white space, an optional sign, the decimal text of n and a tail that does not start with a digit parse back to n with that sign ("12abc" is 12) |
| IntParsing.LeadingZeroIgnored | api/src/index.js:37 | a leading zero does not change a digit run's value |
| IntParsing.NoDigitIsNaN | api/src/index.js:37 | text without any decimal digit parses to NaN |
| IntParsing.NaNExactlyWithoutDigitRun | api/src/index.js:37 | parseInt gives NaN if and only if no digit follows the leading white space and one optional sign |
| IntParsing.DoubleSignIsNaN | api/src/index.js:37 | only one sign is accepted: "+-5" parses to NaN |
| EventQuery.ResolveSize | api/src/index.js:37 | the search size is at most 1000 and never 0, and it is 200, 1000 or the parsed number |
| EventQuery.SizeOfDigits | api/src/index.js:37 | a `size` made of white space, an optional sign, any digit run (leading zeros allowed) and a tail that does not start with a digit resolves to 200 when the run is worth 0, to 1000 above 1000, and otherwise to the parsed value, negative values included |
| EventQuery.SizeOfDecimal | api/src/index.js:37 | the same for the canonical decimal spelling of n: 0 gives 200, above 1000 gives 1000, otherwise the signed n |
| EventQuery.ZeroRunSizeExample | api/src/index.js:37 | `size=00` resolves to 200 |
| EventQuery.LeadingZeroSizeExample | api/src/index.js:37 | `size=0050` resolves to 50 |
| EventQuery.NonNumericSizeIsDefault | api/src/index.js:37 | every `size` that parseInt maps to NaN resolves to 200; such a text is one in which no digit follows the white space and the optional sign |
| EventQuery.NaNSizeExamples | api/src/index.js:37 | `size=x5` and `size=+-5` contain a digit yet resolve to 200 |
| EventQuery.MissingSizeIsDefault | api/src/index.js:33 | without `size` the search asks for 200 hits |
| EventQuery.LargeSizeExample | api/src/index.js:37 | `size=5000` resolves to 1000 |
| EventQuery.FallbackSizeExamples | api/src/index.js:37 | `size=0` and `size=abc` resolve to 200 |
| EventQuery.LenientSizeExamples | api/src/index.js:37 | `size=12abc` resolves to 12 and `size= -5` to -5 (no lower bound) |
| EventQuery.ResolveQuery | api/src/index.js:33-43 | `since`/`until` default to `now-1h`/`now` and otherwise reach the timestamp range unchanged; a missing `severity` is the default 0; a given `size` is resolved by `ResolveSize`; the size is at most 1000 and not 0 |
| EventQuery.QuerySizeOfDigits | api/src/index.js:33-43 | a query whose `size` is an optionally signed digit run asks for 200 when it is worth 0, for 1000 above 1000, and for the number itself otherwise (`?size=5000` gives 1000, `?size=0050` gives 50, `?size=-5` gives -5) |
| EventQuery.OnlyFourParametersMatter | api/src/index.js:33 | queries that agree on `since`, `until`, `severity` and `size` produce the same search |
| EventProjection.ProjectAll | api/src/index.js:48-65 | when no callback throws, the items are exactly one per hit, item i the projection of hit i; it fails exactly when some hit's projection throws, with the error of the first such hit |
| EventProjection.AddressFallback | api/src/index.js:50-51 | the source address is `src_ip` when truthy, else `id.orig_h`; the destination is `dest_ip` when truthy, else `id.resp_h` |
| EventProjection.ProducerAliasesAgree | api/src/index.js:50 | a document with only `id.orig_h` set to a truthy value has the same source address as one with `src_ip` set to it |
| EventProjection.EmptyAliasesDisagree | api/src/index.js:50 | with an empty string the two producers' fields give different addresses ("" and undefined) |
| EventProjection.SignatureFallback | api/src/index.js:58 | the signature is `alert.signature` if truthy, else `note` if truthy, else null; it is never a falsy non-null value |
| EventProjection.SeverityFallback | api/src/index.js:59 | the severity is `alert.severity` unless null/undefined, else `severity` unless null/undefined, else null; never undefined |
| EventProjection.ZeroSeverityKeptEmptySignatureSkipped | api/src/index.js:58-59 | a severity of 0 is kept while an empty signature falls through to the note |
| EventProjection.ProjectedItem | api/src/index.js:49-63 | a hit without `_source` reads as `{}`; `http`/`dns` pass verbatim when truthy and are null otherwise; `geo` and `asn` each come from their own reader's record only, and only when that reader is loaded and the source address is truthy |
| EventProjection.EnrichmentExposesOnlyChosenFields | api/src/index.js:62-63 | `geo` depends only on a city record's country ISO code, English city name and location, `asn` only on the ASN number and organization |
| EventProjection.ProjectHitFailsExactlyOnThrow | api/src/index.js:48-64 | a hit's projection fails if and only if the source address is truthy and a loaded reader's lookup of it throws |
| EventProjection.BothFoundSucceeds | api/src/index.js:52-63 | an address both readers find is projected, with `geo` built from the city record and `asn` from the ASN record |
| EventProjection.NoAddressNoLookup | api/src/index.js:52-53 | without a truthy source address no reader is consulted, the hit cannot fail, and `geo` and `asn` are null |
| EventProjection.NoReadersNoEnrichment | api/src/index.js:52-53 | with no reader loaded a hit cannot fail and gets neither `geo` nor `asn` |
| EventProjection.CityMissLikeAbsentReader | api/src/index.js:52 | a city lookup that finds nothing gives the same result as a city reader that is not loaded |
| EventProjection.AsnMissLikeAbsentReader | api/src/index.js:53 | an ASN lookup that finds nothing gives the same result as an ASN reader that is not loaded |
| EventProjection.OnlyAsnMatches | api/src/index.js:52-63 | an address found only in the ASN database gets `asn` and no `geo` |
| EventProjection.LookupExceptionEscapes | api/src/index.js:52-53 | a lookup that throws fails the hit with that exception, the city reader's first |
| EventProjection.NoReadersProjectAll | api/src/index.js:48-65 | with no reader loaded every hit is projected, one item per hit, none enriched |
| EventsHandler.HandleEvents | api/src/index.js:32-70 | the request fails with the search's error when the search throws, and otherwise fails exactly when some hit's projection throws, with the error of the first hit whose projection throws; on success item i is the projection of hit i |
| EventsHandler.AnswersBeforeReadersLoad | api/src/index.js:16-17 | before the databases load, a request whose search succeeds succeeds with one unenriched item per hit |
| EventsHandler.LookupExceptionFailsRequest | api/src/index.js:48-69 | one hit whose lookup throws fails the whole request with the error of the first failing hit at or before it |

## Left out

- Express routing, `/api/health`, the static map page and `app.listen`. They are transport and UI.
- The Elasticsearch client and the search itself. The search is a function parameter from
  the resolved request to hits or an error. The index list, the sort order and the
  server-side filtering are not modelled.
- The start-up task that opens the MaxMind databases and assigns the two readers. It is
  I/O and a start-up race. The readers are optional parameters of each request.
- MaxMind's own lookup. It is a foreign library, so a reader is an arbitrary function
  from the address to a record, null, or an exception.
- `Number(severity)`. It is floating-point coercion, so the severity text is carried
  unconverted.
- The 500 status, the `{ error }` body and the logging. The model keeps only the message
  of the exception that reaches the `catch`.
- Array-valued query parameters (a repeated `?size=`). The query is a map from names to strings.
- JSON serialisation of the response, which drops `undefined` fields. Items keep `Undefined`.
- IntParsing.ParseInt: does not model doubles. Digit runs are exact integers instead of the
  nearest double (only visible beyond 2^53), and `-0` is folded into 0 (both are falsy, so
  both resolve to 200). JavaScript's UTF-16 code units are modelled as Unicode scalar
  values; no digit, sign or white-space character is affected by this.
- JsValue.Get: does not model inherited properties. None of the keys the handler reads is
  an inherited property of a primitive or of `Object.prototype`.
- JsValue.Value: numbers are reals. NaN and the infinities do not occur in decoded JSON.
