# Bayut/dubizzle listing sync, modelled in Dafny

The system imports property listings from a real-estate CRM into a local
`properties` table and publishes that table as an XML feed for the Bayut and
dubizzle portals. This project models three parts of it and proves properties
of the model:

- **The import command** (`importer.dfy`, `extract.dfy`, `mapper.dfy`).
  - It finds the list of records in a response whose envelope varies.
  - It keeps the elements that carry an identity key.
  - It maps each record to the canonical listing: lookup tables, the purpose
    and rent-frequency rules, the EGP price conversion, the off-plan fields,
    the list sanitiser and the date fallback.
  - It validates each listing and stores it under its reference, counting
    successes and errors.
  - The loop is a class whose fields are the table and the counters.
  - Each mapping outcome is one of three: a listing, an exception caught per
    record, or a TypeError that nothing in the command catches.
- **The store request's rules** (`validation.dfy`). The rules are a predicate
  on a listing and the stored references. Lemmas restate them, field group by
  field group, as conditions on the CRM record the listing came from.
- **The feed** (`feed.dfy`).
  - Each stored row becomes a `Property` node, or is skipped, or makes the
    whole document fail.
  - A node is a sequence of elements in a fixed order. It has conditional rent
    and off-plan elements, and one trimmed child per entry of each list.
  - `GenerateXml` is the loop over the rows.

`php.dfy` holds the PHP semantics the code relies on:
- arrays as ordered key/value lists, and `isset`/`??`;
- truthiness;
- loose `==` against integers and names;
- numeric strings, `(string)` conversion, `trim`, `explode`, `json_encode` of
  scalars and lists.

## Where the code and its design differ

The model follows the code in each case.

- **Re-import.** The design says a second run updates existing listings in
  place. The code validates with `unique:properties,property_ref_no`, so a
  listing whose reference is already stored fails validation and counts as an
  error. `updateOrCreate` therefore only ever creates. `ReimportAddsNothing`
  proves that a second run over the same records stores nothing and counts no
  success.
- **Generated references.** A record without a `unit_code` gets a
  `UNIT-<uniqid>` reference. It also gets a null permit number, which the rules
  reject. `GeneratedReferenceRejected` proves such a listing is never stored.
- **Error isolation.** The design says one record's failure never affects
  another. In PHP 8 some inputs raise a `TypeError`, which is not an
  `\Exception`: an array used as a lookup-table offset, or an array or
  non-numeric string divided in the EGP branch. Neither `catch` in `handle()`
  catches it, so the run stops at that record. `HaltedStays` and `HaltExample`
  state this; `IsolationExample` shows the isolation that does hold for
  validation failures.
- **Studio bedrooms.** The design forces bedrooms to 0 in the canonical record
  for studios. The mapper never does: `MapRooms` makes bedrooms truthy, and
  `MapPropertyType` never yields "Studio". Only the feed writes "0" for a row
  whose type is "Studio" (`BedroomsElement`).
- **Loose comparisons.**
  - `in_array` and `==` compare loosely. A `true` id counts as purpose 1 or
    offering type 1.
  - In the feed, a portal entry `true` counts as naming Bayut (`LooseEqText`).
  - `mapOfferingType` uses `match`, which is strict, so its sale type and the
    DLD-waiver rule can disagree on a string id such as "1".

## Model

| member | source | states |
|---|---|---|
| Extraction.ExtractProperties | app/Console/Commands/ImportCrmProperties.php:157-193 | the probing loop returns exactly the first candidate path (data.data, data, properties, units, results, 0) that resolves through arrays to a properties array, else the payload itself if it is one, else the empty array; the result is empty or a properties array |
| Extraction.ExtractedShape | app/Console/Commands/ImportCrmProperties.php:180-192 | whatever extraction returns is empty or passes the properties-array test |
| Extraction.ExtractFromFirstAccepted | app/Console/Commands/ImportCrmProperties.php:168-186 | candidates are tried in order: the first accepted path is returned and no later one matters |
| Extraction.ExtractFromFallback | app/Console/Commands/ImportCrmProperties.php:188-192 | with no accepted candidate, the top level is returned if it is a properties array, and nothing otherwise |
| Extraction.PropertiesArrayFirst | app/Console/Commands/ImportCrmProperties.php:195-210 | only the first element decides the properties-array test: appending elements never changes it, a property key counts even with a null value, and a scalar first element is refused |
| Extraction.FilterRecords | app/Console/Commands/ImportCrmProperties.php:86-94 | every kept record is an array with a set `id`, `unit_code` or `title` and comes from the extracted array under the same key; every such element is kept with its key; nothing is added |
| Extraction.FilterRecordsAppend | app/Console/Commands/ImportCrmProperties.php:86-94 | the filter distributes over concatenation: records keep their order and each is judged on its own |
| Mapper.MapStatus | app/Console/Commands/ImportCrmProperties.php:262-265 | "live" exactly when availability is the string "Available" (strict), "inactive" otherwise |
| Mapper.MapPurpose | app/Console/Commands/ImportCrmProperties.php:267-273 | "Sale" exactly when the purpose loosely equals 1 and the type loosely equals 1, 2 or 3 (integer forms only, see Left out); "Rent" otherwise |
| Mapper.MapPropertyType | app/Console/Commands/ImportCrmProperties.php:252-260 | a TypeError exactly for an array id; otherwise "Villa" exactly for key 2, "Townhouse" exactly for key 3, and "Apartment" (key 1 and the default) for every other id |
| Mapper.MapCity | app/Console/Commands/ImportCrmProperties.php:285-293 | a TypeError exactly for an array id; "Abu Dhabi" exactly for key 52970, "Dubai" otherwise |
| Mapper.MapPlace | app/Console/Commands/ImportCrmProperties.php:295-309 | a TypeError exactly for an array id; otherwise the table's name for the key the id selects, and null when it selects no key of the table |
| Mapper.PlaceTables | app/Console/Commands/ImportCrmProperties.php:295-309 | for an id that is not an array: the locality is "Downtown Dubai" exactly for key 53131 and null otherwise; the sub-locality is "Burj Khalifa Area" exactly for key 53132 and null otherwise |
| Mapper.MapFurnished | app/Console/Commands/ImportCrmProperties.php:311-319 | a TypeError exactly for an array id; otherwise "Yes" exactly for key 1, "Partly" exactly for key 3, and "No" (key 2 and the default) for every other id |
| Mapper.MapRooms | app/Console/Commands/ImportCrmProperties.php:275-283 | `?: 1`: a truthy id is kept and a falsy one becomes 1, so the result is always truthy |
| Mapper.MapRentFrequency | app/Console/Commands/ImportCrmProperties.php:321-327 | a frequency exactly when the purpose is not loosely 1 and installments are set; Yearly exactly for at least 12 installments (a float-form count compares as text, see Left out) |
| Mapper.MapOfferingType | app/Console/Commands/ImportCrmProperties.php:329-336 | New exactly for the integer 1, Resale exactly for the integer 2, null otherwise (strict match) |
| Mapper.RoundTenth | app/Console/Commands/ImportCrmProperties.php:341 | the integer nearest to i/10, halves rounded away from zero |
| Mapper.ConvertPrice | app/Console/Commands/ImportCrmProperties.php:338-344 | a falsy price gives 100000; other currencies pass a truthy price through; in EGP an integer, or an integer string, becomes its value divided by ten and rounded; a TypeError exactly for an EGP array or non-numeric string, a warning exactly for an EGP leading-numeric string |
| Mapper.ConvertPriceExamples | app/Console/Commands/ImportCrmProperties.php:338-344 | 500000 EGP gives 50000, 500000 USD stays 500000, -15 EGP gives -2, 0 EGP gives the placeholder, and the placeholder itself (an absent EGP price) gives 10000 |
| Mapper.ReduceElementCases | app/Console/Commands/ImportCrmProperties.php:349-355 | an array element reduces to its `id`, else its `name`, else its `value`, else its JSON text; a string to its trim; another scalar to its string conversion |
| Mapper.SanitizeValues | app/Console/Commands/ImportCrmProperties.php:349-356 | at most one entry per value, each of them truthy |
| Mapper.SanitizeValuesSpec | app/Console/Commands/ImportCrmProperties.php:349-356 | what is kept is exactly the truthy reductions: every kept entry is the reduction of some value, and every value whose reduction is truthy is kept |
| Mapper.Sanitize | app/Console/Commands/ImportCrmProperties.php:346-362 | values other than arrays and strings give nothing; every entry is truthy; for an array, the entries are exactly the truthy reductions of its values |
| Mapper.SanitizeValuesAppend | app/Console/Commands/ImportCrmProperties.php:349-356 | sanitising distributes over concatenation: entries keep their order and are judged one by one |
| Mapper.SanitizeScalars | app/Console/Commands/ImportCrmProperties.php:349-356 | for scalar values, every entry is a string neither empty nor "0", and a value's reduction is kept exactly when it is neither |
| Mapper.SanitizeCommaList | app/Console/Commands/ImportCrmProperties.php:358-359 | a string gives the trims of its comma-separated pieces: each entry is the trim of some piece, is non-empty, not "0" and comma-free, and every piece whose trim is truthy is kept |
| Mapper.SanitizePairExample | app/Console/Commands/ImportCrmProperties.php:358-359 | a string of two comma-free pieces, the first trimming to something truthy and the second not, sanitises to the first piece's trim alone |
| Php.ExplodeImplode | app/Console/Commands/ImportCrmProperties.php:359 | exploding the implosion of comma-free pieces gives the pieces back |
| Php.ImplodeExplode | app/Console/Commands/ImportCrmProperties.php:359 | imploding the pieces of any string gives the string back: splitting loses nothing |
| Mapper.FieldMap | app/Console/Commands/ImportCrmProperties.php:214-248 | a key is set (`isset`, `??`) exactly when lookup finds it with a non-null value |
| Mapper.TextOrDefault | app/Console/Commands/ImportCrmProperties.php:229-231 | a given title or description is kept; without one, the prefix followed by the unit code's string conversion, or the prefix alone when there is no unit code; a warning exactly when the unit code is an array |
| Mapper.TowerName | app/Console/Commands/ImportCrmProperties.php:228 | null exactly when the building number is unset or "Access Denied", the building number otherwise |
| Mapper.FormatDateTime | app/Console/Commands/ImportCrmProperties.php:364-381 | the clock unless the value is a non-empty string the parser accepts, in which case the parser's output |
| Mapper.OffPlan | app/Console/Commands/ImportCrmProperties.php:236-240 | off plan exactly when `is_delivered == 0` (integer forms only, see Left out); a DLD waiver only for offering 1, 0 exactly with a truthy down payment; the original price only for offering 2 |
| Mapper.Agent | app/Console/Commands/ImportCrmProperties.php:245-247 | an array seller gives its name, phone and email (email defaulted); otherwise all three defaults |
| Mapper.Videos | app/Console/Commands/ImportCrmProperties.php:243 | at most one video: none without a truthy embed URL, the trimmed URL when it is a string |
| Mapper.FirstFault | app/Console/Commands/ImportCrmProperties.php:214-249 | no fault exactly when no lookup id is an array and neither the text nor the price raises; an array place id always crashes |
| Mapper.MapProperty | app/Console/Commands/ImportCrmProperties.php:212-250 | a listing exactly when no field raises; a TypeError only from an array offset or the EGP price; an array place id always halts; outside EGP, a record maps when no lookup id is an array and no array unit code stands in for a missing title or description |
| Mapper.MapPropertyUniqIrrelevant | app/Console/Commands/ImportCrmProperties.php:215 | with a unit code, the outcome does not depend on `uniqid()` |
| Mapper.MappedFields | app/Console/Commands/ImportCrmProperties.php:214-249 | a mapped listing's status, purpose, type, city, furnishing, size, price, rent frequency and off-plan flag are what the field mappers give for the record's values and defaults |
| Mapper.SampleMapped | app/Console/Commands/ImportCrmProperties.php:214-249 | an available record with purpose 1, type 1, area 1200 and price 85000 USD maps to a live Dubai apartment for sale of size 1200 at 85000, without a rent frequency |
| Mapper.MappedConstants | app/Console/Commands/ImportCrmProperties.php:214-249 | a mapped listing always has locality "Downtown Dubai", a null or "Burj Khalifa Area" sub-locality, size unit SQFT, null Arabic texts, portals Bayut and dubizzle, the unit code (or a UNIT- reference) as reference and permit number, truthy room counts, and a rent frequency only with purpose "Rent" |
| Mapper.MapEntry | app/Console/Commands/ImportCrmProperties.php:104-106 | the call converts the record key to the `int` parameter first: an integer key maps the record, a leading-numeric one fails it with a warning, any other key is a TypeError |
| Mapper.MapEntryKeys | app/Console/Commands/ImportCrmProperties.php:104-106 | a record keyed by its list position maps as its fields say; one keyed by a name halts |
| Php.IntArgument | app/Console/Commands/ImportCrmProperties.php:212 | a string passed to an `int` parameter is its value when it is an integer string, a warning when leading-numeric, a TypeError otherwise |
| Php.CanonicalIntOfIntToString | app/Console/Commands/ImportCrmProperties.php:291 | the decimal text of every integer selects that integer key of a lookup table |
| Php.IntArgumentOfIndex | app/Console/Commands/ImportCrmProperties.php:212 | the decimal text of an integer passes as that integer |
| Validation.ControlledRulesHold | Modules/Properties/app/Http/Requests/StorePropertyRequest.php:17-35 | the rules on the fields the mapper computes always pass for a mapped listing |
| Validation.MappedReference | Modules/Properties/app/Http/Requests/StorePropertyRequest.php:15-16 | the reference and permit pass, and the reference is unique, exactly when the CRM unit code is a non-blank string not yet stored |
| Validation.GeneratedReferenceRejected | Modules/Properties/app/Http/Requests/StorePropertyRequest.php:16 | a record without a unit code has no permit number, so its listing never passes |
| Validation.ValidAfterStore | Modules/Properties/app/Http/Requests/StorePropertyRequest.php:12-47 | storing a reference fails exactly the listing with that reference and leaves every other verdict as it was; a valid listing has a string reference not yet stored |
| Validation.MappedSizes | Modules/Properties/app/Http/Requests/StorePropertyRequest.php:20-24 | size, plot area and room rules pass exactly when the CRM values given are numeric or integer as required |
| Validation.MappedPrices | Modules/Properties/app/Http/Requests/StorePropertyRequest.php:31-38 | for a record whose EGP price does not raise, the price rules pass exactly when the price is EGP, falsy or numeric, and the resale price and down payment are numeric when given |
| Validation.MappedTexts | Modules/Properties/app/Http/Requests/StorePropertyRequest.php:28-30 | when no array unit code stands in for a text, tower, title and description pass exactly when the building number is a string and any given title or description is a non-blank string |
| Validation.MappedAgent | Modules/Properties/app/Http/Requests/StorePropertyRequest.php:43-45 | the agent rules pass exactly when an array seller has a name, a phone and a well-formed email |
| Validation.MappedValid | Modules/Properties/app/Http/Requests/StorePropertyRequest.php:12-47 | for a record that maps, the listing passes all rules exactly when its CRM record is acceptable and the update time is not blank |
| Validation.RoomRules | Modules/Properties/app/Http/Requests/StorePropertyRequest.php:23-24 | a room count passes `required\|integer` exactly when the CRM id is falsy or an integer |
| Validation.TextRules | Modules/Properties/app/Http/Requests/StorePropertyRequest.php:29-30 | a title or description passes exactly when absent (the default is never blank) or a non-blank string |
| Validation.PriceRules | Modules/Properties/app/Http/Requests/StorePropertyRequest.php:31 | the converted price passes exactly in the EGP branch, for a falsy price, or for a numeric price |
| Validation.AgentRules | Modules/Properties/app/Http/Requests/StorePropertyRequest.php:43-45 | the default agent passes; an array seller passes exactly with name, phone and well-formed email |
| Validation.DefaultEmailValid | Modules/Properties/app/Http/Requests/StorePropertyRequest.php:45 | the default agent email has the shape the email rule asks for |
| Importer.Step | app/Console/Commands/ImportCrmProperties.php:104-133 | one turn: once halted nothing changes; a TypeError halts; otherwise exactly one counter grows, success exactly for a candidate whose key is not stored, and then the store gains that entry |
| Importer.ImportAll | app/Console/Commands/ImportCrmProperties.php:101-134 | counts add up to the records seen (all of them unless halted); the store grows by exactly the successes and keeps its keys |
| Importer.StoredListings | app/Console/Commands/ImportCrmProperties.php:120-125 | every stored entry was there before, unchanged, or was a candidate under its own key |
| Importer.StoreGrows | app/Console/Commands/ImportCrmProperties.php:120-123 | the store only grows along a run |
| Importer.HaltedStays | app/Console/Commands/ImportCrmProperties.php:104-134 | after a TypeError the remaining records change nothing |
| Importer.KnownKeysAddNothing | app/Console/Commands/ImportCrmProperties.php:108-123 | a run whose candidates all carry references already stored, such as a later import with a different clock, stores nothing and counts no success |
| Importer.ReimportAddsNothing | app/Console/Commands/ImportCrmProperties.php:108-123 | re-running the same verdicts on the resulting store stores nothing new and counts no success |
| Importer.IsolationExample | app/Console/Commands/ImportCrmProperties.php:104-133 | new, rejected, new: two stored, one error |
| Importer.HaltExample | app/Console/Commands/ImportCrmProperties.php:104-134 | new, TypeError, new: one stored, the third record never reached |
| Importer.Judge | app/Console/Commands/ImportCrmProperties.php:106-118 | halt exactly on a TypeError; a candidate exactly for a mapped listing passing every rule but `unique`, keyed by its reference |
| Importer.JudgeValid | app/Console/Commands/ImportCrmProperties.php:108-109 | the validator passes a mapped listing exactly when it is a candidate whose key is not stored |
| Importer.StoredAreValid | app/Console/Commands/ImportCrmProperties.php:108-125 | every listing a run stores passed the rules and is stored under its own reference |
| Importer.Outcomes | app/Console/Commands/ImportCrmProperties.php:104-106 | the record at each position with an integer key maps as its fields say, with that turn's `uniqid()` and clock |
| Importer.Batch | app/Console/Commands/ImportCrmProperties.php:78-94 | the records handed to the loop are extracted elements, each under its key in the extracted array, no more of them than extracted elements |
| Importer.NamedFirstKeyHalts | app/Console/Commands/ImportCrmProperties.php:104-106 | a batch whose first record has a name as key halts at once: nothing stored, nothing counted |
| Importer.HaltFirst | app/Console/Commands/ImportCrmProperties.php:104-134 | a run whose first record raises a TypeError stores and counts nothing |
| Importer.Importer.constructor | app/Console/Commands/ImportCrmProperties.php:101-102 | the table as given, both counters zero |
| Importer.Importer.Settle | app/Console/Commands/ImportCrmProperties.php:105-133 | the new table and counters are one turn of the loop on the record's verdict |
| Importer.Importer.ImportAt | app/Console/Commands/ImportCrmProperties.php:104-106 | converting the key and mapping the record at position i, then settling it, is turn i of the run |
| Importer.Importer.ImportRecords | app/Console/Commands/ImportCrmProperties.php:101-134 | the table and counters after the loop are the run over the records' verdicts |
| Importer.Importer.Run | app/Console/Commands/ImportCrmProperties.php:78-134 | the table and counters after handle() are the run, from the table as it was and zero counters, over the verdicts on the payload's identified records with their keys, in order |
| Feed.ListOf | Modules/Properties/app/Http/Controllers/Api/V1/PropertiesController.php:23 | an array column gives its values; another scalar, or a string decoding to null or not decoding, gives the empty list; a string decoding to an array gives that array's values; no list exactly for a string decoding to another scalar |
| Feed.ItemText | Modules/Properties/app/Http/Controllers/Api/V1/PropertiesController.php:88 | `trim` fails exactly on an array; the text is trimmed; a string gives its trim |
| Feed.ItemTextsSpec | Modules/Properties/app/Http/Controllers/Api/V1/PropertiesController.php:86-105 | a list's children exist exactly when no entry is an array: one per entry, in order, each the entry's trimmed text |
| Feed.TrimItems | Modules/Properties/app/Http/Controllers/Api/V1/PropertiesController.php:87-89 | the per-entry loop computes the list's children |
| Feed.RenderOutcome | Modules/Properties/app/Http/Controllers/Api/V1/PropertiesController.php:22-116 | a row is skipped exactly when its portals form a list naming neither portal; it gets a node exactly when it is listed and all four lists decode with no array entry; it fails otherwise |
| Feed.RenderedLists | Modules/Properties/app/Http/Controllers/Api/V1/PropertiesController.php:39-115 | an emitted node is the document-order elements with features, images, videos and portals each carried as one trimmed child per entry, in order |
| Feed.ListsPlaced | Modules/Properties/app/Http/Controllers/Api/V1/PropertiesController.php:83-115 | the four list elements come last but one, in the order features, images, videos, portals |
| Feed.ListItemNames | Modules/Properties/app/Http/Controllers/Api/V1/PropertiesController.php:84-112 | each list element (Features, Images, Videos, Portals) is named for its children plus "s" |
| Feed.ElementsOrdered | Modules/Properties/app/Http/Controllers/Api/V1/PropertiesController.php:39-115 | a node's elements are in the fixed document order, so none appears twice |
| Feed.BasicElement | Modules/Properties/app/Http/Controllers/Api/V1/PropertiesController.php:40-62 | every leading element is present with its column's text |
| Feed.BedroomsElement | Modules/Properties/app/Http/Controllers/Api/V1/PropertiesController.php:48 | Bedrooms is "0" for a Studio and the stored count otherwise |
| Feed.LocationText | Modules/Properties/app/Http/Controllers/Api/V1/PropertiesController.php:56 | Locationtext is the city, " - ", then the locality |
| Feed.TitleFallback | Modules/Properties/app/Http/Controllers/Api/V1/PropertiesController.php:60 | the Arabic title falls back to the title |
| Feed.DescriptionFallback | Modules/Properties/app/Http/Controllers/Api/V1/PropertiesController.php:62 | the Arabic description falls back to the description |
| Feed.RentFrequencyElement | Modules/Properties/app/Http/Controllers/Api/V1/PropertiesController.php:65-69 | Rent_Frequency appears exactly for rentals, defaulting to Yearly |
| Feed.OffPlanFlag | Modules/Properties/app/Http/Controllers/Api/V1/PropertiesController.php:72-74 | Off_plan is always present as Yes or No; the sale type appears exactly when off plan, defaulting to New |
| Feed.SaleDetails | Modules/Properties/app/Http/Controllers/Api/V1/PropertiesController.php:75-80 | the DLD waiver appears exactly for off-plan New; original price and amount paid exactly for off-plan Resale |
| Feed.OffPlanTags | Modules/Properties/app/Http/Controllers/Api/V1/PropertiesController.php:71-81 | which elements the off-plan block holds for each flag and sale type |
| Feed.RenderRow | Modules/Properties/app/Http/Controllers/Api/V1/PropertiesController.php:22-116 | one turn of the loop computes the row's node |
| Feed.DocumentAppend | Modules/Properties/app/Http/Controllers/Api/V1/PropertiesController.php:22-116 | the document of two runs of rows is the first's nodes then the second's, and fails if either fails |
| Feed.DocumentSingle | Modules/Properties/app/Http/Controllers/Api/V1/PropertiesController.php:22-116 | one row contributes its node, nothing, or the failure |
| Feed.DocumentFails | Modules/Properties/app/Http/Controllers/Api/V1/PropertiesController.php:120-122 | one failing row fails the whole document |
| Feed.GenerateXml | Modules/Properties/app/Http/Controllers/Api/V1/PropertiesController.php:11-123 | the loop's document is the rows' nodes in store order, or none when a row fails |

## Left out

- Authentication and the inventory request (token, timeouts, retries,
  credentials, the HTTP status check) are not modelled. So are the `is_array`
  check on the response and the three outer `catch` blocks. `Run` starts from
  the decoded response.
- Logging and console output are not modelled.
- The database is not modelled. The table is a map from reference to listing,
  and `updateOrCreate` is a map update. The Eloquent casts that turn a stored
  listing into the feed's `Row` are not modelled either, so `Row` is not
  derived from `Record`.
- `uniqid()`, `now()` and `Carbon::parse` are parameters (`Env`). The parser
  is any partial function on strings.
- `json_encode` of the lists and of the portal constant is left out. The
  listing keeps the sanitised lists as sequences. `array_filter` keeps keys,
  so a list with removed entries encodes as an object; the model does not
  capture that. The feed's second `json_decode` is a parameter.
- Php.Classify: reads integer strings only. A float-form string that starts
  with a digit, such as "12.5" or "1e3", is read as leading-numeric, so the
  model raises a warning for an EGP price "1500.50". One without a leading
  digit, such as ".5" or "-.5", is read as non-numeric, so the model raises a
  TypeError for it. PHP converts both.
- Php.LooseEqInt and Php.LooseAtLeast: a float-form string is not numeric to
  them. `$j == n` is false for it, and `$j >= n` compares it as text with the
  decimal text of `n`. PHP 8 compares both numerically.
- Mapper.MapPurpose: a purpose id "1.0" or a type id "2.0" gives "Rent",
  where PHP gives "Sale" (`"1.0" == 1`, and `in_array` compares loosely).
- Mapper.MapRentFrequency: an installment count "9.5" gives "Yearly", because
  "9.5" is not less than "12" as text; PHP compares 9.5 >= 12 and gives
  "Monthly". A float-form purpose id "1.0" also gives a frequency where PHP
  gives none.
- Mapper.OffPlan: `is_delivered` "0.0" is not off plan, and an offering id
  "1.0" or "2.0" gives no DLD waiver or original price, where PHP matches all
  three with `==`.
- Php.IntArgument: a float-form key such as "1.5" is read as leading-numeric
  (a warning); PHP converts it with a deprecation notice.
- Validation.Numeric: accepts integers and integer strings only. Floats and
  float strings, which `numeric` accepts, are left out.
- Mapper.ConvertPrice: `round()` returns a float; the model gives an integer.
  A `true` EGP price gives 0.
- Integers are unbounded. PHP's overflow of 64-bit integers to floats is not
  modelled.
- Validation.EmailText: checks the shape of the address only (one `@` with
  text on both sides, no whitespace). It is not Laravel's full address
  grammar.
- Validation.InputRules: the `date` rule on `last_updated` is reduced to
  "not blank". The date text comes from the parameter parser or the clock.
- The DOM, CDATA sections and `saveXML` are not modelled; a node is its
  sequence of elements. A failed document stands for both 500 responses: the
  caught `\Exception`, and a `TypeError` from `trim` or `in_array` that reaches
  the framework.
- The feed never emits the agent columns, so `Row` leaves them out.
- Mapper.BuildRecord: fills a field that would raise with a placeholder.
  `MapProperty` only builds a listing when no field raises, so the placeholders
  are never observed.
- The request's `authorize()` and its use for direct API writes are not part
  of this model.
