# KMLchemy, modelled in Dafny

KMLchemy is a small web application that turns searches into a KML file. A user finds places
through a geocoder, either one by one in a search panel or by pasting a list of addresses into a
bulk importer. The places are collected in an ordered list of saved locations. The list is
exported as an OGC KML 2.2 document with one `Placemark` per location.

This project models the logic behind those screens:

- **`Kml`** (`kml.dfy`): the KML encoder, `generateKML`, and the empty-list guard of `downloadKML`.
  - A small reader for the documents the encoder writes states what a document contains.
  - Every embeddable list of locations reads back as its names, addresses and coordinate texts,
    in order.
  - A name holding the CDATA terminator `]]>` breaks that round trip.
- **`Mapbox`** (`mapbox.dfy`): `searchPlaces` without the network.
  - It covers the two input guards and the mapping from HTTP status to error.
  - It covers the widen-on-demand merge of the narrow (POI) answer with the broad answer.
  - The merged features are sorted stably: POIs first, then effective relevance descending.
  - What each request came to is an input (`HttpReply`).
- **`LocationSet`** (`location_set.dfy`): the saved-locations list of the home page, as a class
  with three handlers.
  - A single add checks the id only.
  - A batch add keeps the members outside a strict 0.0001° box around every saved location.
  - Remove works by id.
  - `app/page.tsx` and `components/home-client.tsx` hold the same three handlers; one class
    models both.
- **`BulkImport`** (`bulk_import.dfy`): the bulk importer.
  - `parseAddresses` has three line forms and then removes duplicates, keeping first
    occurrences.
  - The import loop keeps one result per address, settled ones first and pending ones after.
  - Only the successes are forwarded, in order.
  - The geocoder is an oracle (`lookup`), and so are the generated ids (`freshId`).
- **`LocationSearch`** (`location_search.dfy`): the search panel.
  - It covers the place-type label and the location a chosen feature becomes.
  - It covers the query / results / dropdown / error state.
- **`ExportSection`** (`export_section.dfy`): the export panel.
  - It covers the button label and its plural, and the dated file name.
  - It covers the exporting flag and the export status.
- **`Types`** (`types.dfy`): the records of `lib/types.ts`.
- **`Text`** (`text.dfy`): the JavaScript string operations the code relies on (`trim`,
  `includes`, `split`, `join`, `replace`, whole-number-to-text), over `seq<char>`.
- **`Wrappers`** (`wrappers.dfy`): the `Option` and `Result` types.

Where the code changes state, as React state setters do, the model is a class whose fields are
that state. Its methods state the whole new state. The pure parts are functions. Each function is
related by lemmas to a partner: a reader, an inverse, a reference definition or a preserved
invariant.

In a few places the code's own comments and examples suggest more than the code does. The model
follows the code:

- The merge is commented as prioritising POI results (`lib/mapbox.ts:52`). A POI from the broad
  answer is in fact dropped, not ranked first (`lib/mapbox.ts:53-54`).
- A single add rejects only a repeated id (`app/page.tsx:18`). Unlike a batch add, it does not
  reject a nearby point.
- The CSV form is commented as `"name", "address"` (`components/bulk-import.tsx:43`), and the
  component's example text writes its first line that way (`components/bulk-import.tsx:171`). The
  code only recognises `","` with no space (`components/bulk-import.tsx:44`).
  - So the line `"Starbucks", "123 Main St, Philadelphia, PA"` gives
    `Starbucks", "123 Main St, Philadelphia, PA` (`BulkImport.SpacedSampleLine`).
  - Only the form without the space gives the address (`BulkImport.CsvSampleLine`).
- `generateKML([])` still produces a document (`lib/kml.ts:3-27`). Only `downloadKML` refuses an
  empty list (`lib/kml.ts:30-32`).
- The merged list is cut to ten only on the broad path (`lib/mapbox.ts:55`).

## Model

| member | source | states |
|---|---|---|
| Types.FeatureLocation | components/location-search.tsx:79-87 | A location built from a feature takes the feature's text as name and its place name as address. Its coordinates are the geometry pair, longitude first. |
| Kml.Placemarks | lib/kml.ts:4-16 | There is one placemark per location. |
| Kml.Document | lib/kml.ts:19-26 | The document starts with the fixed header and ends with the fixed footer. |
| Kml.GenerateKml | lib/kml.ts:3-27 | The encoder's output starts with the KML header and ends with the document footer. |
| Kml.DownloadKml | lib/kml.ts:29-35 | The download fails with "No locations to export" exactly when the list is empty. Otherwise it carries the KML media type and the generated document, under the given file name or, when none is given, under `kmlchemy_export.kml`. |
| Kml.ReadPlacemarkOf | lib/kml.ts:9-15 | One placemark of an embeddable location reads back as its name, address and coordinate text, and the reader continues after it. |
| Kml.ReadMoreOf | lib/kml.ts:4-17 | Newline-joined placemarks followed by the footer read back as the fields of every location, in order. |
| Kml.DocumentThenRead | lib/kml.ts:19-26 | For any template that keeps placemarks and footer apart, a document reads back as the fields of its locations. |
| Kml.GenerateThenRead | lib/kml.ts:3-27 | Round trip: when no name or address holds `]]>` and no coordinate text holds `<`, the encoder's output reads back as exactly the locations' fields, in list order. |
| Kml.EmptyDocument | lib/kml.ts:19-26 | With no locations the document is the bare header and footer, and it reads back as no placemarks. |
| Kml.IdsIgnored | lib/kml.ts:6-7 | The document does not depend on the ids: lists that agree on names, addresses and coordinates give the same text. |
| Kml.CdataEndInNameBreaksDocument | lib/kml.ts:10 | A name containing `]]>` ends its CDATA section early, so a one-location document no longer reads back as that location. |
| Kml.SourceDistinguishable | lib/kml.ts:9-26 | No placemark can be mistaken for the document footer. |
| Mapbox.InputError | lib/mapbox.ts:16-22 | A blank query gives "Query cannot be empty" first. A missing token then gives "Mapbox token is required". There is no error exactly when both are present. |
| Mapbox.StatusError | lib/mapbox.ts:32-40 | 401 and 429 have fixed messages. Any other status gives `HTTP <status>: <text>`. The status is always carried. |
| Mapbox.StatusMessageNamesStatus | lib/mapbox.ts:39 | The generic message spells the status in decimal, so the status can be read back from it. |
| Mapbox.Score | lib/mapbox.ts:74-75 | The effective relevance is the properties relevance, else the feature relevance, else 0. An absent relevance and a relevance of 0 both fall through. |
| Mapbox.CompareIsKeyOrder | lib/mapbox.ts:65-77 | The comparator orders by the key: POI first, then higher score. It ties exactly on equal keys and is antisymmetric. |
| Mapbox.Insert | lib/mapbox.ts:65-77 | Inserting into a sorted list keeps it sorted and adds exactly that element. |
| Mapbox.RankSort | lib/mapbox.ts:64-78 | The sort's output is a permutation of its input and is sorted by the comparator. |
| Mapbox.PoiFirst | lib/mapbox.ts:70-71 | In a sorted list every POI precedes every non-POI. |
| Mapbox.ScoreNonIncreasing | lib/mapbox.ts:74-76 | Within POIs, and within non-POIs, the score never increases along a sorted list. |
| Mapbox.RankSortStable | lib/mapbox.ts:65 | The sort is stable: features with equal keys keep their input order. |
| Mapbox.InsertWithKey | lib/mapbox.ts:65 | Insertion adds the new element to its key class in front of the class's existing members, and leaves every other class unchanged. |
| Mapbox.PoiOnly | lib/mapbox.ts:53 | The result holds exactly the POI features of the input. |
| Mapbox.NonPoiOnly | lib/mapbox.ts:54 | The result holds exactly the non-POI features of the input. |
| Mapbox.FiltersOfOne | lib/mapbox.ts:53-54 | On a single feature, each filter keeps it exactly when it belongs to the filter's class. |
| Mapbox.FiltersAppend | lib/mapbox.ts:53-54 | Both filters distribute over concatenation, so they keep input order and repeats. With `FiltersOfOne` this fixes each filter's output on every input. |
| Mapbox.Take | lib/mapbox.ts:55 | `slice(0, n)` is the prefix of length min(n, length). |
| Mapbox.Merge | lib/mapbox.ts:45-61 | With three or more narrow features the result is the narrow features. After an OK broad answer it is the narrow POIs, then the broad non-POIs, cut to ten. After any other broad outcome it is the narrow features. |
| Mapbox.MergedFrom | lib/mapbox.ts:53-55 | A merged feature is a narrow POI or a broad non-POI. Broad POIs are dropped. |
| Mapbox.SearchPlaces | lib/mapbox.ts:12-92 | Covers the guard errors, the network error and the unexpected error, and the status error of a non-OK narrow reply. Success happens exactly when the guards pass and the narrow reply is OK. A successful answer keeps the query and attribution, and its features are the merged features sorted. |
| Mapbox.NarrowSufficesIgnoresBroad | lib/mapbox.ts:45 | With three or more narrow features the broad answer cannot change the result. |
| Mapbox.BroadFailureKeepsNarrow | lib/mapbox.ts:57-60 | A failed or non-OK broad request leaves the narrow features, only reordered. |
| Mapbox.SearchKeepsMergeOrderOnTies | lib/mapbox.ts:55-65 | In the answer, features with equal keys appear in merge order. |
| LocationSet.Added | app/page.tsx:16-22 | A single add leaves the list as it was when the id is present. Otherwise it appends one entry. The earlier entries never change. |
| LocationSet.Outside | app/page.tsx:26-32 | A batch member is kept exactly when it lies outside the box of every saved location. |
| LocationSet.AfterBatch | app/page.tsx:24-37 | A batch add keeps the saved list as a prefix and appends the kept members. |
| LocationSet.WithoutId | app/page.tsx:39-41 | After removal no entry with the id is left, and the list is no longer. |
| LocationSet.WithoutIdMembers | app/page.tsx:40 | Removal keeps exactly the entries whose id differs. |
| LocationSet.LocationsState.HandleLocationAdd | app/page.tsx:16-22 | The new list is the single-add list. It is unchanged when the id is present, and otherwise the old list plus the location. |
| LocationSet.LocationsState.HandleLocationsAdd | components/home-client.tsx:23-34 | The new list is the batch-add list of the old one. |
| LocationSet.LocationsState.HandleLocationRemove | components/home-client.tsx:36-38 | The new list is the old one without the id. |
| LocationSet.AddChecksOnlyId | app/page.tsx:18 | A new id is appended even at the very same coordinates. |
| LocationSet.AddKeepsIdsUnique | app/page.tsx:18-21 | Adding keeps ids unique, and adding the same location twice equals adding it once. |
| LocationSet.RemoveUndoesAdd | app/page.tsx:16-41 | Removing the id that was just added restores the list. |
| LocationSet.WithoutIdAppend | components/home-client.tsx:37 | Removal distributes over concatenation, so the relative order is kept. |
| LocationSet.AbsentIdNoChange | app/page.tsx:40 | Removing an absent id changes nothing. |
| LocationSet.RemoveIdempotent | components/home-client.tsx:37 | Removing twice equals removing once. |
| LocationSet.OutsideAppend | app/page.tsx:26 | The batch filter works member by member: it distributes over concatenation. |
| LocationSet.BatchKeepsRepeats | components/home-client.tsx:24-30 | Batch members are not compared with each other, so the same location twice is appended twice. |
| LocationSet.BatchKeepsDistance | app/page.tsx:27-31 | Every appended member stays outside the box of every previously saved location. |
| LocationSet.AllNearNoChange | app/page.tsx:34 | A batch whose members are all near saved locations changes nothing. |
| LocationSet.ExactToleranceIsDistinct | components/home-client.tsx:26-28 | The box is open: a difference of exactly 0.0001 on one axis is not a duplicate. |
| Text.Trim | components/bulk-import.tsx:40 | `trim` gives text without whitespace at either end, and it is empty exactly for all-whitespace input. |
| Text.LeadingCount | components/bulk-import.tsx:40 | The leading run that `trim` drops is all whitespace and ends at a non-whitespace character or at the end of the text. |
| Text.TrimKeepsMiddle | components/bulk-import.tsx:40 | What `trim` returns is the input itself, starting right after the leading whitespace, with only whitespace after it. |
| Text.TrimIdempotent | components/bulk-import.tsx:47 | Trimming twice equals trimming once. |
| Text.SplitThenJoin | components/bulk-import.tsx:37 | `split` on a character loses nothing: joining the parts with that character gives back the text. |
| Text.SplitHead | components/export-section.tsx:26 | The first part of a split is a prefix that ends at the first separator or at the end of the text. |
| Text.RemoveAll | components/bulk-import.tsx:47 | `replace(/"/g, '')` removes every quote and keeps every other character. |
| Text.RemoveAllOne | components/bulk-import.tsx:47 | A single character is removed exactly when it is the quote. |
| Text.RemoveAllAppend | components/bulk-import.tsx:47 | Removal distributes over concatenation, so the kept characters keep their order and count. |
| Text.Utf16Length | components/location-search.tsx:70 | `length` counts UTF-16 code units: between one and two per character. |
| Text.Utf16LengthAppend | components/location-search.tsx:70 | The length of a concatenation is the sum of the lengths. |
| Text.Utf16LengthBmp | components/location-search.tsx:70 | Text within the Basic Multilingual Plane has one code unit per character. |
| Text.AstralCharLength | components/location-search.tsx:70 | A character outside the Basic Multilingual Plane, such as an emoji, counts 2. |
| Text.DigitsRoundTrip | components/export-section.tsx:83 | A whole number's decimal text reads back as the number. |
| BulkImport.ParseLine | components/bulk-import.tsx:39-62 | A blank line contributes nothing. Any value a line contributes is non-empty and trimmed. |
| BulkImport.ParseLineCsv | components/bulk-import.tsx:44-50 | A line with `","` gives its second field, quotes removed and trimmed, or nothing when that is blank. |
| BulkImport.ParseLineQuoted | components/bulk-import.tsx:54-58 | A quoted line without `","` gives its trimmed interior, or nothing when that is blank. |
| BulkImport.ParseLineBare | components/bulk-import.tsx:61 | Any other line gives itself, trimmed. |
| BulkImport.CsvLineGivesAddress | components/bulk-import.tsx:44-48 | `"name","address"` gives the address when neither field holds a quote. |
| BulkImport.CsvSecondOfThree | components/bulk-import.tsx:45-47 | With a third field, the second field is exactly the text between the first two separators. |
| BulkImport.CsvLaterFieldsIgnored | components/bulk-import.tsx:44-48 | `"name","address","…"` gives the address, trimmed, or nothing when it is blank, whatever the later fields hold. |
| BulkImport.SpacedCsvLineGivesWholeLine | components/bulk-import.tsx:54-56 | With a space after the comma, the line is one quoted value, and the inner quotes stay. |
| BulkImport.SpacedSampleLine | components/bulk-import.tsx:171 | The component's own example line gives `Starbucks", "123 Main St, Philadelphia, PA`. |
| BulkImport.CsvSampleLine | components/bulk-import.tsx:44-48 | The same line without the space gives `123 Main St, Philadelphia, PA`. |
| BulkImport.Collect | components/bulk-import.tsx:39-62 | Every collected value is non-empty and trimmed. |
| BulkImport.Dedup | components/bulk-import.tsx:64 | `Array.from(new Set(...))` keeps the same values, each once. |
| BulkImport.DedupKeepsFirstOccurrenceOrder | components/bulk-import.tsx:64 | Deduplication keeps the order of first occurrences. |
| BulkImport.ParsedAddresses | components/bulk-import.tsx:34 | Whitespace-only text gives no addresses. |
| BulkImport.CollectAddresses | components/bulk-import.tsx:36-62 | The line loop with its `continue` branches collects exactly what the lines contribute, in line order. |
| BulkImport.RemoveDuplicates | components/bulk-import.tsx:64 | The seen-set loop produces the deduplicated list. |
| BulkImport.ParseAddresses | components/bulk-import.tsx:33-65 | `parseAddresses` returns the parsed addresses of its text. |
| BulkImport.ParsedAddressesClean | components/bulk-import.tsx:40-64 | Parsed addresses are non-empty, trimmed and distinct. |
| BulkImport.GeocodeAddress | components/bulk-import.tsx:67-89 | A location comes back exactly when there is a token, the search succeeds and it has a feature. It is built from the first, top-ranked feature with the generated id. Every failure gives nothing. |
| BulkImport.GeocodedFromAnswers | components/bulk-import.tsx:71-82 | A geocoded location carries the generated id and comes from a narrow feature or a broad non-POI feature. |
| BulkImport.Outcome | components/bulk-import.tsx:117-129 | A settled entry is success with the location, or error with "No results found". |
| BulkImport.Outcomes | components/bulk-import.tsx:111-137 | Entry j of the settled prefix is the outcome of geocoding address j with id j. |
| BulkImport.PendingResults | components/bulk-import.tsx:102-105 | The initial results are one pending entry per address. |
| BulkImport.Successes | components/bulk-import.tsx:152-154 | Every forwarded location is the location of some result. |
| BulkImport.SuccessesAppend | components/bulk-import.tsx:152-154 | The successes of a concatenation are the successes of its parts, in order. |
| BulkImport.SnapshotShape | components/bulk-import.tsx:141 | While the loop runs, the list has one entry per address with its address. The first i are settled and the rest pending. |
| BulkImport.BulkImportPanel.GeocodeAll | components/bulk-import.tsx:101-147 | The loop leaves every address settled, in address order. |
| BulkImport.BulkImportPanel.ImportAll | components/bulk-import.tsx:97-158 | After the loop, processing is off, the results are shown, and the successes are forwarded exactly when there is at least one. |
| BulkImport.BulkImportPanel.HandleBulkImport | components/bulk-import.tsx:91-159 | Blank text, a missing token or no addresses change nothing and forward nothing. Otherwise the results are the settled outcomes and the successes are forwarded when there are any. |
| BulkImport.BulkImportPanel.HandleClear | components/bulk-import.tsx:161-166 | Clearing empties the text and the results and hides the results. |
| LocationSearch.CapitalizeAll | components/location-search.tsx:129-131 | Each word is capitalised in place. |
| LocationSearch.PlaceTypeLabel | components/location-search.tsx:125-139 | A poi shows its category label, or "Business" when the category is absent or empty. Without poi, an address shows "Address". |
| LocationSearch.PlaceTypeLabelIsTable | components/location-search.tsx:125-139 | The label is set by the first of poi, address, place and locality present, each with a fixed label, and is "Location" when none is present. |
| LocationSearch.LabelDependsOnTagsOnly | components/location-search.tsx:126-137 | The label depends only on which tags are present, not on their order. |
| LocationSearch.CategoryOnlyForPoi | components/location-search.tsx:135-138 | Without poi the category is never read, and the label is one of the four fixed ones. |
| LocationSearch.CategoryLabelStep | components/location-search.tsx:129-131 | The first `_` separates the first capitalised word from the label of the rest, with a space between. |
| LocationSearch.CategoryLabelByPosition | components/location-search.tsx:129-131 | The label has the category's length. Every `_` becomes a space and each word's first character is upper-cased. Nothing else changes. |
| LocationSearch.TwoWordLabel | components/location-search.tsx:129-131 | A category with two words shows both capitalised, separated by a space. |
| LocationSearch.CoffeeShopLabel | components/location-search.tsx:129-131 | `coffee_shop` is shown as `Coffee Shop`. |
| LocationSearch.SearchableQuery | components/location-search.tsx:70 | A query is worth searching when its trimmed text is at least two UTF-16 code units long. |
| LocationSearch.ThresholdCountsCodeUnits | components/location-search.tsx:70 | One emoji on its own reaches the threshold. One ordinary letter does not. |
| LocationSearch.SearchPanel.HandleInputChange | components/location-search.tsx:63-76 | The query follows the input. A search is scheduled exactly when the trimmed input is at least two UTF-16 code units long. Otherwise the results are cleared and the dropdown hidden. |
| LocationSearch.SearchPanel.PerformSearch | components/location-search.tsx:39-61 | A blank query or a missing token changes nothing. On success the results are the answer's features and the dropdown shows exactly when there are any. On failure the results are cleared, the dropdown hidden and the error's message shown. Loading ends off. |
| LocationSearch.SearchPanel.ShowResponse | components/location-search.tsx:46-60 | An answer replaces the candidates, clears the error and opens the dropdown exactly when there is a candidate. An error clears the candidates, closes the dropdown and shows its message. Loading ends off. |
| LocationSearch.SearchPanel.HandleResultSelect | components/location-search.tsx:78-93 | The location handed on keeps the feature's id, text, place name and coordinates. The query and results are cleared and the dropdown hidden. |
| ExportSection.ButtonLabel | components/export-section.tsx:83 | The label is "Transforming..." while exporting, and otherwise starts with "Export ". |
| ExportSection.LabelCount | components/export-section.tsx:83 | A count is read only from a text that starts with "Export ". |
| ExportSection.LabelCountRoundTrip | components/export-section.tsx:83 | The idle label names the number of locations, which can be read back from it. |
| ExportSection.PluralUnlessOne | components/export-section.tsx:83 | The label ends in "s" exactly when the count is not 1. For 1 it is "Export 1 Location". |
| ExportSection.TwoLocationsLabel | cypress/e2e/integration.cy.ts:98 | Two locations give "Export 2 Locations". |
| ExportSection.BusyHidesCount | components/export-section.tsx:78-83 | While exporting, the label names no count and the button is disabled. |
| ExportSection.ExportFilename | components/export-section.tsx:26-27 | The file name starts with `kmlchemy_export_` and ends with `.kml`. |
| ExportSection.FilenameKeepsDate | components/export-section.tsx:26-27 | For `date` + `T` + `time` the file name is `kmlchemy_export_` + date + `.kml`. |
| ExportSection.FilenameMiddle | components/export-section.tsx:26 | The middle of the file name is the timestamp up to its first `T`. |
| ExportSection.ExportPanel.HandleExport | components/export-section.tsx:19-41 | An empty list leaves the state untouched. Otherwise the status is success exactly when the hand-off returns and error exactly when it throws, and exporting is off afterwards. The file handed over is the dated name with the generated document. |

## Left out

- Network requests are not modelled.
  - `fetch` and URL building with `encodeURIComponent` are left out.
  - JSON decoding and telling errors apart by the text of a `TypeError` are left out.
  - The reply to each request is an input: `HttpReply`, either `Reply` or `Rejected`.
  - A rejection says whether it was the network `TypeError`.
  - A JSON decoding failure is covered by `Rejected` with no network error.
- The browser download is not modelled: `Blob`, `URL.createObjectURL` and the anchor element.
  `Kml.DownloadKml` returns the file that would be handed over.
- Timers are left out: the 300 ms search debounce, the 150 ms pause between bulk requests and
  the 3 s reset of the export status. A scheduled search is returned as a flag, and the status
  keeps its final value.
- The bulk ids built from `Date.now()` and `Math.random()` are a parameter `freshId`, indexed by
  address position. The current time in the export panel is a given ISO string.
- Number-to-text conversion of coordinates is a parameter `fmt` of the KML encoder.
  Floating-point formatting is not modelled.
- Coordinates and relevance are `real`, not IEEE-754 doubles.
  - `Mapbox.Score` and `Mapbox.Compare` subtract without rounding.
  - `LocationSet.Near` compares exactly, and a NaN relevance has no counterpart.
- `Capitalize` upper-cases ASCII letters only. `toUpperCase` maps all of Unicode.
- Text is a sequence of Unicode scalar values, so a lone UTF-16 surrogate cannot be represented.
  Lengths that the code reads (`Text.Utf16Length`) count UTF-16 code units, as JavaScript does.
- The bulk importer's progress percentage is not modelled.
- The `maki` and `context` fields of a feature and the `type` tags of the records are left out.
  No modelled operation reads them.
- React's stale read of `locations` beside the `prev` updater is left out, because the model has
  a single writer.
- JSX, icons, `getPlaceIcon` and `components/location-list.tsx` are presentation only.
  Cypress files are cited only as evidence.
- `BulkImport.BulkImportPanel.HandleBulkImport` does not model the `catch` inside the loop,
  which records `Unknown error` or the thrown message. It cannot run, because `geocodeAddress`
  turns every failure into `null`.
- `BulkImport.ParseLine` does not model the fall-through when `split('","')` has fewer than two
  parts. That cannot happen once the line contains `","`.
- `LocationSearch.SearchPanel.PerformSearch` does not model the message "An unexpected error
  occurred" for a non-`MapboxError`. `searchPlaces` wraps every failure in a `MapboxError`.
- `handleSubmit` in the search panel is not modelled separately. It only calls `performSearch`
  on the current query when that is not blank.
- `handleClickOutside` only hides the dropdown on a click elsewhere, and it is left out.
- The `disabled` state of the export button is `ExportSection.ButtonDisabled`. It is used in
  `ExportSection.BusyHidesCount` and has no contract of its own.
- `BulkImport.BulkImportPanel.SetInputText` models only the text area's change handler.
  The example-text button is left out.
