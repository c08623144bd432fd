# Color Name & Season Identifier — a verified model of the extension's core

The Chrome extension shows, for the pixel under the pointer, its colour
code, the nearest named colour and its seasonal-colour classification. This
project models its logic in Dafny and proves properties of that model:

- **Colour utilities** (`utilities.ts`, and `utilities.js` where it differs).
  These are modules `Text`, `Types`, `Utilities`, `UtilitiesCases` and
  `LegacyUtilities`. They cover:
  - hex normalisation;
  - `hexToRGB`, with `parseInt`'s NaN as `None`;
  - `RGBAtoHex`;
  - `kebabize`, `capitalizeFirstLetter` and `titleCase`;
  - the name and season display texts;
  - the six-band HSV describer.
- **Colour catalog** (`data.js`): the class `Catalog.ColorData`.
  - The catalog is a map from hex key to entry, with the key order as a field.
  - `init` caches each key's RGB value.
  - `findClosestHex` is a linear nearest-colour scan. It is specified by the
    left fold `Catalog.Scan`.
  - `getColorData` is the exact-or-nearest lookup. It stamps the record it
    returns.
- **Background coordinator** (`background.ts`): the class
  `Coordinator.Background`.
  - It holds the per-tab record map in memory and its copy in storage.
  - It handles tab events, the icon-click toggle, open and close
    acknowledgements, and recapture messages.
  - Messages sent to tabs are logged in `outbox`.
- **Legacy background script** (`background.js`): the class
  `LegacyCoordinator.LegacyBackground`. Here the whole map lives in one
  storage item, and there is the chain of `executeScript` callbacks.
- **Content agent** (`content.ts`): the class `Agent.ContentAgent`.
  - It covers the element-id table, message dispatch, the overlay (a count of
    elements) and the reconnect rule.
  - A `setTimeout` call is recorded in `scheduled` rather than run.
  - The pixel sampling lives in module `Sampler`: the crop offset, the
    averaging loop over the pixel array, and the readout.
- **Legacy content script** (`content.js`): the class
  `LegacyAgent.LegacyContentAgent`. Its differences are:
  - ids are derived from the preset main id;
  - `getTabId` retries;
  - a close request also removes the listeners;
  - reconnecting is unconditional.

Host calls are parameters of the methods. These are the port returned by
`connect`, a content script's reply, the captured image, the results of
script injection, and the canvas pixel data. JavaScript semantics are
written out where they matter:

- a tab id of 0 is falsy;
- `parseInt("0x" + c1 + c2)` reads only the longest run of hex digits;
- `Math.ceil` and `Math.round` are modelled;
- comparisons with NaN are false;
- an object used as a property name becomes `"[object Object]"`.

Where the two generations of source disagree, each is modelled in its own
module. Where documentation and code disagree, the model follows the code:

- The code of `takeScreenshot` in `background.ts` stores whatever the
  capture returned, with no failure branch. The model stores the capture
  that is passed in.
- The alpha average of `setImageData` is shown unscaled, because the
  division by 255 is discarded. `Sampler.SetImageData` shows it that way.
  The intended scaling is `Sampler.ShownAlpha`; see Findings.

## Model

| member | source | states |
|---|---|---|
| Utilities.HexLowerNoHash | source/scripts/utilities.ts:81-88 | the result is the lower-cased code without one leading '#', and holds no upper-case letter |
| Utilities.HexLowerNoHashStripsHash | source/scripts/utilities.ts:81-88 | when '#' can occur only at the front, the result holds no '#' at all |
| Utilities.HexLowerNoHashIdempotent | source/scripts/utilities.ts:81-88 | applying it twice equals applying it once exactly when the code does not begin with "##" (so always for codes with at most one '#') |
| Utilities.HexUpperWithHash | source/scripts/utilities.ts:90-99 | the result starts with '#', is '#' followed by the upper-cased digits, and holds no lower-case letter |
| Utilities.HexUpperWithHashIdempotent | source/scripts/utilities.ts:90-99 | applying it twice equals applying it once, for every string |
| Utilities.LowerOfUpperWithHash | source/scripts/utilities.ts:81-99 | the two normalisations agree: lower-casing the upper form gives the lower form |
| Utilities.ParseHexPair | source/scripts/utilities.ts:341-345 | parseInt of "0x"+c1+c2 is NaN exactly when c1 is not a hex digit, is below 256, is 16*c1+c2 for two digits and c1 alone when c2 is not a digit |
| Utilities.HexToRgb | source/scripts/utilities.ts:318-346 | the '#' is optional; three digits are each doubled, six are read in pairs, any other length gives (0,0,0); components are below 256; all-hex input gives numbers |
| Utilities.ShortHexExpands | source/scripts/utilities.ts:318-346 | #rgb reads as #rrggbb, and the '#' makes no difference |
| Utilities.Byte | source/scripts/utilities.ts:196-205 | a byte is written as exactly two lower-case hex digits that parse back as the byte |
| Utilities.PaddedHexIsByte | source/scripts/utilities.ts:196-205 | toString(16) with the one-digit zero padding gives exactly those two digits |
| Utilities.RgbaToHex | source/scripts/utilities.ts:190-209 | for bytes: '#' and the three padded bytes, followed by more characters exactly when `a` is truthy, and then they are the rounded alpha byte |
| Utilities.OpaqueHexIsBytes | source/scripts/utilities.ts:190-209 | without alpha the result is exactly '#' and the three bytes |
| Utilities.RgbHexRoundTrip | source/scripts/utilities.ts:190-209 | hexToRGB(RGBAtoHex(r,g,b,a)) == (r,g,b) for all bytes and every falsy alpha |
| Utilities.BytesReadBack | source/scripts/utilities.ts:318-346 | '#' and three bytes in hex parse back as those bytes |
| Utilities.HexRgbRoundTrip | source/scripts/utilities.ts:190-209 | the other round trip: a six-digit lower-case key read as RGB and written back is '#' and the key |
| Utilities.ByteOfDigits | source/scripts/utilities.ts:341-345 | two lower-case hex digits parse to a byte that is written back as those digits |
| Utilities.SixDigitHexToRgb | source/scripts/utilities.ts:330-334 | a six-character code without '#' is read in pairs |
| Utilities.CapitalizeFirstLetter | source/scripts/utilities.ts:101-103 | same length; the first character upper-cased and the rest unchanged |
| Utilities.Kebabize | source/scripts/utilities.ts:105-108 | the result holds no upper-case letter |
| Utilities.InsertDashesAtEveryBoundary | source/scripts/utilities.ts:105-108 | the global regular-expression replacement puts a '-' at every lower-case/upper-case boundary, pair by pair |
| Utilities.DashesOnlyAdded | source/scripts/utilities.ts:105-108 | inserting dashes adds nothing but dashes |
| Utilities.KebabizeOnlyAddsDashes | source/scripts/utilities.ts:105-108 | without its dashes the result is the input without dashes, lower-cased |
| Utilities.KebabizeInjectiveUpToCase | source/scripts/utilities.ts:105-108 | two dash-free keys with the same kebab form differ only in case |
| Utilities.Split | source/scripts/utilities.ts:111 | split(" ") gives at least one piece and no piece holds a space |
| Utilities.JoinSplit | source/scripts/utilities.ts:111-117 | joining the pieces of a split with " " gives back the string |
| Utilities.CapitalizeAll | source/scripts/utilities.ts:112-114 | every word is replaced by its capitalised form, and the count is kept |
| Utilities.CapitalizeAfterSpaces | source/scripts/utilities.ts:110-118 | the reference meaning of title case (each character after a space upper-cased) keeps the length |
| Utilities.CapitalizeAfterSpacesAt | source/scripts/utilities.ts:110-118 | a character is upper-cased exactly when it starts the string or follows a space |
| Utilities.CapitalizedWords | source/scripts/utilities.ts:110-118 | capitalising the pieces of a split and joining them is the reference meaning |
| Utilities.JoinCapitalizedWords | source/scripts/utilities.ts:110-118 | join(map(capitalizeFirstLetter, split(s))) equals the reference meaning |
| Utilities.SameSpacesSameWordCount | source/scripts/utilities.ts:111 | strings with spaces in the same places split into the same number of words |
| Utilities.TitleCase | source/scripts/utilities.ts:110-118 | the in-place loop over the words array gives the reference meaning of the lower-cased input, with the same length, character by character, and the same word count |
| Utilities.TitleCasePointwise | source/scripts/utilities.ts:110-118 | each character of the title case is the input character lower-cased, upper-cased too at a word start; the word count is kept |
| Utilities.ColorNameDisplay | source/scripts/utilities.ts:120-149 | "name [" and the source link come first; a number follows exactly when given; the text ends in '*' exactly when the source is not W3C or X11, and in ']' otherwise |
| Utilities.Bracketed | source/scripts/utilities.ts:138-147 | the number part, the ']' and the '*' follow the head as described above |
| Utilities.ColorSeasonDisplay | source/scripts/utilities.ts:151-186 | a display exists exactly when the season is one of the four, the subtype is one that season admits and the colour type is absent or fn/ca/m |
| Utilities.SeasonDisplayRejections | source/scripts/utilities.ts:165-176 | a subtype the season does not admit, or an unknown colour type, gives nothing |
| Utilities.WellTypedSeasonInfoDisplays | source/scripts/utilities.ts:151-186 | every well-typed classification is displayed as "Subtype Season", plus " [CT]" when it has a colour type |
| Utilities.ColorTypeSuffix | source/scripts/utilities.ts:182-184 | the colour-type part is empty or starts with a space |
| Utilities.ColorTypeSuffixInjective | source/scripts/utilities.ts:182-184 | different colour types give different suffixes |
| Utilities.CapitalizedSeasonNamesDiffer | source/scripts/utilities.ts:178-181 | different seasons have different capitalised names |
| Utilities.CapitalizedTypeNamesDiffer | source/scripts/utilities.ts:178-181 | different subtypes have different capitalised names |
| Utilities.ThreePartLabel | source/scripts/utilities.ts:178-184 | a label "A B suffix" of space-free A and B determines its three parts |
| Utilities.SeasonLabelInjective | source/scripts/utilities.ts:178-184 | different classifications have different labels |
| Utilities.Band | source/scripts/utilities.ts:63-75 | the six percentage bands partition the numbers: every value lies in exactly the band returned |
| Utilities.PolesArePlain | source/scripts/utilities.ts:33-48 | the pole words are not qualified with "very" or "mildly" |
| Utilities.BandTextShape | source/scripts/utilities.ts:63-75 | each band's text is "very", plain or "mildly" with the first or second pole, as the band says |
| Utilities.HsvDescription | source/scripts/utilities.ts:31-79 | the text is " (" … ")" around the band text; for "h" the band value is abs(v-240)/180*100; "very"/"mildly" and the pole appear exactly for their bands |
| Utilities.BlueIsVeryCool | source/scripts/utilities.ts:51-56 | a hue of 240 is "very cool" |
| Utilities.YellowIsVeryWarm | source/scripts/utilities.ts:51-56 | a hue of 60 is "very warm" |
| Utilities.UpperCaseHueIsNotFolded | source/scripts/utilities.ts:33-56 | "H" selects the hue poles but skips the hue folding, so 240 reads as "very warm" |
| Types.ParseSeason | source/scripts/types.ts:85 | a string names a season exactly when it is that season's name |
| Types.ParseSeasonType | source/scripts/types.ts:86-94 | a string names a subtype exactly when it is that subtype's name |
| Types.ParseColorType | source/scripts/types.ts:24 | a string names a colour type exactly when it is fn, ca or m |
| UtilitiesCases.CapitalizeFirstLetterExample | test/unit/scripts/utilities.test.ts:5-7 | capitalizeFirstLetter("helloWorld") is "HelloWorld" |
| UtilitiesCases.KebabizeExample | test/unit/scripts/utilities.test.ts:8-10 | kebabize("helloWorld") is "hello-world" |
| UtilitiesCases.InsertDashesExample | source/scripts/utilities.ts:106 | the replacement turns "helloWorld" into "hello-World" |
| UtilitiesCases.LowerExample | source/scripts/utilities.ts:106 | lower-casing "hello-World" gives "hello-world" |
| UtilitiesCases.TitleCaseExample | test/unit/scripts/utilities.test.ts:11-13 | titleCase("hello world") is "Hello World" |
| LegacyUtilities.RgbaToHex | source/scripts/utilities.js:162-176 | for bytes the result is always exactly '#' and three padded bytes, whatever the alpha |
| LegacyUtilities.AlphaIgnored | source/scripts/utilities.js:174-176 | the alpha argument has no effect on the result |
| LegacyUtilities.HalfTransparentRedLosesAlpha | source/scripts/utilities.js:174-176 | RGBAtoHex(255,0,0,0.5) is "#ff0000" in utilities.js but "#ff000080" in utilities.ts |
| Sampler.CropOffset | source/scripts/content.ts:590-593 | the offset is never negative, and the one-pixel crop covers the scaled pointer position: it starts half a pixel before that position, or at 0 when the position is below 0.5 |
| Sampler.CropOffsetMonotone | source/scripts/content.ts:590-593 | a pointer further right or down never samples further left or up |
| Sampler.CeilDiv | source/scripts/content.ts:696 | Math.ceil(s / n): the least q with s <= n*q |
| Sampler.ChannelSumBounds | source/scripts/content.ts:684-690 | a channel sum lies between pixels*min and pixels*max |
| Sampler.AverageBetweenExtremes | source/scripts/content.ts:684-697 | each averaged channel lies between that channel's least and greatest value |
| Sampler.UniformAreaAverage | source/scripts/content.ts:684-697 | an area of one colour averages to that colour |
| Sampler.AverageRgba | source/scripts/content.ts:676-697 | the summing loop over the pixel array gives the channel sums divided by the pixel count and rounded up |
| Sampler.HexToRgbIgnoresCase | source/scripts/utilities.ts:318-346 | reading a hex code back does not depend on the case of its letters |
| Sampler.ParseHexPairIgnoresCase | source/scripts/utilities.ts:341-345 | parseInt of a hex pair does not depend on its case |
| Sampler.HexDigitValueIgnoresCase | source/scripts/utilities.ts:341-345 | a hex digit has the same value in either case |
| Sampler.DisplayedHexReadsBack | source/scripts/content.ts:719-723 | the upper-cased hex shown for a colour has seven characters, starts with '#', holds no lower-case letter and reads back as that colour |
| Sampler.ShownAlpha | source/scripts/content.ts:698-700 | the intended alpha is a fraction between 0 and 1, and 1 for an opaque average |
| Sampler.OpaquePixelAlpha | source/scripts/content.ts:698-700 | for one opaque black pixel the code shows 255 where 1 is intended |
| Sampler.AlphaShownUnscaled | source/scripts/content.ts:695-711 | the alpha shown is 255 times the intended fraction, and lies in 0..255 for a byte average |
| Sampler.OpaqueCanvasShowsFullAlpha | source/scripts/content.ts:530-533 | with the canvas read without alpha every pixel is opaque, and the readout's alpha is 255 |
| Sampler.SetImageData | source/scripts/content.ts:630-723 | nothing without pixel data; otherwise the readout of the average: channels are bytes, alpha is the unscaled average in 0..255, and the hex reads back as the averaged colour |
| Catalog.NormaliseKind | source/scripts/data.js:30-32 | any data type other than "names" is read as "seasons" |
| Catalog.WithRecord | source/scripts/data.js:93-95 | writing a record of one kind leaves the other kind and the cached colour alone |
| Catalog.Distance | source/scripts/data.js:54-58 | the distance is a number exactly when both colours parsed, and 0 exactly for the same colour |
| Catalog.ScanFinds | source/scripts/data.js:47-76 | the scan finds a key exactly when some key has the kind; that key has the kind, and its distance is kept |
| Catalog.ScanNearest | source/scripts/data.js:66-71 | for a parsed origin, no key of the kind is nearer than the one found |
| Catalog.ScanFirstOfNearest | source/scripts/data.js:68-71 | for a parsed origin, every key of the kind before the one found is strictly farther (ties go to the first) |
| Catalog.ScanUnparsedKeepsFirst | source/scripts/data.js:68-71 | for an origin that does not parse, every distance is NaN and the first key of the kind is kept |
| Catalog.KeysHaveDistinctColours | source/scripts/data.js:19-22 | two catalog keys with the same RGB value are the same key |
| Catalog.TableColoursParsed | source/scripts/data.js:19-22 | after init every cached colour is numeric |
| Catalog.ScanOfTable | source/scripts/data.js:29-77 | over an initialised table the scan's key satisfies every property above, and is the key of the origin's own colour when there is one |
| Catalog.Annotated | source/scripts/data.js:93-95 | the stamped record keeps its payload, carries the match flag and the upper-case '#' code of its key |
| Catalog.LookupKeyFinds | source/scripts/data.js:79-112 | the lookup finds a key exactly when some key has the kind; it is the code itself exactly when the code has the kind, and otherwise the nearest key |
| Catalog.AnnotatingKeepsTable | source/scripts/data.js:93-95 | stamping a record keeps the key order and the cached colours |
| Catalog.StampingKeepsCache | source/scripts/data.js:93-95 | replacing an entry by one with the same cached colour keeps the cache |
| Catalog.Cached | source/scripts/data.js:20 | caching the colour keeps the names and seasons records |
| Catalog.CacheAllAt | source/scripts/data.js:19-22 | visiting keys in order caches the colour of exactly the visited entries and adds no entry |
| Catalog.ScanKeys | source/scripts/data.js:51-73 | the loop over the keys in order computes the scan |
| Catalog.ColorData.constructor | source/scripts/data.js:14-23 | the loaded table after init: same keys, every entry cached |
| Catalog.ColorData.Init | source/scripts/data.js:14-23 | every entry gets the RGB value of its own key; names and seasons are unchanged and no key is added |
| Catalog.ColorData.FindClosestHex | source/scripts/data.js:29-77 | the result is the scan's key: nothing exactly when no key has the kind, else a nearest key of the kind, the first such in key order |
| Catalog.ColorData.GetColorData | source/scripts/data.js:79-112 | the stamped record of the exact key (exact match) or of the nearest key (not exact), or nothing; only that entry of the table changes |
| Coordinator.Fresh | source/scripts/background.ts:151-155 | a new record is closed, holds the connected port and an empty screenshot |
| Coordinator.Apply | source/scripts/background.ts:211-218 | the named field reads back the new value and the other fields are kept |
| Coordinator.ReplyFor | source/scripts/background.ts:390-414 | no reply without a sender tab; success exactly to getTabId or a recapture event; the tab id only for getTabId |
| Coordinator.ClickedEntry | source/scripts/background.ts:313-343 | without success nothing changes; with success the overlay state flips, opening stores the capture, and the port is kept |
| Coordinator.ClickMessages | source/scripts/background.ts:313-343 | a click sends an open request to a closed tab and a close request to an open one; at most one more message follows, the tab's screenshot, and only after a successful open |
| Coordinator.ClickTwiceRestores | source/scripts/background.ts:313-343 | two answered clicks bring the overlay back to its state |
| Coordinator.Background.constructor | source/scripts/background.ts:23 | no records, nothing stored, nothing sent |
| Coordinator.Background.InitStorageVars | source/scripts/background.ts:141-163 | the tab gets a fresh record in memory and in storage; other tabs are untouched |
| Coordinator.Background.GetStorageVar | source/scripts/background.ts:165-192 | "" for a tab without id; otherwise the field of the tab's record, which is created first when missing |
| Coordinator.Background.SetStorageVar | source/scripts/background.ts:194-223 | nothing without id; otherwise the record (created when missing) gets the value under the key, in memory and storage |
| Coordinator.Background.HandleTabActivate | source/scripts/background.ts:56-73 | only a tab without a record gets a fresh one |
| Coordinator.Background.HandleTabCreate | source/scripts/background.ts:76-97 | a fresh record exactly for a ready page (id, url not chrome://, active, complete) |
| Coordinator.Background.HandleTabRemove | source/scripts/background.ts:100-109 | only that tab's record leaves memory; storage keeps it |
| Coordinator.Background.HandleTabUpdate | source/scripts/background.ts:112-139 | as tab creation, and only when the change itself completed |
| Coordinator.Background.TakeScreenshot | source/scripts/background.ts:416-446 | the capture is stored for the tab and sent to it |
| Coordinator.Background.OpenIdentifier | source/scripts/background.ts:448-477 | an open request is sent; only a success answer marks the tab opened and takes a screenshot |
| Coordinator.Background.CloseIdentifier | source/scripts/background.ts:479-509 | a close request is sent; only a success answer marks the tab closed |
| Coordinator.Background.HandleIconClick | source/scripts/background.ts:313-343 | for an active, loaded tab with id the record changes as ClickedEntry says and the messages are ClickMessages; no other tab changes |
| Coordinator.Background.HandleMessage | source/scripts/background.ts:390-414 | the reply is ReplyFor; a recapture event from a tab also takes a screenshot; nothing else changes |
| LegacyCoordinator.KeyOf | source/scripts/background.js:106-119 | a tab id never names the "[object Object]" record |
| LegacyCoordinator.KeyOfInjective | source/scripts/background.js:106-119 | different ids name different records |
| LegacyCoordinator.ReplyFor | source/scripts/background.js:349-363 | success exactly to getTabId or a recapture flag; the tab id only for getTabId |
| LegacyCoordinator.Chain | source/scripts/background.js:174-235 | each injection starts only after the previous one succeeded; the chain resolves exactly when all succeeded, else rejects at the first failure |
| LegacyCoordinator.LoadScripts | source/scripts/background.js:174-235 | data.js is injected only after utilities.js succeeded, content.js only after both; it resolves exactly when all three succeeded |
| LegacyCoordinator.LegacyBackground.constructor | source/scripts/background.js:14 | no records, nothing stored, not listening |
| LegacyCoordinator.LegacyBackground.InitStorageVars | source/scripts/background.js:88-104 | the key gets a cleared record and the whole map is stored |
| LegacyCoordinator.LegacyBackground.SetStorageVar | source/scripts/background.js:106-119 | the stored map replaces the one in memory, then only the tab's field changes; a missing record throws and leaves storage alone |
| LegacyCoordinator.LegacyBackground.HandleTabActivate | source/scripts/background.js:39-44 | only a tab without a record gets a cleared one |
| LegacyCoordinator.LegacyBackground.HandleTabCreate | source/scripts/background.js:47-60 | a cleared record exactly for a ready page |
| LegacyCoordinator.LegacyBackground.HandleTabRemove | source/scripts/background.js:63-68 | only that tab's record leaves memory |
| LegacyCoordinator.LegacyBackground.HandleTabUpdate | source/scripts/background.js:71-86 | as tab creation, once the change itself completed |
| LegacyCoordinator.LegacyBackground.TakeScreenshot | source/scripts/background.js:365-393 | the capture is stored and sent to the tab |
| LegacyCoordinator.LegacyBackground.OpenIdentifier | source/scripts/background.js:395-418 | only a non-null success answer marks the tab opened, takes a screenshot and starts listening |
| LegacyCoordinator.LegacyBackground.OnCloseResponseAsWritten | source/scripts/background.js:430-438 | on success the "[object Object]" record is cleared and listening stops; no other record changes |
| LegacyCoordinator.LegacyBackground.OnCloseResponse | source/scripts/background.js:430-438 | on success the tab's own record is cleared and listening stops |
| LegacyCoordinator.LegacyBackground.HandleIconClick | source/scripts/background.js:271-297 | a missing record reads as closed; closed: a rejected injection changes nothing, a resolved one sends the open request, and a success answer also marks the record opened with the capture, stores the map and sends the screenshot; opened: send close and clear the record at once, whatever the answer; listening stops only on a success answer |
| LegacyCoordinator.LegacyBackground.HandleMessage | source/scripts/background.js:349-363 | the reply is ReplyFor; a recapture flag also takes a screenshot, which stores the capture in the sender's record and the whole map, and sends it to the tab; nothing else changes |
| Agent.IdForShape | source/scripts/content.ts:72-78 | only the main element's id is "cnsi"; every other id is "cnsi-" and a lower-case name that is the key without dashes |
| Agent.WithIdsAt | source/scripts/content.ts:72-78 | every listed key gets its id and every other entry is kept |
| Agent.WithIdsIdempotent | source/scripts/content.ts:72-78 | running createIds again changes nothing |
| Agent.ActionFor | source/scripts/content.ts:130-150 | a screenshot wins over an identifier; "open" and "close" act on the overlay; a request with neither gets no answer |
| Agent.ContentAgent.constructor | source/scripts/content.ts:215-221 | empty id table, no screenshot, tab id or port, no overlay |
| Agent.ContentAgent.CreateIds | source/scripts/content.ts:72-78 | every styleClassNames key gets its id; nothing else changes |
| Agent.ContentAgent.AssignIds | source/scripts/content.ts:73-77 | the forEach assigns each given key its id |
| Agent.ContentAgent.OpenIdentifier | source/scripts/content.ts:398-410 | the page holds exactly one overlay afterwards |
| Agent.ContentAgent.CloseIdentifier | source/scripts/content.ts:390-395 | the page holds no overlay afterwards |
| Agent.ContentAgent.HandleMessages | source/scripts/content.ts:124-155 | acts as ActionFor says, answers exactly the requests it acts on, and a screenshot replaces the tab id |
| Agent.ContentAgent.ConnectToExtension | source/scripts/content.ts:237-267 | the port is what connect returned; with one, the listeners are installed and the ids created |
| Agent.ContentAgent.ReconnectToExtension | source/scripts/content.ts:224-234 | only with a port: it is dropped and exactly one connect is scheduled after 1000 ms |
| LegacyAgent.MainNotListed | source/scripts/content.js:190-220 | "main" is not among the derived keys |
| LegacyAgent.LegacyContentAgent.constructor | source/scripts/content.js:183-185 | the id table holds only main = "cnsi" |
| LegacyAgent.LegacyContentAgent.CreateIds | source/scripts/content.js:49-54 | every listed key gets "cnsi-" and its kebab form, the same id as in content.ts |
| LegacyAgent.LegacyContentAgent.AssignIds | source/scripts/content.js:50-53 | the forEach derives each id from the main id |
| LegacyAgent.LegacyContentAgent.OnTabIdReply | source/scripts/content.js:36-43 | no answer schedules another request after 1000 ms; a success answer stores the tab id |
| LegacyAgent.LegacyContentAgent.OpenIdentifier | source/scripts/content.js:402-417 | exactly one overlay afterwards |
| LegacyAgent.LegacyContentAgent.CloseIdentifier | source/scripts/content.js:394-399 | no overlay afterwards |
| LegacyAgent.LegacyContentAgent.HandleMessages | source/scripts/content.js:96-125 | as in content.ts, but a close request also removes the listeners |
| LegacyAgent.LegacyContentAgent.ConnectToExtension | source/scripts/content.js:242-270 | the port is what connect returned; with one, the listeners are installed and the ids created |
| LegacyAgent.LegacyContentAgent.ReconnectToExtension | source/scripts/content.js:232-239 | the port is dropped and a connect is scheduled after 1000 ms, unconditionally |

## Left out

- Floating-point colour spaces are not modelled: RGBtoHSV, RGBtoHCL, hexToHSL, radiansToDegrees, the cached `hsl` field and the HSL distance that findClosestHex computes but never uses. The HSV describer takes its value as a real number.
- The literal catalog table is not modelled. The catalog is an abstract map plus the key order that `Object.keys` yields; that order is a parameter.
- The squared integer RGB distance replaces `Math.sqrt`. It gives the same order.
- DOM and canvas work is not modelled: getHTML, displayNameInfo, displaySeasonInfo, fillCanvasWithHex, getCanvasContext, drawImage, the span updates, and the mouse, click, resize and scroll handlers. The overlay is a count of elements.
- Chrome host calls become inputs: storage, captureVisibleTab, sendMessage, connect, executeScript, insertCSS and removeCSS. loadStyles and unloadStyles (CSS injection) are left out. In `background.js` the listen and unlisten wrappers are the `listening` flag of `LegacyCoordinator.LegacyBackground`.
- The listener registration of `background.ts` is not modelled. There, listenToMessages and unlistenToMessages register `onConnect` listeners that add or remove handleMessage. `Coordinator.Background` keeps no record of which listeners are installed.
- Asynchronous interleavings are not modelled. Each handler runs to completion with its awaited results given, and timers are recorded, not run.
- The `onDisconnect` listener that connectToExtension installs is left out. It is a host callback.
- Case mapping is ASCII only. JavaScript's `toLowerCase` and `toUpperCase` are Unicode-aware.
- Utilities.RgbaToHex: contract stated only for byte components. NaN alpha is not a value of the model, and Truthy is about present, non-zero numbers.
- Utilities.HsvDescription: NaN values are not modelled. The bands cover every real number.
- Coordinator.Background.TakeScreenshot: a failed or undefined capture is not modelled. The capture is a string parameter.
- Coordinator.Background.SetStorageVar: the casts by key are modelled by a typed setting, so a value of the wrong type for its key cannot be passed.
- LegacyCoordinator.LegacyBackground.SetStorageVar: requires that the CNSIdata item was written before. Reading a field of the missing item throws a TypeError, and that is not modelled.
- LegacyCoordinator.LegacyBackground.TakeScreenshot: requires that the CNSIdata item was written before, for the same reason.
- LegacyCoordinator.LegacyBackground.OpenIdentifier: requires that the CNSIdata item was written before, for the same reason.
- LegacyCoordinator.LegacyBackground.HandleIconClick: requires that the CNSIdata item was written before, for the same reason. Its close branch uses the corrected callback, OnCloseResponse; the callback as written is modelled on its own as OnCloseResponseAsWritten.
- LegacyCoordinator.LegacyBackground.HandleMessage: requires that the CNSIdata item was written before, when a recapture takes a screenshot.
- LegacyCoordinator.LegacyBackground.HandleMessage: takes the sender's tab as its sender. `background.js` reads `sender.tab.id` and passes `sender.tab` without a check, so a message from a sender that is not a tab throws a TypeError there. `background.ts` returns early for such a sender instead. The model does not capture that error.
- The port in background.js is always null and is not represented.
- Sampler.SetImageData: requires whole pixels of byte values, which getImageData always returns. An empty array, which would divide by zero, cannot occur.
- Sampler: setImageCanvas is modelled only by its offset arithmetic. The null checks on the screenshot, canvas and image are DOM work.
- Catalog.ColorData.FindClosestHex: requires a loaded table on which init has run, as the script does at load time.
- Catalog.ColorData.GetColorData: requires a loaded table on which init has run, as the script does at load time.
- The helpers in utilities.js (normalisers, hexToRGB, kebabize, capitalizeFirstLetter, titleCase, the display texts, the HSV describer) are the same as in utilities.ts. hexToRGB there gets its zero default from `let r = 0` rather than "0x0", with the same result. They are covered by the Utilities members; only RGBAtoHex differs and has its own module.
- The content.js averaging and offset code is the same as in content.ts and is covered by Sampler.
- The findClosestHex loop is the method Catalog.ScanKeys, which FindClosestHex calls. It takes the catalog map as a value, because the loop only reads it.

## Findings

| source | as written | input that shows it | evidently intended | confidence | as-written member | corrected member |
|---|---|---|---|---|---|---|
| source/scripts/utilities.js:175 | `hex + a;` computes the alpha suffix and discards it, so RGBAtoHex never writes alpha | RGBAtoHex(255, 0, 0, 0.5) gives "#ff0000" | "#ff000080", as utilities.ts:208 does with `hex += aHex` | high (not executed) | LegacyUtilities.HalfTransparentRedLosesAlpha | Utilities.RgbaToHex |
| source/scripts/content.ts:698-700 | `average[component] / 255;` is computed and discarded, so the alpha shown is the 0..255 average | one opaque pixel [0, 0, 0, 255] shows alpha 255 | alpha 1, a fraction between 0 and 1, as the comment above the loop says | high (not executed) | Sampler.OpaquePixelAlpha | Sampler.ShownAlpha |
| source/scripts/background.js:435 | the close callback calls `initStorageVars(tab)` with the tab object, so the record cleared is named "[object Object]" | a successful close answer for tab 7 leaves record 7 as it was and adds "[object Object]" | clear the tab's own record, `initStorageVars(tab.id)` | high (not executed) | LegacyCoordinator.LegacyBackground.OnCloseResponseAsWritten | LegacyCoordinator.LegacyBackground.OnCloseResponse |
