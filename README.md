# Ediflux invoice core in Dafny

Ediflux generates Factur-X invoices: PDF documents that carry an embedded
UN/CEFACT Cross Industry Invoice (CII) XML file. It also imports such
invoices. It has a FastAPI back end written in Python and a plain
JavaScript front end. This project holds Dafny models of the parts of that
system that decide things, and proves properties about them:

- **Totals** (`invoice_generator.dfy`). `generate_invoice_pdf` computes the
  tax basis, groups VAT amounts by rate, and sums them. It then renders the
  PDF and embeds the generated XML, falling back to the plain PDF when the
  embedding fails. The bucketing loop is a method proved against reference
  sums. The proofs show that bucketing neither loses nor creates VAT, and
  that the grand total is the sum of the gross line amounts.
- **CII reading** (`cii_tree.dfy`, `xml_processor.dfy`). A parsed XML
  document is an element tree. The descendant XPath queries the code issues
  (`//a:x/b:y[/text()]`) are a suffix match on the chain of qualified names
  from the root. On top of that come `validate_cii_xml` (the root check,
  the ordered required-element checks, then the ID, seller and buyer
  checks), `extract_metadata_from_xml` (namespace merge, text and float
  reads with fallbacks, date normalisation, address joining, the `_valid`
  flag, and the exception fallback record), and the dispatch on the result
  of `extract_xml_from_pdf`.
- **Storage** (`storage.dfy`). `LocalStorage` is a class whose directory is
  a map from path to file content. Invoice ids are sanitised to
  `[A-Za-z0-9_-]`. Each id owns three paths. Save, get, list and delete are
  proved against functions over that map. Further lemmas show that a save
  is read back, and that saving or deleting one id leaves every other id
  unchanged.
- **HTTP routes** (`routes.dfy`). `create_invoice` is a method on a server
  object that writes the PDF and XML under the sanitised number, or under
  `invoice` when nothing survives sanitising. `get_invoice` is a function
  from the files, the number and the `Accept` header to a response: 400,
  404, the XML text, or the PDF file download.
- **Front end** (`frontend.dfy`). This covers:
  - the file-extension gate;
  - the French VAT number built from a SIREN, with JavaScript's `parseInt`
    and truncating `%` written out;
  - `formatFileSize`;
  - `escapeHtml`, with an unescaping partner;
  - `fillCompanyData`/`setVal` over a map of form fields;
  - the at-least-one-line rule for invoice items;
  - the upload panel's `selectedFile`/upload-button state machine.

`wrappers.dfy` holds `Option`, `Result` and the byte type. `text.dfy` holds
the string operations the code relies on: Python `strip`, JavaScript
`trim`, `endswith`, the `in` substring test, `join`, ASCII case and digit
helpers. `models.dfy` holds the request records of `models.py`.

Behaviours of the code that the proofs bring out:

- In `main.py`, an invoice number with no safe character is stored as
  `invoice`. Asking for it by that same number answers 400, while
  `invoice` itself is found (`Routes.UnsafeNumberStoredButNotRetrievable`).
- `validate_cii_xml` only checks that the ID element has a non-empty text
  node. `extract_metadata_from_xml` strips that text. So an ID made only of
  whitespace validates, yet the record is marked invalid
  (`XmlProcessor.WhitespaceIdValidatedButInvalid`).
- The front end accepts a file named just `xml` or `pdf`, since
  `split('.').pop()` of a name without a dot is the whole name
  (`Frontend.BareNameAccepted`).
- The VAT key of a negative parse is negative, because JavaScript `%`
  truncates. For example, SIREN `-5` gives key `-3` (`Frontend.NegativeSirenKey`).

Sanitising `../../etc` gives `etc` (`Storage.SafeIdTraversal`): the
comprehension in `storage.py:33` drops the dots and slashes one character
at a time.

## Model

| member | source | states |
|---|---|---|
| InvoiceGenerator.RatesMembership | invoice_generator.py:23-27 | a rate is a bucket key exactly when some line carries that rate |
| InvoiceGenerator.RateVatAbsent | invoice_generator.py:23-28 | a rate no line carries collects no VAT |
| InvoiceGenerator.SumValuesRemove | invoice_generator.py:30 | the sum of a dict's values splits into one entry plus the rest, for any entry |
| InvoiceGenerator.SumValuesUpdate | invoice_generator.py:28 | updating one bucket changes the value sum by exactly the difference |
| InvoiceGenerator.VatBuckets | invoice_generator.py:22-28 | the bucket keys are exactly the rates that occur in the items |
| InvoiceGenerator.VatBucketsSnoc | invoice_generator.py:23-28 | one more line adds its VAT to its own rate's bucket (creating it at 0 if new) and leaves every other bucket alone |
| InvoiceGenerator.BucketingPreservesVat | invoice_generator.py:22-30 | the sum of the buckets equals the sum of every line's VAT: grouping loses and creates nothing |
| InvoiceGenerator.GrandTotalIsGrossSum | invoice_generator.py:20-31 | tax basis plus total VAT equals the sum of the lines' gross amounts |
| InvoiceGenerator.GroupVatByRate | invoice_generator.py:22-28 | the loop yields one bucket per occurring rate, holding that rate's VAT total |
| InvoiceGenerator.SumBucketValues | invoice_generator.py:30 | the loop over the dict's values returns their sum |
| InvoiceGenerator.ComputeTotals | invoice_generator.py:20-31 | basis, buckets, total VAT and total with tax agree with the reference sums; no items give all zeros and no buckets |
| InvoiceGenerator.TestApiScenario | test_api.py:32-45 | the two-line test invoice gives basis 550, bucket {20: 110}, VAT 110, total 660 |
| InvoiceGenerator.GenerateInvoicePdf | invoice_generator.py:15-75 | rendering errors propagate; otherwise the XML generated is returned, with the embedded PDF, or the plain PDF when embedding raised |
| CiiTree.RenderOneStep | xml_processor.py:80-87 | a one-step path renders as `//prefix:Local`, with `/text()` when text is selected |
| CiiTree.ClarkTagEndsWith | xml_processor.py:75 | the `{uri}local` tag ends with a brace-free suffix exactly when the local name does |
| CiiTree.MergeNamespaces | xml_processor.py:130-137 | document prefixes win, built-in prefixes fill the rest, the default namespace is dropped, and nothing else appears |
| CiiTree.Select | xml_processor.py:140 | every element a descendant query returns carries the last step's name |
| CiiTree.SelectAll | xml_processor.py:140 | the same holds across a list of subtrees |
| CiiTree.Texts | xml_processor.py:140-142 | `text()` results are non-empty and no more than the matching elements |
| CiiTree.TextsNonEmpty | xml_processor.py:141 | some text is returned exactly when some matching element has non-empty text |
| CiiTree.EndsWithPathTrans | xml_processor.py:140 | a chain ending with a path also ends with any suffix of that path |
| CiiTree.SelectSuffix | xml_processor.py:140 | every match of a longer path is a match of its suffix |
| CiiTree.SelectAllSuffix | xml_processor.py:140 | the same over a list of subtrees |
| CiiTree.ResolveSuffix | xml_processor.py:140 | resolving a step suffix gives a suffix of the resolved path |
| CiiTree.ScopedTextImpliesUnscoped | xml_processor.py:89-101 | if text is found under a scoping ancestor, it is also found without the scope |
| CiiTree.ResolveAgree | xml_processor.py:137 | two namespace maps that agree on the prefixes used resolve a path identically |
| XmlProcessor.ExtractXmlFromPdf | xml_processor.py:24-57 | fails exactly when the library is missing; yields XML exactly when the payload is a string or decodable bytes, and that XML is the payload |
| XmlProcessor.ExtractFromTuple | xml_processor.py:38-52 | the usual `(name, bytes)` tuple yields the decoded bytes; a one-element tuple yields nothing |
| XmlProcessor.RenderRsmElement | xml_processor.py:80-83 | each required `rsm:` element renders as `//rsm:Name` |
| XmlProcessor.ContextPathRendered | xml_processor.py:81 | the first required path renders as the source's string |
| XmlProcessor.DocumentPathRendered | xml_processor.py:82 | the second required path renders as the source's string |
| XmlProcessor.TransactionPathRendered | xml_processor.py:83 | the third required path renders as the source's string |
| XmlProcessor.FirstMissing | xml_processor.py:85-87 | none missing iff every required path is present; otherwise the index is the first absent path, with all earlier ones present |
| XmlProcessor.Validate | xml_processor.py:60-108 | valid iff there is no error iff the document parsed as a CII invoice; syntax and other errors carry their prefixed messages; a wrong root reports the root error |
| XmlProcessor.StructureError | xml_processor.py:79-101 | no structural error iff all required elements, the ID, the seller name and the buyer name are present |
| XmlProcessor.ValidateStructure | xml_processor.py:75-103 | under a root whose local name ends with `CrossIndustryInvoice`, the verdict is the structural check's |
| XmlProcessor.ValidateNamesFirstMissing | xml_processor.py:85-87 | the reported error names the first missing required element |
| XmlProcessor.ValidateNameOrder | xml_processor.py:89-101 | with the required elements present, the checks report ID before seller before buyer |
| XmlProcessor.GetFloat | xml_processor.py:145-152 | a non-empty stripped text that parses yields its parsed value; empty or unparseable text, or no text node, yields 0.0 |
| XmlProcessor.ScopedTextDefault | xml_processor.py:169-180 | the scoped text wins when it strips to something; otherwise the unscoped stripped text; the default only when no unscoped text node exists |
| XmlProcessor.TotalAmountRead | xml_processor.py:183-193 | a total is the summation text's parse when that is non-zero; otherwise the unscoped text's parse, or 0.0 when that is empty or unparseable; with no amount element at all it is 0.0 |
| XmlProcessor.NormalizeDate | xml_processor.py:158-166 | an eight-digit date becomes YYYY-MM-DD; anything else, including the empty date, is returned unchanged |
| XmlProcessor.IssueDateNormalized | xml_processor.py:158-166 | the issue date is the normalised scoped date text |
| XmlProcessor.NonEmpty | xml_processor.py:216 | the filter keeps no empty part and is empty iff every part is empty |
| XmlProcessor.JoinAddressParts | xml_processor.py:196-217 | the address is the `, `-join of the non-empty street, "zip city" and country parts, and it is empty iff all are empty |
| XmlProcessor.MergedCovers | xml_processor.py:137 | the merged namespace map binds every prefix the queries use |
| XmlProcessor.MetadataOf | xml_processor.py:155-263 | the record is valid iff ID, seller name and buyer name are non-empty; `created_at` equals the date |
| XmlProcessor.CurrencyDefaultsToEur | xml_processor.py:178-180 | the settlement-scoped code when it strips to something, otherwise the stripped unscoped code; EUR exactly when no currency text node exists |
| XmlProcessor.MergedAgrees | xml_processor.py:131-137 | a document that keeps the built-in prefixes yields a map agreeing with them |
| XmlProcessor.PartyNameFound | xml_processor.py:169-175 | a non-empty party name comes from a text match under that party |
| XmlProcessor.ReadNamesArePresent | xml_processor.py:89-101 | a non-empty extracted ID, seller name or buyer name means the validator's corresponding check passes |
| XmlProcessor.ValidRecordPassesNameChecks | xml_processor.py:261 | a record marked valid passes the validator's ID, seller and buyer checks |
| XmlProcessor.WhitespaceIdValidatedButInvalid | xml_processor.py:89-90 | a whitespace-only ID validates, yet the extracted record is not valid |
| XmlProcessor.ExtractMetadata | xml_processor.py:111-276 | a parse failure gives exactly the fallback record: empty id, date, seller and buyer names, EUR, zero totals, not valid; a document gives the read record; the source is always `upload` |
| XmlProcessor.ValidMetadataPassesNameChecks | xml_processor.py:261 | for a document keeping the built-in prefixes, valid metadata implies the validator's name checks pass |
| Storage.SafeId | storage.py:33 | the result holds only safe characters and is no longer than the input |
| Storage.SafeIdAppend | storage.py:33 | sanitising distributes over concatenation |
| Storage.SafeIdFixpoint | storage.py:33 | an id is unchanged by sanitising iff it is all safe characters |
| Storage.SafeIdIdempotent | storage.py:33 | sanitising twice is sanitising once |
| Storage.SafeIdTraversal | storage.py:33 | `../../etc` sanitises to `etc` |
| Storage.GetPaths | storage.py:32-37 | fails with the invalid-id error iff nothing safe remains; otherwise the three paths of the sanitised id |
| Storage.PathsDisjoint | storage.py:36-37 | the three paths are distinct, and distinct ids share no path |
| Storage.UniversalNewlines | storage.py:59-60 | text read back has no carriage return, and text without one reads back unchanged |
| Storage.StoredInvoice | storage.py:51-62 | invalid-id error iff the id sanitises to empty; `None` iff the PDF or the XML is missing |
| Storage.SaveThenGet | storage.py:39-62 | after a save, get returns the saved PDF and XML, the XML exactly when it has no carriage return |
| Storage.SaveThenListed | storage.py:39-77 | after a save, the listing includes the saved metadata |
| Storage.SaveLeavesOthers | storage.py:39-62 | saving one id does not change what any other id retrieves |
| Storage.DeleteThenGone | storage.py:51-83 | after a delete, get returns `None` |
| Storage.DeleteLeavesOthers | storage.py:51-83 | deleting one id does not change what any other id retrieves |
| Storage.DeleteListing | storage.py:64-83 | deleting removes exactly that id's metadata from the listing |
| Storage.DeleteRemovesThree | storage.py:79-83 | when all three files exist, a delete removes exactly three |
| Storage.LocalStorage.constructor | storage.py:28-30 | the directory exists and its files are the existing ones |
| Storage.LocalStorage.SaveInvoice | storage.py:39-49 | an invalid id changes nothing; otherwise the three files are written and nothing else changes |
| Storage.LocalStorage.GetInvoice | storage.py:51-62 | returns the stored-invoice function of the current files |
| Storage.LocalStorage.ListInvoices | storage.py:64-77 | returns each readable `.meta.json` document once and nothing else; empty when the directory is missing |
| Storage.LocalStorage.DeleteInvoice | storage.py:79-83 | an invalid id changes nothing; otherwise exactly that id's paths are removed |
| Routes.CreateBase | main.py:40-42 | the base name is non-empty and safe: the sanitised number when that is non-empty, `invoice` otherwise |
| Routes.DefaultAcceptIsPdf | main.py:55 | a missing Accept header selects the PDF |
| Routes.XmlMediaTypesChooseXml | main.py:67 | `application/xml` and `text/xml` select the XML |
| Routes.XmlAnywhereChoosesXml | main.py:67 | any header with `xml` anywhere in it selects the XML |
| Routes.GetInvoice | main.py:54-72 | 400 iff nothing safe remains; 404 iff the PDF or the XML is missing; for a present invoice, an Accept containing `xml` gets the stored XML text (newlines normalised) and any other Accept gets the PDF download named after the raw number |
| Routes.GetAgreesWithStorage | main.py:54-65 | the route's 400 and 404 coincide with storage's invalid-id and not-found answers |
| Routes.InvoiceServer.constructor | main.py:8-9 | the server starts with the existing files |
| Routes.InvoiceServer.CreateInvoice | main.py:33-52 | a generation error answers 500 with its message and writes nothing; otherwise the PDF is returned and the PDF and XML are written under the safe base name |
| Routes.CreateThenGet | main.py:33-72 | a created invoice is retrievable by its number, as XML or as the PDF file |
| Routes.UnsafeNumberStoredButNotRetrievable | main.py:40-42 | a number with no safe character is stored as `invoice`, answers 400 by its own number, and is found as `invoice` |
| Text.LeadingCount | xml_processor.py:142 | counts exactly the leading whitespace |
| Text.TrailingCount | xml_processor.py:142 | counts exactly the trailing whitespace |
| Text.TrimStart | frontend/script.js:689 | drops exactly the leading whitespace |
| Text.Strip | xml_processor.py:142 | the result is a contiguous slice of the input with only whitespace around it, and it neither starts nor ends with whitespace |
| Text.StripClean | xml_processor.py:142 | stripping a clean string changes nothing |
| Text.StripIdempotent | xml_processor.py:142 | stripping twice is stripping once |
| Text.StripSpaceJoin | xml_processor.py:216 | stripping "zip city" of clean parts gives the single non-empty part, or both joined by a space |
| Text.EndsWithAppend | xml_processor.py:75 | a string ends with its own appended suffix |
| Text.ContainsAt | main.py:67 | a substring found at a position is contained |
| Text.ContainsHasPosition | main.py:67 | containment means some position holds the substring |
| Text.NoFirstCharNotContains | main.py:67 | if the first character of the substring never occurs, the substring is not contained |
| Text.Join | xml_processor.py:217 | an empty list joins to the empty string, a one-element list to that element, and any other join starts with the first part |
| Text.ToLowerAsciiLowers | frontend/script.js:198 | lower-casing leaves no ASCII capital, keeps every other character, and is idempotent |
| Text.NatToStringValue | frontend/script.js:690 | the decimal rendering reads back as the number |
| Text.IntToStringValue | frontend/script.js:690 | the rendering reads back as the integer: its digits for a non-negative value, a minus sign then the magnitude's digits otherwise |
| Frontend.Split | frontend/script.js:198 | there is at least one part; exactly one iff there is no separator; no part contains the separator |
| Frontend.LastSegment | frontend/script.js:198 | the popped part is the text after the last separator, or the whole string when there is none |
| Frontend.LastSegmentOfDotted | frontend/script.js:198 | the popped part of `t.ext` is `ext` |
| Frontend.LastSegmentIs | frontend/script.js:198 | the popped part is `ext` iff the string is `ext` or ends with `.ext` |
| Frontend.AcceptedIff | frontend/script.js:198-199 | a file is accepted iff its lower-cased name is `pdf` or `xml`, or ends with `.pdf` or `.xml` |
| Frontend.UpperCaseExtensionAccepted | frontend/script.js:198-199 | `facture.PDF` is accepted |
| Frontend.BareNameAccepted | frontend/script.js:198-199 | a file named `xml` is accepted |
| Frontend.InnerExtensionRejected | frontend/script.js:198-199 | `facture.pdf.txt` is rejected |
| Frontend.LeadingDigits | frontend/script.js:689 | the longest prefix of valid digits is taken, stopping at the first non-digit |
| Frontend.JsParseInt | frontend/script.js:689 | NaN iff no digit follows the optional sign and `0x`; otherwise the signed value of the digits |
| Frontend.ParseDecimal | frontend/script.js:689 | a non-empty all-digit SIREN parses to its decimal value |
| Frontend.JsRem97 | frontend/script.js:689 | JavaScript `%` by 97: quotient-remainder identity, with the remainder taking the dividend's sign |
| Frontend.VatKeyCongruent | frontend/script.js:689 | the key is congruent to 12 + 3·SIREN modulo 97 for every parse |
| Frontend.VatKeyRange | frontend/script.js:689 | for a non-negative SIREN the key lies in 0..96 and equals (12 + 3·(n mod 97)) mod 97 |
| Frontend.NegativeSirenKey | frontend/script.js:689 | a SIREN parsing to -5 gets key -3 |
| Frontend.PadStart | frontend/script.js:690 | padding reaches the target length, keeps the original as the suffix, and fills the added prefix with the fill character |
| Frontend.VatNumber | frontend/script.js:690 | the VAT number starts with `FR` and ends with the SIREN |
| Frontend.TwoDigits | frontend/script.js:690 | a key below 100 is rendered as exactly two digits |
| Frontend.VatNumberOfSiren | frontend/script.js:689-690 | a numeric SIREN gives `FR`, its two key digits, then the SIREN |
| Frontend.VatNumberOfNonNumeric | frontend/script.js:689-690 | an unparsable SIREN gives `FRNaN` followed by the SIREN |
| Frontend.FileSizeUnits | frontend/script.js:233-236 | each of octets, Ko and Mo holds exactly on its range; below 1024 the exact byte count is shown; the Ko figure lies in [1, 1024) |
| Frontend.EscapeText | frontend/script.js:737-742 | the escaped text contains no `<` and no `>` |
| Frontend.EscapeHtml | frontend/script.js:737-738 | missing or empty text gives the empty string |
| Frontend.ReferenceOfEscape | frontend/script.js:740-741 | an escaped character is read back as one character reference |
| Frontend.UnescapeChar | frontend/script.js:740-741 | unescaping undoes the escaping of one character |
| Frontend.EscapeRoundTrip | frontend/script.js:740-741 | unescaping the escaped text gives back the original text |
| Frontend.FieldValue | frontend/script.js:704 | a missing value becomes the empty string, and a present one is kept |
| Frontend.StreetLine | frontend/script.js:695 | the street line has no leading or trailing whitespace |
| Frontend.StreetLineEmpty | frontend/script.js:695 | with no number, type or name, the street line is empty |
| Frontend.WithValue | frontend/script.js:702-705 | setting a field keeps the set of fields, changes only that id, and changes nothing if the id is absent |
| Frontend.CompanyFilledOthers | frontend/script.js:679-699 | filling a company creates no field and leaves every field outside the prefix as it was |
| Frontend.CompanyFilledVat | frontend/script.js:688-691 | when the VAT field exists it receives the SIREN's VAT number |
| Frontend.CompanyForm.constructor | frontend/script.js:702-705 | the form starts with the given fields |
| Frontend.CompanyForm.SetVal | frontend/script.js:702-705 | the fields become the single-field update |
| Frontend.CompanyForm.FillCompanyData | frontend/script.js:679-699 | the fields become the company-filled map |
| Frontend.RemoveRow | frontend/script.js:303-309 | with more than one row, exactly that row is removed and the others keep their order; with one row, nothing changes; at least one row always remains |
| Frontend.LineItems.constructor | frontend/script.js:43 | the form starts with one line item |
| Frontend.LineItems.AddItem | frontend/script.js:299-313 | a fresh row is appended and the rows stay distinct |
| Frontend.LineItems.RemoveItem | frontend/script.js:303-309 | rows follow the removal rule, and the last row's removal shows the at-least-one-line error |
| Frontend.UploadMessage | frontend/script.js:272-291 | success iff imported, with the imported id in its text; every failure text starts with the import-error prefix |
| Frontend.UploadPanel.constructor | frontend/script.js:39 | no file is selected, and the button is disabled |
| Frontend.UploadPanel.HandleFileSelect | frontend/script.js:196-219 | it may also run while an upload is in flight; a rejected file changes nothing but shows the error; an accepted file is held, previewed and enables upload |
| Frontend.UploadPanel.ClearSelectedFile | frontend/script.js:221-231 | at any time, requests in flight or not, no file remains, the button is disabled and the preview is hidden |
| Frontend.UploadPanel.BeginUpload | frontend/script.js:251-267 | without a file nothing changes; otherwise the held file is sent, the button is disabled and the request is in flight |
| Frontend.UploadPanel.FinishUpload | frontend/script.js:269-295 | acting on the panel as other handlers left it during the request: success clears the file then held, failure keeps it, the message is the outcome's, and the button ends disabled iff no file is held |
| Frontend.UploadPanel.UploadFile | frontend/script.js:251-296 | when no other handler runs before the response: without a file nothing happens; success clears the file, failure keeps it; the button ends disabled iff no file is held |
| Frontend.RemoveDuringFailedUpload | frontend/script.js:164-166 | a remove click while the request is in flight, then a failure, leaves no file and a disabled button |

## Left out

- File-system and network I/O: directories, temporary files, `os.path.join`, `open`, `fetch`, the DOM and timers are not modelled. The directory is a map from path to typed content (binary, text, JSON). A read of the wrong kind counts as a read error.
- `Routes.InvoiceServer.CreateInvoice`: write failures are not modelled; the invoices directory is taken to be writable.
- The actual PDF and XML rendering, WeasyPrint, Jinja templates, the Factur-X library and the clock are function parameters of `InvoiceGenerator.GenerateInvoicePdf`. Their output is not modelled.
- The XML parser and full XPath are not modelled. lxml is represented by a parse outcome (document, syntax error, other error). Only the descendant-path queries the code issues are modelled. Text nodes are element texts; tails and mixed content are not modelled. An XPath with an unbound prefix is excluded by construction rather than raising.
- `XmlProcessor.ValidMetadataPassesNameChecks`: holds only when the document keeps the built-in `rsm`/`ram` prefixes bound to the CII namespaces. A document that rebinds them can make extraction and validation disagree, and that case is not stated.
- Floating point: amounts are `real`. `float()`, `round(x, 2)`, `toFixed(1)`, `Intl.NumberFormat` and `toLocaleDateString` are oracles passed as parameters. Rounding is not modelled.
- `Frontend.JsParseInt`: models JavaScript numbers as unbounded integers. Precision loss beyond 2^53 is not modelled.
- `Frontend.VatKeyRange`: the 0..96 range is stated only for non-negative parses. A negative parse gives a negative key, as the code computes it.
- `InvoiceGenerator.VatBuckets`: the VAT breakdown is an unordered map, so the insertion order of the dict handed to the renderers is not modelled.
- `Storage.SafeId`: `str.isalnum` is taken on ASCII letters and digits only, so non-ASCII letters and digits that Python keeps are dropped. `str.lower`/`toLowerCase` likewise change only ASCII capitals. The whitespace sets of `strip` and `trim` are the full ones.
- `XmlProcessor.NormalizeDate`: `str.isdigit` is taken on ASCII digits only. An eight-character date of other Unicode digits (full-width `２０２４０１０１`, say) is hyphenated by the code but returned unchanged by the model.
- `Storage.LocalStorage.SaveInvoice`: `json.dump(..., default=str)` is not modelled. The metadata is stored as an already-serialised JSON value.
- `Storage.LocalStorage.ListInvoices`: the order of `os.listdir` is not fixed. The contract states the elements and their uniqueness, not their order.
- `Frontend.EscapeHtml` and `Frontend.FieldValue`: only strings or a missing value are passed. Other falsy JavaScript values (0, false, NaN) and non-string values are not modelled.
- `Frontend.UploadPanel.UploadFile`: the spinner markup and the follow-up `fetchInvoices`/`showDetailView` calls are not modelled. The server response is a parameter. The `await`s are modelled by splitting the call into `BeginUpload` and `FinishUpload`, with any handler allowed in between; `UploadFile` itself is only the case where none runs. The `pending` count of requests in flight is ghost bookkeeping.
- `Frontend.UploadPanel.constructor`: `index.html` is not part of this model. The upload button is assumed to start disabled.
- The Google Cloud Storage back end, authentication (`auth/token.py`), the secure API client, invoice sending, `build.py`, and the FastAPI wiring (CORS, static files, redirects, upload and listing routes) are outside the modelled core.
- The other front-end views and helpers (invoice listing, detail view, form gathering, company search, date and currency formatting) are outside the modelled core.
