/** xml_processor.py: the structural check of a Cross-Industry Invoice
    (`validate_cii_xml`), the metadata read from it
    (`extract_metadata_from_xml`) and the result dispatch of
    `extract_xml_from_pdf`.  Parsing and the Factur-X library are
    parameters: their outcomes are values. */
module XmlProcessor {
  import opened Wrappers
  import opened Text
  import opened CiiTree

  // ---------------------------------------------------------------------
  // extract_xml_from_pdf

  /** The Python values the Factur-X library call can return. */
  datatype PyValue =
    | PyNone
    | PyTuple(elems: seq<PyValue>)
    | PyBytes(bytes: Bytes)
    | PyStr(str: string)
    | PyOther

  /** The library call either returns a value or raises. */
  datatype LibraryCall = Returned(value: PyValue) | Raised

  const IMPORT_ERROR := "facturx library is required for PDF extraction"

  /** The XML payload of the library's result: the second member of a
      tuple of two or more, otherwise the result itself. */
  function Payload(v: PyValue): PyValue {
    if v.PyTuple? && |v.elems| >= 2 then v.elems[1] else v
  }

  /** `extract_xml_from_pdf`: `Failure` is the ImportError raised when the
      library is absent, `Success(None)` is a `None` return.  `decodeUtf8`
      is `bytes.decode('utf-8')`, `None` where that raises. */
  function ExtractXmlFromPdf(libraryAvailable: bool, call: LibraryCall, decodeUtf8: Bytes -> Option<string>)
    : (r: Result<Option<string>, string>)
    ensures r.Failure? <==> !libraryAvailable
    ensures r.Failure? ==> r.error == IMPORT_ERROR
    ensures r.Success? && r.value.Some? <==>
      libraryAvailable && call.Returned? &&
      (Payload(call.value).PyStr? ||
       (Payload(call.value).PyBytes? && decodeUtf8(Payload(call.value).bytes).Some?))
    ensures r.Success? && r.value.Some? ==>
      Payload(call.value) == PyStr(r.value.value) ||
      (Payload(call.value).PyBytes? && decodeUtf8(Payload(call.value).bytes) == r.value)
  {
    if !libraryAvailable then Failure(IMPORT_ERROR)
    else
      match call
      case Raised => Success(None)
      case Returned(result) =>
        if result.PyNone? then Success(None)
        else
          var xmlData := if result.PyTuple? && |result.elems| >= 2 then result.elems[1] else result;
          match xmlData
          case PyBytes(b) => Success(decodeUtf8(b))
          case PyStr(s) => Success(Some(s))
          case _ => Success(None)
  }

  /** The library's usual `(filename, xml_bytes)` tuple yields the decoded
      XML; a tuple shorter than two is not unpacked and yields None. */
  lemma ExtractFromTuple(name: PyValue, xml: Bytes, decodeUtf8: Bytes -> Option<string>)
    ensures ExtractXmlFromPdf(true, Returned(PyTuple([name, PyBytes(xml)])), decodeUtf8) ==
      Success(decodeUtf8(xml))
    ensures ExtractXmlFromPdf(true, Returned(PyTuple([PyBytes(xml)])), decodeUtf8) == Success(None)
  {
  }

  // ---------------------------------------------------------------------
  // Paths

  function Rsm(local: string): Step { Step("rsm", local) }
  function Ram(local: string): Step { Step("ram", local) }
  function Udt(local: string): Step { Step("udt", local) }

  /** A namespace map binding at least the built-in prefixes. */
  predicate Covers(ns: map<string, string>) {
    "rsm" in ns && "ram" in ns && "udt" in ns && "qdt" in ns
  }

  const CONTEXT_PATH := XPath([Rsm("ExchangedDocumentContext")], false)
  const DOCUMENT_PATH := XPath([Rsm("ExchangedDocument")], false)
  const TRANSACTION_PATH := XPath([Rsm("SupplyChainTradeTransaction")], false)
  const REQUIRED_ELEMENTS: seq<XPath> := [CONTEXT_PATH, DOCUMENT_PATH, TRANSACTION_PATH]

  const ID_PATH := XPath([Rsm("ExchangedDocument"), Ram("ID")], true)
  const SELLER_NAME_PATH := XPath([Ram("SellerTradeParty"), Ram("Name")], true)
  const BUYER_NAME_PATH := XPath([Ram("BuyerTradeParty"), Ram("Name")], true)

  /** The leading steps of the scoped lookups. */
  const EXCHANGED_DOCUMENT := Rsm("ExchangedDocument")
  const AGREEMENT := Ram("ApplicableHeaderTradeAgreement")
  const SETTLEMENT := Ram("ApplicableHeaderTradeSettlement")
  const SUMMATION := Ram("SpecifiedTradeSettlementHeaderMonetarySummation")

  const DATE_STEPS := [Ram("IssueDateTime"), Udt("DateTimeString")]
  const CURRENCY_STEPS := [Ram("InvoiceCurrencyCode")]

  lemma RenderRsmElement(local: string)
    ensures Render(XPath([Rsm(local)], false)) == "//rsm:" + local
  {
    RenderOneStep(Rsm(local), false);
    assert "//" + ("rsm" + ":" + local) + "" == ("//" + "rsm" + ":") + local;
    assert "//" + "rsm" + ":" == "//rsm:";
  }

  /** The required paths are spelled as in the source's check list. */
  lemma ContextPathRendered()
    ensures Render(CONTEXT_PATH) == "//rsm:ExchangedDocumentContext"
  {
    RenderRsmElement("ExchangedDocumentContext");
  }

  lemma DocumentPathRendered()
    ensures Render(DOCUMENT_PATH) == "//rsm:ExchangedDocument"
  {
    RenderRsmElement("ExchangedDocument");
  }

  lemma TransactionPathRendered()
    ensures Render(TRANSACTION_PATH) == "//rsm:SupplyChainTradeTransaction"
  {
    RenderRsmElement("SupplyChainTradeTransaction");
  }

  // ---------------------------------------------------------------------
  // validate_cii_xml

  /** What parsing the document gives: the root element and the namespace
      declarations in scope on it (None is the default namespace), or the
      message of a syntax error or of any other failure. */
  datatype ParseOutcome =
    | Document(root: Element, nsmap: map<Option<string>, string>)
    | SyntaxError(message: string)
    | OtherError(message: string)

  const ROOT_ERROR := "Root element is not CrossIndustryInvoice"
  const MISSING_ELEMENT := "Missing required element: "
  const MISSING_ID := "Missing invoice ID (ExchangedDocument/ID)"
  const MISSING_SELLER := "Missing seller name"
  const MISSING_BUYER := "Missing buyer name"

  /** `root.xpath(p, namespaces=NAMESPACES)` is non-empty (every prefix of
      the paths checked here is one of NAMESPACES). */
  predicate Present(root: Element, p: XPath) {
    Bound(NAMESPACES, p.steps) && |Elements(root, NAMESPACES, p)| > 0
  }

  /** The index of the first of `paths` that selects nothing: the check
      loop with its early return. */
  function FirstMissing(root: Element, paths: seq<XPath>): (r: Option<nat>)
    ensures r.None? <==> forall i :: 0 <= i < |paths| ==> Present(root, paths[i])
    ensures r.Some? ==> r.value < |paths| && !Present(root, paths[r.value])
    ensures r.Some? ==> forall j :: 0 <= j < r.value ==> Present(root, paths[j])
    decreases |paths|
  {
    if |paths| == 0 then None
    else if !Present(root, paths[0]) then Some(0)
    else
      match FirstMissing(root, paths[1..])
      case None => None
      case Some(i) => Some(i + 1)
  }

  /** `//rsm:ExchangedDocument/ram:ID/text()` finds a text node. */
  predicate IdPresent(root: Element) {
    |TextNodes(root, NAMESPACES, ID_PATH)| > 0
  }

  /** `//ram:SellerTradeParty/ram:Name/text()` finds a text node. */
  predicate SellerNamePresent(root: Element) {
    |TextNodes(root, NAMESPACES, SELLER_NAME_PATH)| > 0
  }

  /** `//ram:BuyerTradeParty/ram:Name/text()` finds a text node. */
  predicate BuyerNamePresent(root: Element) {
    |TextNodes(root, NAMESPACES, BUYER_NAME_PATH)| > 0
  }

  /** The document is what `validate_cii_xml` accepts: a root whose local
      name ends in CrossIndustryInvoice, the three required elements, and a
      text node for the invoice ID, the seller name and the buyer name. */
  predicate IsCiiInvoice(root: Element) {
    EndsWith(root.name.local, "CrossIndustryInvoice")
    && (forall i :: 0 <= i < |REQUIRED_ELEMENTS| ==> Present(root, REQUIRED_ELEMENTS[i]))
    && IdPresent(root) && SellerNamePresent(root) && BuyerNamePresent(root)
  }

  /** `validate_cii_xml`: `(is_valid, error_message)`. */
  function Validate(parsed: ParseOutcome): (r: (bool, Option<string>))
    ensures r.0 <==> r.1.None?
    ensures r.0 <==> parsed.Document? && IsCiiInvoice(parsed.root)
    ensures parsed.SyntaxError? ==> r == (false, Some("XML syntax error: " + parsed.message))
    ensures parsed.OtherError? ==> r == (false, Some("Validation error: " + parsed.message))
    ensures parsed.Document? && !EndsWith(parsed.root.name.local, "CrossIndustryInvoice") ==>
      r == (false, Some(ROOT_ERROR))
  {
    match parsed
    case SyntaxError(msg) => (false, Some("XML syntax error: " + msg))
    case OtherError(msg) => (false, Some("Validation error: " + msg))
    case Document(root, _) =>
      ClarkTagEndsWith(root.name, "CrossIndustryInvoice");
      if !EndsWith(ClarkTag(root.name), "CrossIndustryInvoice") then (false, Some(ROOT_ERROR))
      else
        var error := StructureError(root);
        (error.None?, error)
  }

  /** The checks after the root test, in order: the required elements,
      then the ID, seller name and buyer name text nodes. */
  function StructureError(root: Element): (r: Option<string>)
    ensures r.None? <==>
      (forall i :: 0 <= i < |REQUIRED_ELEMENTS| ==> Present(root, REQUIRED_ELEMENTS[i]))
      && IdPresent(root) && SellerNamePresent(root) && BuyerNamePresent(root)
  {
    match FirstMissing(root, REQUIRED_ELEMENTS)
    case Some(i) => Some(MISSING_ELEMENT + Render(REQUIRED_ELEMENTS[i]))
    case None =>
      if !IdPresent(root) then Some(MISSING_ID)
      else if !SellerNamePresent(root) then Some(MISSING_SELLER)
      else if !BuyerNamePresent(root) then Some(MISSING_BUYER)
      else None
  }

  /** With an acceptable root, validation reports the structure check. */
  lemma ValidateStructure(root: Element, nsmap: map<Option<string>, string>)
    requires EndsWith(root.name.local, "CrossIndustryInvoice")
    ensures Validate(Document(root, nsmap)) == (StructureError(root).None?, StructureError(root))
  {
    ClarkTagEndsWith(root.name, "CrossIndustryInvoice");
  }

  /** With an acceptable root, the first required element that is absent,
      in the order context, document, transaction, is the one named. */
  lemma ValidateNamesFirstMissing(root: Element, nsmap: map<Option<string>, string>, i: nat)
    requires EndsWith(root.name.local, "CrossIndustryInvoice")
    requires i < |REQUIRED_ELEMENTS| && !Present(root, REQUIRED_ELEMENTS[i])
    requires forall j :: 0 <= j < i ==> Present(root, REQUIRED_ELEMENTS[j])
    ensures Validate(Document(root, nsmap)) ==
      (false, Some(MISSING_ELEMENT + Render(REQUIRED_ELEMENTS[i])))
  {
    ValidateStructure(root, nsmap);
    assert FirstMissing(root, REQUIRED_ELEMENTS) == Some(i);
  }

  /** Once the structure is there, the invoice ID is checked first, then
      the seller name, then the buyer name. */
  lemma ValidateNameOrder(root: Element, nsmap: map<Option<string>, string>)
    requires EndsWith(root.name.local, "CrossIndustryInvoice")
    requires forall i :: 0 <= i < |REQUIRED_ELEMENTS| ==> Present(root, REQUIRED_ELEMENTS[i])
    ensures Validate(Document(root, nsmap)).1 ==
      if !IdPresent(root) then Some(MISSING_ID)
      else if !SellerNamePresent(root) then Some(MISSING_SELLER)
      else if !BuyerNamePresent(root) then Some(MISSING_BUYER)
      else None
  {
    ValidateStructure(root, nsmap);
    assert FirstMissing(root, REQUIRED_ELEMENTS).None?;
  }

  // ---------------------------------------------------------------------
  // extract_metadata_from_xml

  /** The nested `get_text`: the first node the path selects, stripped, or
      `default` when it selects nothing. */
  function GetText(root: Element, ns: map<string, string>, p: XPath, default: string): string
    requires Bound(ns, p.steps)
  {
    var found := TextNodes(root, ns, p);
    if |found| > 0 then PyStrip(found[0]) else default
  }

  /** First match wins: the text under `//scope/rest...` when it strips to
      something, otherwise the text under `//rest...` or `default`. */
  function ScopedText(root: Element, ns: map<string, string>, scope: Step, rest: seq<Step>, default: string): string
    requires scope.prefix in ns && Bound(ns, rest)
  {
    BoundCons(ns, scope, rest);
    var v := GetText(root, ns, XPath([scope] + rest, true), "");
    if v != "" then v else GetText(root, ns, XPath(rest, true), default)
  }

  /** The nested `get_float` with its default 0.0; `parseFloat` is
      Python's `float()` on a string, None where it raises ValueError. */
  function GetFloat(root: Element, ns: map<string, string>, p: XPath, parseFloat: string -> Option<real>): (r: real)
    requires Bound(ns, p.steps)
    ensures |TextNodes(root, ns, p)| == 0 ==> r == 0.0
    ensures var t := GetText(root, ns, p, "");
      (t != "" && parseFloat(t).Some? ==> r == parseFloat(t).value) &&
      (t == "" || parseFloat(t).None? ==> r == 0.0)
  {
    var text := GetText(root, ns, p, "");
    if text == "" then 0.0
    else
      match parseFloat(text)
      case Some(v) => v
      case None => 0.0
  }

  /** A monetary total: the amount under the header monetary summation,
      or the unscoped amount when that reads as zero. */
  function TotalAmount(root: Element, ns: map<string, string>, name: string, parseFloat: string -> Option<real>): real
    requires Covers(ns)
  {
    var v := GetFloat(root, ns, XPath([SUMMATION, Ram(name)], true), parseFloat);
    if v == 0.0 then GetFloat(root, ns, XPath([Ram(name)], true), parseFloat) else v
  }

  /** The invoice number, read from `//rsm:ExchangedDocument/ram:ID/text()`. */
  function InvoiceId(root: Element, ns: map<string, string>): string
    requires Covers(ns)
  {
    GetText(root, ns, ID_PATH, "")
  }

  /** The first-match rule: text under the scope wins when it strips to
      something; otherwise the unscoped text is used, and the default only
      when the unscoped path (and so the scoped one) has no text node. */
  lemma ScopedTextDefault(root: Element, ns: map<string, string>, scope: Step, rest: seq<Step>, default: string)
    requires scope.prefix in ns && Bound(ns, rest) && Bound(ns, [scope] + rest)
    ensures var r := ScopedText(root, ns, scope, rest, default);
      var scoped := TextNodes(root, ns, XPath([scope] + rest, true));
      var unscoped := TextNodes(root, ns, XPath(rest, true));
      && (|scoped| > 0 && PyStrip(scoped[0]) != "" ==> r == PyStrip(scoped[0]))
      && (!(|scoped| > 0 && PyStrip(scoped[0]) != "") && |unscoped| > 0 ==> r == PyStrip(unscoped[0]))
      && (|unscoped| == 0 ==> r == default)
      && (|unscoped| > 0 ==> Clean(r, IsPythonSpace))
  {
    var scopedPath := XPath([scope] + rest, true);
    var unscopedPath := XPath(rest, true);
    assert scopedPath.steps[|scopedPath.steps| - |unscopedPath.steps|..] == unscopedPath.steps;
    ScopedTextImpliesUnscoped(root, ns, scopedPath, unscopedPath);
  }

  /** A total is read from the monetary summation when that text parses
      to a non-zero amount; otherwise from the unscoped element, as 0.0
      when that is missing or unparseable; with no amount element at all
      it is 0.0. */
  lemma TotalAmountRead(root: Element, ns: map<string, string>, name: string, parseFloat: string -> Option<real>)
    requires Covers(ns)
    ensures var r := TotalAmount(root, ns, name, parseFloat);
      var s := GetText(root, ns, XPath([SUMMATION, Ram(name)], true), "");
      var u := GetText(root, ns, XPath([Ram(name)], true), "");
      && (s != "" && parseFloat(s).Some? && parseFloat(s).value != 0.0 ==> r == parseFloat(s).value)
      && (!(s != "" && parseFloat(s).Some? && parseFloat(s).value != 0.0) ==>
            r == (if u != "" && parseFloat(u).Some? then parseFloat(u).value else 0.0))
      && (|TextNodes(root, ns, XPath([Ram(name)], true))| == 0 ==> r == 0.0)
  {
    var scopedPath := XPath([SUMMATION, Ram(name)], true);
    var unscopedPath := XPath([Ram(name)], true);
    assert scopedPath.steps[|scopedPath.steps| - |unscopedPath.steps|..] == unscopedPath.steps;
    ScopedTextImpliesUnscoped(root, ns, scopedPath, unscopedPath);
  }

  /** An eight-digit `YYYYMMDD` string. */
  predicate IsCompactDate(d: string) {
    |d| == 8 && AllDigits(d)
  }

  function Hyphenate(d: string): string
    requires |d| == 8
  {
    d[..4] + "-" + d[4..6] + "-" + d[6..8]
  }

  /** The date rewrite: `YYYYMMDD` becomes `YYYY-MM-DD`, anything else is
      kept. */
  function NormalizeDate(d: string): (r: string)
    ensures IsCompactDate(d) ==>
      |r| == 10 && r[4] == '-' && r[7] == '-' && r[..4] + r[5..7] + r[8..] == d
    ensures !IsCompactDate(d) ==> r == d
    ensures d == "" ==> r == ""
  {
    if IsCompactDate(d) then
      var r := Hyphenate(d);
      assert r[..4] == d[..4] && r[5..7] == d[4..6] && r[8..] == d[6..8];
      assert d == d[..4] + d[4..6] + d[6..8];
      r
    else d
  }

  /** The issue date as the source computes it: the scoped date, hyphenated
      when it has eight digits; only when empty, the unscoped date,
      hyphenated likewise. */
  function IssueDate(root: Element, ns: map<string, string>): string
    requires Covers(ns)
  {
    var dateStr := GetText(root, ns, XPath([EXCHANGED_DOCUMENT] + DATE_STEPS, true), "");
    if dateStr != "" && |dateStr| == 8 && AllDigits(dateStr) then Hyphenate(dateStr)
    else if dateStr == "" then
      var fallback := GetText(root, ns, XPath(DATE_STEPS, true), "");
      if fallback != "" && |fallback| == 8 && AllDigits(fallback) then Hyphenate(fallback) else fallback
    else dateStr
  }

  /** The issue date is the first-match date, normalised once. */
  lemma IssueDateNormalized(root: Element, ns: map<string, string>)
    requires Covers(ns)
    ensures IssueDate(root, ns) == NormalizeDate(ScopedText(root, ns, EXCHANGED_DOCUMENT, DATE_STEPS, ""))
  {
  }

  /** The non-empty members, in order. */
  function NonEmpty(parts: seq<string>): (r: seq<string>)
    ensures forall k :: 0 <= k < |r| ==> r[k] != ""
    ensures |r| == 0 <==> forall k :: 0 <= k < |parts| ==> parts[k] == ""
    decreases |parts|
  {
    if |parts| == 0 then []
    else if parts[0] == "" then NonEmpty(parts[1..])
    else [parts[0]] + NonEmpty(parts[1..])
  }

  /** The address line: the `", "` join of the non-empty members of
      street, `f"{zip} {city}".strip()` and country. */
  function JoinAddress(street: string, zip: string, city: string, country: string): string {
    var parts := NonEmpty([street, PyStrip(zip + " " + city), country]);
    if |parts| > 0 then Join(parts, ", ") else ""
  }

  /** The postcode and city joined by one space, either alone if the other
      is empty. */
  function ZipCity(zip: string, city: string): string {
    if zip == "" then city else if city == "" then zip else zip + " " + city
  }

  /** For stripped fields (which `get_text` returns), the middle member is
      the postcode and city with no stray space, and the address is empty
      exactly when all four fields are. */
  lemma JoinAddressParts(street: string, zip: string, city: string, country: string)
    requires Clean(street, IsPythonSpace) && Clean(zip, IsPythonSpace)
    requires Clean(city, IsPythonSpace) && Clean(country, IsPythonSpace)
    ensures JoinAddress(street, zip, city, country) ==
      Join(NonEmpty([street, ZipCity(zip, city), country]), ", ")
    ensures JoinAddress(street, zip, city, country) == "" <==>
      street == "" && zip == "" && city == "" && country == ""
  {
    assert IsPythonSpace(' ');
    StripSpaceJoin(zip, city, IsPythonSpace);
    assert PyStrip(zip + " " + city) == ZipCity(zip, city);
    var parts := NonEmpty([street, ZipCity(zip, city), country]);
    if |parts| > 0 {
      assert parts[0] != "";
    } else {
      var all := [street, ZipCity(zip, city), country];
      assert all[0] == "" && all[1] == "" && all[2] == "";
      assert ZipCity(zip, city) == "";
    }
  }

  /** The fields read for one trading party. */
  datatype PartyFields = PartyFields(name: string, address: string, vat: string)

  function PartyField(root: Element, ns: map<string, string>, party: string, field: seq<Step>): string
    requires Covers(ns) && Bound(ns, field)
  {
    BoundCons(ns, Ram(party), field);
    ScopedText(root, ns, AGREEMENT, [Ram(party)] + field, "")
  }

  /** The name of the `party` element. */
  function PartyName(root: Element, ns: map<string, string>, party: string): string
    requires Covers(ns)
  {
    PartyField(root, ns, party, [Ram("Name")])
  }

  /** The address line of the `party` element. */
  function PartyAddress(root: Element, ns: map<string, string>, party: string): string
    requires Covers(ns)
  {
    var street := PartyField(root, ns, party, [Ram("PostalTradeAddress"), Ram("LineOne")]);
    var city := PartyField(root, ns, party, [Ram("PostalTradeAddress"), Ram("CityName")]);
    var zip := PartyField(root, ns, party, [Ram("PostalTradeAddress"), Ram("PostcodeCode")]);
    var country := PartyField(root, ns, party, [Ram("PostalTradeAddress"), Ram("CountryID")]);
    JoinAddress(street, zip, city, country)
  }

  /** Name, address line and VAT registration of the `party` element
      (SellerTradeParty or BuyerTradeParty). */
  function ExtractParty(root: Element, ns: map<string, string>, party: string): PartyFields
    requires Covers(ns)
  {
    PartyFields(
      PartyName(root, ns, party),
      PartyAddress(root, ns, party),
      PartyField(root, ns, party, [Ram("SpecifiedTaxRegistration"), Ram("ID")]))
  }

  const SOURCE_UPLOAD := "upload"

  /** The metadata dictionary.  `Extracted` is the record read from a
      parsed document (its `source` is always "upload"); `DefaultRecord`
      is the fixed record returned when anything raises: empty id, date,
      seller and buyer names, currency "EUR", zero totals, not valid.  It
      has no address, VAT-number or tax-total keys. */
  datatype Metadata =
    | Extracted(
        id: string, date: string,
        sellerName: string, sellerAddress: string, sellerVat: string,
        buyerName: string, buyerAddress: string, buyerVat: string,
        currency: string, totalHt: real, totalTtc: real, totalTax: real,
        createdAt: string, valid: bool)
    | DefaultRecord
  {
    /** `metadata['id']` */
    function Id(): string { if Extracted? then id else "" }
    /** `metadata['date']` */
    function Date(): string { if Extracted? then date else "" }
    /** `metadata['seller_name']` */
    function SellerName(): string { if Extracted? then sellerName else "" }
    /** `metadata['buyer_name']` */
    function BuyerName(): string { if Extracted? then buyerName else "" }
    /** `metadata['currency']` */
    function Currency(): string { if Extracted? then currency else "EUR" }
    /** `metadata['total_ht']` */
    function TotalHt(): real { if Extracted? then totalHt else 0.0 }
    /** `metadata['total_ttc']` */
    function TotalTtc(): real { if Extracted? then totalTtc else 0.0 }
    /** `metadata['_valid']` */
    function Valid(): bool { Extracted? && valid }
    /** `metadata['source']` */
    function Source(): string { SOURCE_UPLOAD }
  }

  /** The merged namespace map binds the four built-in prefixes. */
  lemma MergedCovers(docNsmap: map<Option<string>, string>)
    ensures Covers(MergeNamespaces(docNsmap))
  {
    assert "rsm" in NAMESPACES && "ram" in NAMESPACES && "udt" in NAMESPACES && "qdt" in NAMESPACES;
  }

  /** The record read from a parsed root under the namespace map `ns`. */
  function MetadataOf(root: Element, ns: map<string, string>, parseFloat: string -> Option<real>, round2: real -> real)
    : (m: Metadata)
    requires Covers(ns)
    ensures m.Extracted? && (m.valid <==> m.id != "" && m.sellerName != "" && m.buyerName != "")
    ensures m.createdAt == m.date
  {
    var invoiceId := InvoiceId(root, ns);
    var date := IssueDate(root, ns);
    var seller := ExtractParty(root, ns, "SellerTradeParty");
    var buyer := ExtractParty(root, ns, "BuyerTradeParty");
    var currency := Currency(root, ns);
    Extracted(
      invoiceId, date,
      seller.name, seller.address, seller.vat,
      buyer.name, buyer.address, buyer.vat,
      currency,
      round2(TotalAmount(root, ns, "TaxBasisTotalAmount", parseFloat)),
      round2(TotalAmount(root, ns, "GrandTotalAmount", parseFloat)),
      round2(TotalAmount(root, ns, "TaxTotalAmount", parseFloat)),
      date, invoiceId != "" && seller.name != "" && buyer.name != "")
  }

  /** The currency code, under the header settlement first, "EUR" when
      no code is found. */
  function Currency(root: Element, ns: map<string, string>): string
    requires Covers(ns)
  {
    ScopedText(root, ns, SETTLEMENT, CURRENCY_STEPS, "EUR")
  }

  /** The currency code comes from the header settlement when that text
      strips to something, otherwise from any InvoiceCurrencyCode, and is
      "EUR" only when no such text node exists anywhere. */
  lemma CurrencyDefaultsToEur(root: Element, ns: map<string, string>)
    requires Covers(ns)
    ensures var scoped := TextNodes(root, ns, XPath([SETTLEMENT, Ram("InvoiceCurrencyCode")], true));
      var unscoped := TextNodes(root, ns, XPath(CURRENCY_STEPS, true));
      var currency := Currency(root, ns);
      && (|scoped| > 0 && PyStrip(scoped[0]) != "" ==> currency == PyStrip(scoped[0]))
      && (!(|scoped| > 0 && PyStrip(scoped[0]) != "") && |unscoped| > 0 ==> currency == PyStrip(unscoped[0]))
      && (|unscoped| == 0 ==> currency == "EUR")
  {
    assert [SETTLEMENT] + CURRENCY_STEPS == [SETTLEMENT, Ram("InvoiceCurrencyCode")];
    ScopedTextDefault(root, ns, SETTLEMENT, CURRENCY_STEPS, "EUR");
  }

  /** The document leaves the built-in prefixes bound as the table does. */
  predicate KeepsBuiltinPrefixes(nsmap: map<Option<string>, string>) {
    && (Some("rsm") in nsmap ==> nsmap[Some("rsm")] == RSM_URI)
    && (Some("ram") in nsmap ==> nsmap[Some("ram")] == RAM_URI)
    && (Some("udt") in nsmap ==> nsmap[Some("udt")] == UDT_URI)
    && (Some("qdt") in nsmap ==> nsmap[Some("qdt")] == QDT_URI)
  }

  /** A namespace map binding the built-in prefixes as the table does. */
  predicate AgreesWithBuiltins(ns: map<string, string>) {
    && "rsm" in ns && ns["rsm"] == RSM_URI
    && "ram" in ns && ns["ram"] == RAM_URI
    && "udt" in ns && ns["udt"] == UDT_URI
    && "qdt" in ns && ns["qdt"] == QDT_URI
  }

  lemma MergedAgrees(nsmap: map<Option<string>, string>)
    requires KeepsBuiltinPrefixes(nsmap)
    ensures AgreesWithBuiltins(MergeNamespaces(nsmap))
  {
    assert "rsm" in NAMESPACES && "ram" in NAMESPACES && "udt" in NAMESPACES && "qdt" in NAMESPACES;
  }

  /** A party name that reads as non-empty was found as a text node of
      the unscoped `//ram:<party>/ram:Name/text()`. */
  lemma PartyNameFound(root: Element, ns: map<string, string>, party: string)
    requires Covers(ns)
    ensures PartyName(root, ns, party) != "" ==>
      |TextNodes(root, ns, XPath([Ram(party), Ram("Name")], true))| > 0
  {
    var rest := [Ram(party)] + [Ram("Name")];
    assert rest == [Ram(party), Ram("Name")];
    BoundCons(ns, Ram(party), [Ram("Name")]);
    BoundCons(ns, AGREEMENT, rest);
    ScopedTextDefault(root, ns, AGREEMENT, rest, "");
  }

  /** Under a map that agrees with the table, a non-empty invoice ID or
      party name was found by the very path `validate_cii_xml` checks. */
  lemma ReadNamesArePresent(root: Element, ns: map<string, string>)
    requires AgreesWithBuiltins(ns)
    ensures InvoiceId(root, ns) != "" ==> IdPresent(root)
    ensures PartyName(root, ns, "SellerTradeParty") != "" ==> SellerNamePresent(root)
    ensures PartyName(root, ns, "BuyerTradeParty") != "" ==> BuyerNamePresent(root)
  {
    ResolveAgree(ns, NAMESPACES, ID_PATH.steps);
    ResolveAgree(ns, NAMESPACES, SELLER_NAME_PATH.steps);
    ResolveAgree(ns, NAMESPACES, BUYER_NAME_PATH.steps);
    PartyNameFound(root, ns, "SellerTradeParty");
    PartyNameFound(root, ns, "BuyerTradeParty");
  }

  /** A record marked valid was read from a document that passes the ID,
      seller and buyer checks of `validate_cii_xml`, when the namespace
      map binds the built-in prefixes as the table does. */
  lemma ValidRecordPassesNameChecks(root: Element, ns: map<string, string>,
                                    parseFloat: string -> Option<real>, round2: real -> real)
    requires AgreesWithBuiltins(ns)
    requires MetadataOf(root, ns, parseFloat, round2).valid
    ensures IdPresent(root) && SellerNamePresent(root) && BuyerNamePresent(root)
  {
    var m := MetadataOf(root, ns, parseFloat, round2);
    assert m.id == InvoiceId(root, ns);
    assert m.sellerName == PartyName(root, ns, "SellerTradeParty");
    assert m.buyerName == PartyName(root, ns, "BuyerTradeParty");
    ReadNamesArePresent(root, ns);
  }

  /** The converse fails: an invoice ID that is only whitespace passes
      `validate_cii_xml`, yet the record read is not valid. */
  lemma WhitespaceIdValidatedButInvalid(root: Element, ns: map<string, string>,
                                        parseFloat: string -> Option<real>, round2: real -> real)
    requires AgreesWithBuiltins(ns)
    requires IsCiiInvoice(root)
    requires PyStrip(TextNodes(root, NAMESPACES, ID_PATH)[0]) == ""
    ensures Validate(Document(root, map[])) == (true, None)
    ensures !MetadataOf(root, ns, parseFloat, round2).valid
  {
    ResolveAgree(ns, NAMESPACES, ID_PATH.steps);
    assert MetadataOf(root, ns, parseFloat, round2).id == InvoiceId(root, ns);
  }

  /** `extract_metadata_from_xml`; `round2` is Python's `round(x, 2)`. */
  function ExtractMetadata(parsed: ParseOutcome, parseFloat: string -> Option<real>, round2: real -> real)
    : (m: Metadata)
    ensures !parsed.Document? <==> m == DefaultRecord
    ensures m.Valid() <==> m.Extracted? && m.id != "" && m.sellerName != "" && m.buyerName != ""
    ensures m.Extracted? ==> m.createdAt == m.date
    ensures m.Source() == SOURCE_UPLOAD
    ensures !parsed.Document? ==>
      && m.Id() == "" && m.Date() == "" && m.SellerName() == "" && m.BuyerName() == ""
      && m.Currency() == "EUR" && m.TotalHt() == 0.0 && m.TotalTtc() == 0.0 && !m.Valid()
    ensures parsed.Document? ==> m == MetadataOf(parsed.root, MergeNamespaces(parsed.nsmap), parseFloat, round2)
  {
    match parsed
    case Document(root, docNsmap) =>
      MergedCovers(docNsmap);
      MetadataOf(root, MergeNamespaces(docNsmap), parseFloat, round2)
    case _ => DefaultRecord
  }

  /** End to end: a valid record extracted from a document that keeps the
      built-in prefixes means the document passes the name checks. */
  lemma ValidMetadataPassesNameChecks(parsed: ParseOutcome, parseFloat: string -> Option<real>, round2: real -> real)
    requires parsed.Document? && KeepsBuiltinPrefixes(parsed.nsmap)
    requires ExtractMetadata(parsed, parseFloat, round2).Valid()
    ensures IdPresent(parsed.root) && SellerNamePresent(parsed.root) && BuyerNamePresent(parsed.root)
  {
    MergedAgrees(parsed.nsmap);
    ValidRecordPassesNameChecks(parsed.root, MergeNamespaces(parsed.nsmap), parseFloat, round2);
  }
}
