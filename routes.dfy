/** main.py: the `POST /invoices` and `GET /invoices/{invoice_number}`
    handlers over the `invoices` directory.  Each handler sanitises the
    number itself: creation falls back to the base name "invoice", lookup
    answers 400.  FastAPI's routing is left out; a handler is a method or a
    function from the request to a response. */
module Routes {
  import opened Wrappers
  import opened Text
  import opened Models
  import opened Storage

  const INVOICES_DIR := "invoices"
  const PDF_MEDIA := "application/pdf"
  const XML_MEDIA := "application/xml"
  const DEFAULT_ACCEPT := PDF_MEDIA
  const FALLBACK_BASE := "invoice"

  datatype Body = BytesBody(bytes: Bytes) | TextBody(text: string)

  /** A response: an in-memory body, a file streamed from disk with a
      download name, or an HTTPException. */
  datatype Response =
    | Content(body: Body, mediaType: string)
    | FileResponse(path: string, mediaType: string, filename: string)
    | HttpError(status: nat, detail: string)

  const INVALID_NUMBER := "Invalid invoice number"
  const NOT_FOUND := "Invoice not found"
  /** What the server answers when a handler raises unexpectedly. */
  const INTERNAL_ERROR := "Internal Server Error"

  /** `os.path.join(INVOICES_DIR, name)` for a name without a separator. */
  function DirPath(name: string): string {
    INVOICES_DIR + "/" + name
  }

  /** The base name `create_invoice` writes under: the sanitised number,
      or "invoice" when nothing is left of it. */
  function CreateBase(invoiceNumber: string): (r: string)
    ensures r != "" && AllSafe(r)
    ensures SafeId(invoiceNumber) != "" ==> r == SafeId(invoiceNumber)
    ensures SafeId(invoiceNumber) == "" ==> r == FALLBACK_BASE
  {
    var safeFilename := SafeId(invoiceNumber);
    if safeFilename == "" then
      assert AllSafe(FALLBACK_BASE) by {
        assert forall k :: 0 <= k < |FALLBACK_BASE| ==> IsAsciiLetter(FALLBACK_BASE[k]);
      }
      FALLBACK_BASE
    else safeFilename
  }

  /** The Accept-header rule: XML when the header (absent: PDF) contains
      "xml" anywhere. */
  predicate WantsXml(accept: Option<string>) {
    Contains(accept.GetOr(DEFAULT_ACCEPT), "xml")
  }

  /** Without an Accept header the PDF is chosen. */
  lemma DefaultAcceptIsPdf()
    ensures !WantsXml(None)
  {
    assert forall k :: 0 <= k < |DEFAULT_ACCEPT| ==> DEFAULT_ACCEPT[k] != 'x';
    NoFirstCharNotContains(DEFAULT_ACCEPT, "xml");
  }

  /** The two XML media types choose XML. */
  lemma XmlMediaTypesChooseXml()
    ensures WantsXml(Some(XML_MEDIA))
    ensures WantsXml(Some("text/xml"))
  {
    assert XML_MEDIA[12..15] == "xml";
    ContainsAt(XML_MEDIA, "xml", 12);
    assert "text/xml"[5..8] == "xml";
    ContainsAt("text/xml", "xml", 5);
  }

  /** Any header naming an XML media type gets XML, whatever else it lists. */
  lemma XmlAnywhereChoosesXml(accept: string, i: nat)
    requires i + 3 <= |accept| && accept[i..i + 3] == "xml"
    ensures WantsXml(Some(accept))
  {
    ContainsAt(accept, "xml", i);
  }

  /** `get_invoice` on the directory `files`.  `accept` is the Accept
      header, None when the request has none. */
  function GetInvoice(files: map<string, FileContent>, invoiceNumber: string, accept: Option<string>)
    : (r: Response)
    ensures r == HttpError(400, INVALID_NUMBER) <==> SafeId(invoiceNumber) == ""
    ensures r == HttpError(404, NOT_FOUND) <==>
      SafeId(invoiceNumber) != "" &&
      (PathsFor(SafeId(invoiceNumber)).pdf !in files || PathsFor(SafeId(invoiceNumber)).xml !in files)
    ensures r.Content? ==> WantsXml(accept) && r.mediaType == XML_MEDIA && r.body.TextBody?
    ensures r.FileResponse? ==>
      !WantsXml(accept) && r == FileResponse(DirPath(PathsFor(SafeId(invoiceNumber)).pdf), PDF_MEDIA, invoiceNumber + ".pdf")
    ensures var p := PathsFor(SafeId(invoiceNumber));
      SafeId(invoiceNumber) != "" && p.pdf in files && p.xml in files ==>
        && (WantsXml(accept) && files[p.xml].Text? ==>
              r == Content(TextBody(UniversalNewlines(files[p.xml].text)), XML_MEDIA))
        && (WantsXml(accept) && !files[p.xml].Text? ==> r == HttpError(500, INTERNAL_ERROR))
        && (!WantsXml(accept) ==> r.FileResponse?)
  {
    var safeFilename := SafeId(invoiceNumber);
    if safeFilename == "" then HttpError(400, INVALID_NUMBER)
    else
      var paths := PathsFor(safeFilename);
      if paths.pdf !in files || paths.xml !in files then HttpError(404, NOT_FOUND)
      else if Contains(accept.GetOr(DEFAULT_ACCEPT), "xml") then
        match files[paths.xml]
        case Text(content) => Content(TextBody(UniversalNewlines(content)), XML_MEDIA)
        case _ => HttpError(500, INTERNAL_ERROR)
      else FileResponse(DirPath(paths.pdf), PDF_MEDIA, invoiceNumber + ".pdf")
  }

  /** The route and the storage class apply the same rules: 400 exactly
      where the store rejects the id, 404 exactly where it finds nothing. */
  lemma GetAgreesWithStorage(files: map<string, FileContent>, invoiceNumber: string, accept: Option<string>)
    ensures GetInvoice(files, invoiceNumber, accept).HttpError? && GetInvoice(files, invoiceNumber, accept).status == 400
      <==> StoredInvoice(files, invoiceNumber) == Failure(InvalidInvoiceId)
    ensures GetInvoice(files, invoiceNumber, accept) == HttpError(404, NOT_FOUND)
      <==> StoredInvoice(files, invoiceNumber) == Success(None)
  {
  }

  /** The directory after `create_invoice` wrote its two files. */
  function Created(files: map<string, FileContent>, base: string, pdf: Bytes, xml: string)
    : map<string, FileContent>
  {
    files[PathsFor(base).pdf := Binary(pdf)][PathsFor(base).xml := Text(xml)]
  }

  class InvoiceServer {
    /** The `invoices` directory: file name to content. */
    var files: map<string, FileContent>

    constructor (existing: map<string, FileContent>)
      ensures files == existing
    {
      files := existing;
    }

    /** `create_invoice`: generate, write `<base>.pdf` and `<base>.xml`,
        answer with the PDF; an exception from generation becomes 500.
        `generate` is `generate_invoice_pdf`. */
    method CreateInvoice(invoice: InvoiceRequest, generate: InvoiceRequest -> Result<(Bytes, string), string>)
      returns (r: Response)
      modifies this
      ensures generate(invoice).Failure? ==>
        r == HttpError(500, generate(invoice).error) && files == old(files)
      ensures generate(invoice).Success? ==>
        var (pdf, xml) := generate(invoice).value;
        r == Content(BytesBody(pdf), PDF_MEDIA) &&
        files == Created(old(files), CreateBase(invoice.invoiceNumber), pdf, xml)
    {
      var generated := generate(invoice);
      if generated.Failure? {
        return HttpError(500, generated.error);
      }
      var (pdfBytes, xmlContent) := generated.value;
      var basePath := CreateBase(invoice.invoiceNumber);
      files := files[basePath + ".pdf" := Binary(pdfBytes)];
      files := files[basePath + ".xml" := Text(xmlContent)];
      r := Content(BytesBody(pdfBytes), PDF_MEDIA);
    }
  }

  /** Creating then fetching by the same number returns the XML when asked
      for XML and otherwise the PDF file, offered under the raw number. */
  lemma CreateThenGet(files: map<string, FileContent>, invoiceNumber: string, pdf: Bytes, xml: string, accept: Option<string>)
    requires SafeId(invoiceNumber) != ""
    ensures var after := Created(files, CreateBase(invoiceNumber), pdf, xml);
      GetInvoice(after, invoiceNumber, accept) ==
        if WantsXml(accept) then Content(TextBody(UniversalNewlines(xml)), XML_MEDIA)
        else FileResponse(DirPath(SafeId(invoiceNumber) + ".pdf"), PDF_MEDIA, invoiceNumber + ".pdf")
  {
    PathsDisjoint(SafeId(invoiceNumber), SafeId(invoiceNumber));
  }

  /** A number with no safe character is stored as "invoice" but cannot be
      fetched by that number: the two handlers disagree on the empty case. */
  lemma UnsafeNumberStoredButNotRetrievable(files: map<string, FileContent>, invoiceNumber: string,
                                            pdf: Bytes, xml: string, accept: Option<string>)
    requires SafeId(invoiceNumber) == ""
    ensures var after := Created(files, CreateBase(invoiceNumber), pdf, xml);
      && GetInvoice(after, invoiceNumber, accept) == HttpError(400, INVALID_NUMBER)
      && GetInvoice(after, FALLBACK_BASE, accept) != HttpError(404, NOT_FOUND)
  {
    assert AllSafe(FALLBACK_BASE) by {
      assert forall k :: 0 <= k < |FALLBACK_BASE| ==> IsAsciiLetter(FALLBACK_BASE[k]);
    }
    SafeIdFixpoint(FALLBACK_BASE);
    PathsDisjoint(FALLBACK_BASE, FALLBACK_BASE);
  }
}
