/** storage.py: `LocalStorage`, an invoice store in one directory holding,
    per invoice, `<id>.pdf`, `<id>.xml` and `<id>.meta.json`.  The
    directory is a map from file name to content, a field the methods
    reassign. */
module Storage {
  import opened Wrappers
  import opened Text

  /** A JSON value, as `json.dump` writes and `json.load` reads it. */
  datatype Json =
    | JNull
    | JBool(b: bool)
    | JNumber(n: real)
    | JString(s: string)
    | JArray(elems: seq<Json>)
    | JObject(fields: map<string, Json>)

  /** A file's content, by how it was written: binary, UTF-8 text, or a
      JSON document.  Reading a file back in another mode than the one it
      was written in is a read error. */
  datatype FileContent = Binary(bytes: Bytes) | Text(text: string) | JsonDoc(value: Json)

  datatype StorageError =
    | InvalidInvoiceId   // ValueError("Invalid invoice ID")
    | ReadError          // an exception while reading a file

  const INVALID_ID_MESSAGE := "Invalid invoice ID"

  // ---------------------------------------------------------------------
  // _get_paths

  /** `c.isalnum() or c in ('-', '_')`. */
  predicate IsSafeChar(c: char) {
    IsAsciiAlnum(c) || c == '-' || c == '_'
  }

  predicate AllSafe(s: string) {
    forall k :: 0 <= k < |s| ==> IsSafeChar(s[k])
  }

  /** The sanitised invoice id: the safe characters of `s`, in order. */
  function SafeId(s: string): (r: string)
    ensures AllSafe(r)
    ensures |r| <= |s|
    decreases |s|
  {
    if s == [] then []
    else (if IsSafeChar(s[0]) then [s[0]] else []) + SafeId(s[1..])
  }

  /** Sanitising distributes over concatenation: it is a filter that keeps
      the order of what it keeps. */
  lemma {:induction false} SafeIdAppend(a: string, b: string)
    ensures SafeId(a + b) == SafeId(a) + SafeId(b)
    decreases |a|
  {
    if a != [] {
      assert (a + b)[0] == a[0] && (a + b)[1..] == a[1..] + b;
      SafeIdAppend(a[1..], b);
    } else {
      assert a + b == b;
    }
  }

  /** An id is its own sanitised form exactly when all its characters are
      safe. */
  lemma {:induction false} SafeIdFixpoint(s: string)
    ensures SafeId(s) == s <==> AllSafe(s)
    decreases |s|
  {
    if s != [] {
      SafeIdFixpoint(s[1..]);
      if !IsSafeChar(s[0]) {
        assert |SafeId(s)| <= |s[1..]| < |s|;
      }
    }
  }

  lemma SafeIdIdempotent(s: string)
    ensures SafeId(SafeId(s)) == SafeId(s)
  {
    SafeIdFixpoint(SafeId(s));
  }

  /** Path traversal is flattened: "../../etc" becomes "etc". */
  lemma SafeIdTraversal()
    ensures SafeId("../../etc") == "etc"
  {
    assert "../../etc" == "../../" + "etc";
    SafeIdAppend("../../", "etc");
    assert SafeId("../../") == [] by {
      assert "../../" == "." + "./../";
      assert "./../" == "." + "/../";
      assert "/../" == "/" + "../";
      assert "../" == "." + "./";
      assert "./" == "." + "/";
    }
    assert SafeId("etc") == "etc" by {
      SafeIdFixpoint("etc");
    }
  }

  /** The three file names of an invoice, inside the directory. */
  datatype InvoicePaths = InvoicePaths(pdf: string, xml: string, meta: string)

  const META_SUFFIX := ".meta.json"

  function PathsFor(safeId: string): InvoicePaths {
    InvoicePaths(safeId + ".pdf", safeId + ".xml", safeId + META_SUFFIX)
  }

  function PathSet(p: InvoicePaths): set<string> {
    {p.pdf, p.xml, p.meta}
  }

  /** `_get_paths`: ValueError when the id sanitises to nothing. */
  function GetPaths(invoiceId: string): (r: Result<InvoicePaths, StorageError>)
    ensures r.Failure? <==> SafeId(invoiceId) == ""
    ensures r.Failure? ==> r.error == InvalidInvoiceId
    ensures r.Success? ==> r.value == PathsFor(SafeId(invoiceId))
  {
    var safeId := SafeId(invoiceId);
    if safeId == "" then Failure(InvalidInvoiceId) else Success(PathsFor(safeId))
  }

  /** Different sanitised ids share no file, and one id's three files are
      three different files (they end in `f`, `l` and `n`). */
  lemma PathsDisjoint(a: string, b: string)
    ensures |PathSet(PathsFor(a))| == 3
    ensures a != b ==> PathSet(PathsFor(a)) !! PathSet(PathsFor(b))
  {
    var p, q := PathsFor(a), PathsFor(b);
    assert p.pdf[|p.pdf| - 1] == 'f' && p.xml[|p.xml| - 1] == 'l' && p.meta[|p.meta| - 1] == 'n';
    assert q.pdf[|q.pdf| - 1] == 'f' && q.xml[|q.xml| - 1] == 'l' && q.meta[|q.meta| - 1] == 'n';
    assert p.pdf[..|a|] == a && p.xml[..|a|] == a && p.meta[..|a|] == a;
    assert q.pdf[..|b|] == b && q.xml[..|b|] == b && q.meta[..|b|] == b;
  }

  // ---------------------------------------------------------------------
  // The directory as a value

  /** Text mode reading with universal newlines: `\r\n` and a lone `\r`
      both read as `\n`. */
  function UniversalNewlines(s: string): (r: string)
    ensures '\r' !in r
    ensures '\r' !in s ==> r == s
    decreases |s|
  {
    if s == [] then []
    else if s[0] == '\r' then
      "\n" + UniversalNewlines(if |s| > 1 && s[1] == '\n' then s[2..] else s[1..])
    else [s[0]] + UniversalNewlines(s[1..])
  }

  /** What `get_invoice` returns for `invoiceId` in the directory `files`. */
  function StoredInvoice(files: map<string, FileContent>, invoiceId: string)
    : (r: Result<Option<(Bytes, string)>, StorageError>)
    ensures r.Failure? && r.error == InvalidInvoiceId <==> SafeId(invoiceId) == ""
    ensures r == Success(None) <==>
      SafeId(invoiceId) != "" &&
      (PathsFor(SafeId(invoiceId)).pdf !in files || PathsFor(SafeId(invoiceId)).xml !in files)
  {
    match GetPaths(invoiceId)
    case Failure(e) => Failure(e)
    case Success(paths) =>
      if paths.pdf !in files || paths.xml !in files then Success(None)
      else
        match (files[paths.pdf], files[paths.xml])
        case (Binary(pdf), Text(xml)) => Success(Some((pdf, UniversalNewlines(xml))))
        case _ => Failure(ReadError)
  }

  /** The directory after the three writes of `save_invoice`. */
  function Saved(files: map<string, FileContent>, p: InvoicePaths, pdf: Bytes, xml: string, metadata: Json)
    : map<string, FileContent>
  {
    files[p.pdf := Binary(pdf)][p.xml := Text(xml)][p.meta := JsonDoc(metadata)]
  }

  /** The file names `list_invoices` reports: those ending in `.meta.json`
      whose content parses as JSON. */
  function Listed(files: map<string, FileContent>): set<string> {
    set n | n in files && EndsWith(n, META_SUFFIX) && files[n].JsonDoc?
  }

  /** Saving then getting gives back the PDF and the XML, the XML with its
      line ends read in universal newline mode, so exactly for XML
      without carriage returns. */
  lemma SaveThenGet(files: map<string, FileContent>, invoiceId: string, pdf: Bytes, xml: string, metadata: Json)
    requires SafeId(invoiceId) != ""
    ensures StoredInvoice(Saved(files, PathsFor(SafeId(invoiceId)), pdf, xml, metadata), invoiceId) ==
      Success(Some((pdf, UniversalNewlines(xml))))
    ensures '\r' !in xml ==>
      StoredInvoice(Saved(files, PathsFor(SafeId(invoiceId)), pdf, xml, metadata), invoiceId) ==
      Success(Some((pdf, xml)))
  {
    PathsDisjoint(SafeId(invoiceId), SafeId(invoiceId));
  }

  /** Saving lists the new metadata under the invoice's `.meta.json`. */
  lemma SaveThenListed(files: map<string, FileContent>, safeId: string, pdf: Bytes, xml: string, metadata: Json)
    ensures var after := Saved(files, PathsFor(safeId), pdf, xml, metadata);
      PathsFor(safeId).meta in Listed(after) && after[PathsFor(safeId).meta] == JsonDoc(metadata)
  {
    EndsWithAppend(safeId, META_SUFFIX);
  }

  /** Saving under one sanitised id leaves every other invoice as it was. */
  lemma SaveLeavesOthers(files: map<string, FileContent>, invoiceId: string, otherId: string,
                         pdf: Bytes, xml: string, metadata: Json)
    requires SafeId(invoiceId) != SafeId(otherId)
    ensures StoredInvoice(Saved(files, PathsFor(SafeId(invoiceId)), pdf, xml, metadata), otherId) ==
      StoredInvoice(files, otherId)
  {
    PathsDisjoint(SafeId(invoiceId), SafeId(otherId));
  }

  /** After deletion, get finds nothing and the listing omits the
      invoice's metadata. */
  lemma DeleteThenGone(files: map<string, FileContent>, invoiceId: string)
    requires SafeId(invoiceId) != ""
    ensures var after := files - PathSet(PathsFor(SafeId(invoiceId)));
      StoredInvoice(after, invoiceId) == Success(None) && PathsFor(SafeId(invoiceId)).meta !in Listed(after)
  {
  }

  /** Deletion leaves every other invoice as it was. */
  lemma DeleteLeavesOthers(files: map<string, FileContent>, invoiceId: string, otherId: string)
    requires SafeId(otherId) != SafeId(invoiceId)
    ensures StoredInvoice(files - PathSet(PathsFor(SafeId(invoiceId))), otherId) == StoredInvoice(files, otherId)
  {
    PathsDisjoint(SafeId(invoiceId), SafeId(otherId));
  }

  /** Deletion takes exactly the invoice's metadata out of the listing. */
  lemma DeleteListing(files: map<string, FileContent>, safeId: string)
    ensures Listed(files - PathSet(PathsFor(safeId))) == Listed(files) - {PathsFor(safeId).meta}
  {
    var p := PathsFor(safeId);
    assert !EndsWith(p.pdf, META_SUFFIX) by {
      assert p.pdf[|p.pdf| - 1] == 'f';
    }
    assert !EndsWith(p.xml, META_SUFFIX) by {
      assert p.xml[|p.xml| - 1] == 'l';
    }
  }

  /** An invoice whose three files all exist is deleted as exactly three
      entries. */
  lemma DeleteRemovesThree(files: map<string, FileContent>, safeId: string)
    requires PathSet(PathsFor(safeId)) <= files.Keys
    ensures |(files - PathSet(PathsFor(safeId))).Keys| == |files.Keys| - 3
  {
    PathsDisjoint(safeId, safeId);
    assert (files - PathSet(PathsFor(safeId))).Keys == files.Keys - PathSet(PathsFor(safeId));
  }

  lemma NonEmptyHasElement(s: set<string>)
    requires s != {}
    ensures exists x :: x in s
  {
    if forall x :: x !in s {
      assert false;
    }
  }

  // ---------------------------------------------------------------------
  // LocalStorage

  class LocalStorage {
    const directory: string
    /** Whether the directory exists. */
    var dirExists: bool
    /** The directory: file name to content. */
    var files: map<string, FileContent>

    /** A missing directory holds no files. */
    predicate Valid()
      reads this
    {
      !dirExists ==> files == map[]
    }

    /** `__init__`: `os.makedirs(directory, exist_ok=True)`; `existing` is
        what the directory already holds. */
    constructor (directory: string, existing: map<string, FileContent>)
      ensures Valid() && this.directory == directory && dirExists && files == existing
    {
      this.directory := directory;
      dirExists := true;
      files := existing;
    }

    /** `save_invoice`: the PDF in binary, the XML as text, the metadata as
        JSON, under the sanitised id. */
    method SaveInvoice(invoiceId: string, pdf: Bytes, xml: string, metadata: Json)
      returns (r: Result<InvoicePaths, StorageError>)
      requires Valid() && dirExists
      modifies this
      ensures Valid() && dirExists
      ensures r == GetPaths(invoiceId)
      ensures r.Failure? ==> files == old(files)
      ensures r.Success? ==> files == Saved(old(files), r.value, pdf, xml, metadata)
    {
      r := GetPaths(invoiceId);
      if r.Failure? {
        return;
      }
      var paths := r.value;
      files := files[paths.pdf := Binary(pdf)];
      files := files[paths.xml := Text(xml)];
      files := files[paths.meta := JsonDoc(metadata)];
    }

    /** `get_invoice`: None unless both the PDF and the XML exist. */
    method GetInvoice(invoiceId: string) returns (r: Result<Option<(Bytes, string)>, StorageError>)
      ensures r == StoredInvoice(files, invoiceId)
    {
      var paths := GetPaths(invoiceId);
      if paths.Failure? {
        return Failure(paths.error);
      }
      var pdfPath, xmlPath := paths.value.pdf, paths.value.xml;
      if pdfPath !in files || xmlPath !in files {
        return Success(None);
      }
      var pdfFile, xmlFile := files[pdfPath], files[xmlPath];
      if !pdfFile.Binary? || !xmlFile.Text? {
        return Failure(ReadError);
      }
      r := Success(Some((pdfFile.bytes, UniversalNewlines(xmlFile.text))));
    }

    /** `list_invoices`: the JSON of every readable `.meta.json` file, in the
        directory's listing order, which `names` records. */
    method ListInvoices() returns (invoices: seq<Json>, ghost names: seq<string>)
      requires Valid()
      ensures !dirExists ==> invoices == []
      ensures |names| == |invoices|
      ensures forall i :: 0 <= i < |names| ==> names[i] in Listed(files) && files[names[i]] == JsonDoc(invoices[i])
      ensures forall n :: n in Listed(files) ==> n in names
      ensures forall i, j :: 0 <= i < j < |names| ==> names[i] != names[j]
    {
      invoices, names := [], [];
      if !dirExists {
        return;
      }
      var remaining := files.Keys;
      while remaining != {}
        invariant remaining <= files.Keys
        invariant |names| == |invoices|
        invariant forall i :: 0 <= i < |names| ==>
          names[i] in Listed(files) && names[i] !in remaining && files[names[i]] == JsonDoc(invoices[i])
        invariant forall n :: n in Listed(files) ==> n in names || n in remaining
        invariant forall i, j :: 0 <= i < j < |names| ==> names[i] != names[j]
        decreases |remaining|
      {
        NonEmptyHasElement(remaining);
        var filename :| filename in remaining;
        remaining := remaining - {filename};
        if EndsWith(filename, META_SUFFIX) {
          match files[filename]
          case JsonDoc(meta) =>
            invoices := invoices + [meta];
            names := names + [filename];
          case _ =>
        }
      }
    }

    /** `delete_invoice`: each of the three files that exists is removed. */
    method DeleteInvoice(invoiceId: string) returns (r: Result<InvoicePaths, StorageError>)
      requires Valid()
      modifies this
      ensures Valid() && dirExists == old(dirExists)
      ensures r == GetPaths(invoiceId)
      ensures r.Failure? ==> files == old(files)
      ensures r.Success? ==> files == old(files) - PathSet(r.value)
    {
      r := GetPaths(invoiceId);
      if r.Failure? {
        return;
      }
      var targets := [r.value.pdf, r.value.xml, r.value.meta];
      for i := 0 to |targets|
        invariant files == old(files) - set k | 0 <= k < i :: targets[k]
        invariant Valid() && dirExists == old(dirExists)
      {
        if targets[i] in files {
          files := files - {targets[i]};
        }
      }
      assert targets[0] == r.value.pdf && targets[1] == r.value.xml && targets[2] == r.value.meta;
      assert (set k | 0 <= k < 3 :: targets[k]) == PathSet(r.value) by {
        forall x | x in PathSet(r.value) ensures x in set k | 0 <= k < 3 :: targets[k] {
          if x == targets[0] { assert 0 <= 0 < 3; }
          else if x == targets[1] { assert 0 <= 1 < 3; }
          else { assert x == targets[2]; }
        }
      }
    }
  }
}
