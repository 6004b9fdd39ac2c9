/** frontend/script.js: the pure helpers of the single-page client (the
    extension gate, the French VAT key, file-size units, HTML escaping) and
    the small pieces of page state its event handlers update (the selected
    upload file and its button, the line-item rows, the company fields).
    The DOM is reduced to the values these handlers read and write. */
module Frontend {
  import opened Wrappers
  import opened Text

  // ---------------------------------------------------------------------
  // File-extension gate (`handleFileSelect`)
  // ---------------------------------------------------------------------

  /** JavaScript's `s.split(sep)` for a one-character separator. */
  function Split(s: string, sep: char): (r: seq<string>)
    ensures |r| >= 1
    ensures |r| == 1 <==> sep !in s
    ensures sep !in s ==> r == [s]
    ensures forall k :: 0 <= k < |r| ==> sep !in r[k]
    decreases |s|
  {
    if s == [] then [""]
    else
      var rest := Split(s[1..], sep);
      if s[0] == sep then [""] + rest
      else
        assert s == [s[0]] + s[1..];
        [[s[0]] + rest[0]] + rest[1..]
  }

  function Last(xs: seq<string>): string
    requires |xs| >= 1
  {
    xs[|xs| - 1]
  }

  /** `file.name.toLowerCase().split('.').pop()`. */
  function FileExtension(name: string): string {
    Last(Split(ToLowerAscii(name), '.'))
  }

  /** The last segment of a split is the text after the last separator:
      it holds no separator, ends the string, and is preceded by the
      separator unless there is none. */
  predicate IsLastSegment(s: string, sep: char, r: string) {
    && sep !in r && EndsWith(s, r)
    && (sep in s ==> |r| < |s| && s[|s| - |r| - 1] == sep)
    && (sep !in s ==> r == s)
  }

  /** A segment that is last in `s[1..]` stays last in `s` when `s[1..]`
      has a separator or `s` starts with one. */
  lemma LastSegmentCons(s: string, sep: char, r: string)
    requires s != [] && IsLastSegment(s[1..], sep, r)
    requires sep in s[1..] || s[0] == sep
    ensures IsLastSegment(s, sep, r)
  {
    assert s[|s| - |r|..] == s[1..][|s[1..]| - |r|..];
    if sep in s[1..] {
      assert s[|s| - |r| - 1] == s[1..][|s[1..]| - |r| - 1];
    }
  }

  lemma {:induction false} LastSegment(s: string, sep: char)
    ensures IsLastSegment(s, sep, Last(Split(s, sep)))
    decreases |s|
  {
    if s != [] {
      var rest := Split(s[1..], sep);
      LastSegment(s[1..], sep);
      if s[0] == sep || |rest| > 1 {
        assert Last(Split(s, sep)) == Last(rest);
        LastSegmentCons(s, sep, Last(rest));
      } else {
        assert Split(s, sep) == [s];
      }
    }
  }

  /** A name ending in `.ext`, with no dot in `ext`, splits to `ext` last. */
  lemma {:induction false} LastSegmentOfDotted(t: string, ext: string, sep: char)
    requires sep !in ext
    ensures Last(Split(t + [sep] + ext, sep)) == ext
    decreases |t|
  {
    var s := t + [sep] + ext;
    if t == [] {
      assert s == [sep] + ext;
      assert s[1..] == ext;
    } else {
      assert s[1..] == t[1..] + [sep] + ext;
      LastSegmentOfDotted(t[1..], ext, sep);
      assert sep in s[1..] by { assert s[1..][|t| - 1] == sep; }
    }
  }

  /** The extension test of `handleFileSelect`. */
  predicate Accepted(name: string) {
    var ext := FileExtension(name);
    ext == "pdf" || ext == "xml"
  }

  /** The last segment is `ext` exactly when the string is `ext` or ends
      in a separator followed by `ext`. */
  lemma LastSegmentIs(s: string, sep: char, ext: string)
    requires sep !in ext
    ensures Last(Split(s, sep)) == ext <==> s == ext || EndsWith(s, [sep] + ext)
  {
    LastSegment(s, sep);
    var r := Last(Split(s, sep));
    if r == ext && sep in s {
      var n := |s|;
      assert s[n - |ext| - 1..] == [s[n - |ext| - 1]] + s[n - |ext|..];
    }
    if EndsWith(s, [sep] + ext) {
      var t := s[..|s| - |ext| - 1];
      assert s == t + [sep] + ext;
      LastSegmentOfDotted(t, ext, sep);
    }
  }

  /** A file passes the gate exactly when its lower-cased name ends in
      ".pdf" or ".xml", or is "pdf" or "xml" itself (a name without a dot
      is its own extension). */
  lemma AcceptedIff(name: string)
    ensures var lower := ToLowerAscii(name);
      Accepted(name) <==>
        lower == "pdf" || lower == "xml" || EndsWith(lower, ".pdf") || EndsWith(lower, ".xml")
  {
    var lower := ToLowerAscii(name);
    LastSegmentIs(lower, '.', "pdf");
    LastSegmentIs(lower, '.', "xml");
    assert ['.'] + "pdf" == ".pdf" && ['.'] + "xml" == ".xml";
  }

  /** Upper-case extensions pass. */
  lemma UpperCaseExtensionAccepted()
    ensures Accepted("facture.PDF")
  {
    assert ToLowerAscii("facture.PDF") == "facture" + ['.'] + "pdf";
    LastSegmentOfDotted("facture", "pdf", '.');
  }

  /** A name without a dot is its own extension, so a bare "xml" passes. */
  lemma BareNameAccepted()
    ensures Accepted("xml")
  {
    assert ToLowerAscii("xml") == "xml";
  }

  /** Only the segment after the last dot counts. */
  lemma InnerExtensionRejected()
    ensures !Accepted("facture.pdf.txt")
  {
    assert ToLowerAscii("facture.pdf.txt") == "facture.pdf" + ['.'] + "txt";
    LastSegmentOfDotted("facture.pdf", "txt", '.');
  }

  // ---------------------------------------------------------------------
  // French VAT number (`fillCompanyData`)
  // ---------------------------------------------------------------------

  /** The value of `c` as a digit in `radix` (2..36), as `parseInt` reads it. */
  function RadixDigit(c: char, radix: nat): Option<nat> {
    var d :=
      if '0' <= c <= '9' then Some(c as int - '0' as int)
      else if 'a' <= c <= 'z' then Some(c as int - 'a' as int + 10)
      else if 'A' <= c <= 'Z' then Some(c as int - 'A' as int + 10)
      else None;
    if d.Some? && d.value < radix then Some(d.value) else None
  }

  /** The digit values of the longest prefix of `s` made of digits. */
  function LeadingDigits(s: string, radix: nat): (r: seq<nat>)
    ensures |r| <= |s|
    ensures forall k :: 0 <= k < |r| ==> RadixDigit(s[k], radix) == Some(r[k])
    ensures |r| < |s| ==> RadixDigit(s[|r|], radix).None?
    decreases |s|
  {
    if s == [] || RadixDigit(s[0], radix).None? then []
    else [RadixDigit(s[0], radix).value] + LeadingDigits(s[1..], radix)
  }

  /** The number a digit sequence denotes, most significant first. */
  function DigitSeqValue(ds: seq<nat>, radix: nat): nat
    decreases |ds|
  {
    if ds == [] then 0 else DigitSeqValue(ds[..|ds| - 1], radix) * radix + ds[|ds| - 1]
  }

  /** The sign `parseInt` reads and the text after it. */
  function SignPart(t: string): (r: (int, string))
    ensures r.0 == 1 || r.0 == -1
    ensures |r.1| <= |t|
  {
    if t != [] && t[0] == '-' then (-1, t[1..])
    else if t != [] && t[0] == '+' then (1, t[1..])
    else (1, t)
  }

  /** The radix `parseInt` chooses (16 after a "0x" or "0X" prefix, else
      10) and the text after the prefix. */
  function RadixPart(u: string): (r: (nat, string))
    ensures r.0 == 10 || r.0 == 16
  {
    if |u| >= 2 && u[0] == '0' && (u[1] == 'x' || u[1] == 'X') then (16, u[2..]) else (10, u)
  }

  /** JavaScript's `parseInt(s)` without a radix: leading white space, an
      optional sign, a "0x" prefix for hexadecimal, then the longest digit
      prefix; None stands for NaN. */
  function JsParseInt(s: string): (r: Option<int>)
    ensures var (sign, u) := SignPart(TrimStart(s, IsJsSpace));
      var (radix, body) := RadixPart(u);
      && (r.None? <==> LeadingDigits(body, radix) == [])
      && (r.Some? ==> r.value == sign * DigitSeqValue(LeadingDigits(body, radix), radix))
  {
    var (sign, u) := SignPart(TrimStart(s, IsJsSpace));
    var (radix, body) := RadixPart(u);
    var digits := LeadingDigits(body, radix);
    if digits == [] then None else Some(sign * DigitSeqValue(digits, radix))
  }

  lemma {:induction false} LeadingDecimalDigits(s: string)
    requires AllDigits(s)
    ensures LeadingDigits(s, 10) == seq(|s|, k requires 0 <= k < |s| => DigitValue(s[k]))
    decreases |s|
  {
    if s != [] {
      LeadingDecimalDigits(s[1..]);
    }
  }

  lemma {:induction false} DecimalValue(s: string)
    requires AllDigits(s)
    ensures DigitSeqValue(seq(|s|, k requires 0 <= k < |s| => DigitValue(s[k])), 10) == DigitsValue(s)
    decreases |s|
  {
    if s != [] {
      var ds := seq(|s|, k requires 0 <= k < |s| => DigitValue(s[k]));
      var init := s[..|s| - 1];
      assert ds[..|ds| - 1] == seq(|init|, k requires 0 <= k < |init| => DigitValue(init[k]));
      DecimalValue(init);
    }
  }

  /** A SIREN written in decimal digits parses to its value. */
  lemma ParseDecimal(siren: string)
    requires siren != [] && AllDigits(siren)
    ensures JsParseInt(siren) == Some(DigitsValue(siren))
  {
    assert IsAsciiDigit(siren[0]) && !IsJsSpace(siren[0]);
    assert TrimStart(siren, IsJsSpace) == siren;
    assert SignPart(siren) == (1, siren);
    assert |siren| >= 2 ==> IsAsciiDigit(siren[1]);
    assert RadixPart(siren) == (10, siren);
    var ds := seq(|siren|, k requires 0 <= k < |siren| => DigitValue(siren[k]));
    LeadingDecimalDigits(siren);
    DecimalValue(siren);
    assert LeadingDigits(siren, 10) == ds && ds != [];
  }

  /** The quotient of `a / 97` truncated toward zero. */
  function JsQuot97(a: int): int {
    if a >= 0 then a / 97 else -((-a) / 97)
  }

  /** JavaScript's `a % 97`: the remainder of truncated division, with
      the sign of the dividend. */
  function JsRem97(a: int): (r: int)
    ensures a == 97 * JsQuot97(a) + r
    ensures a >= 0 ==> 0 <= r < 97
    ensures a < 0 ==> -97 < r <= 0
  {
    if a >= 0 then a % 97 else -((-a) % 97)
  }

  /** `(12 + 3 * (n % 97)) % 97` on a parsed SIREN `n`. */
  function VatKey(n: int): int {
    JsRem97(12 + 3 * JsRem97(n))
  }

  /** The key is congruent to 12 + 3n modulo 97 for every n. */
  lemma VatKeyCongruent(n: int)
    ensures (VatKey(n) - (12 + 3 * n)) % 97 == 0
  {
    var q := JsQuot97(n);
    var q2 := JsQuot97(12 + 3 * JsRem97(n));
    assert VatKey(n) - (12 + 3 * n) == 97 * (-q2 - 3 * q);
  }

  /** For a number that is not negative the key lies in 0..96 and is the
      usual `(12 + 3 * (n mod 97)) mod 97`. */
  lemma VatKeyRange(n: int)
    requires n >= 0
    ensures 0 <= VatKey(n) < 97 && VatKey(n) == (12 + 3 * (n % 97)) % 97
  {
    assert JsRem97(n) == n % 97;
  }

  /** A negative number gives a negative key, so the group is not two
      digits: "-5" yields "FR-3-5". */
  lemma NegativeSirenKey()
    ensures VatKey(-5) == -3
  {
  }

  /** `s.padStart(len, fill)` for a one-character fill. */
  function PadStart(s: string, len: nat, fill: char): (r: string)
    ensures |r| == if |s| >= len then |s| else len
    ensures EndsWith(r, s)
    ensures forall k :: 0 <= k < |r| - |s| ==> r[k] == fill
  {
    if |s| >= len then s else seq(len - |s|, _ => fill) + s
  }

  /** `key.toString()`, where NaN prints as "NaN". */
  function KeyText(parsed: Option<int>): string {
    match parsed
    case None => "NaN"
    case Some(n) => IntToString(VatKey(n))
  }

  /** `` `FR${key.toString().padStart(2, '0')}${siren}` ``. */
  function VatNumber(siren: string): (r: string)
    ensures StartsWith(r, "FR") && EndsWith(r, siren)
  {
    var r := "FR" + PadStart(KeyText(JsParseInt(siren)), 2, '0') + siren;
    assert r[..2] == "FR";
    assert r[|r| - |siren|..] == siren;
    r
  }

  lemma TwoDigits(k: nat)
    requires k < 100
    ensures PadStart(NatToString(k), 2, '0') == [DigitChar(k / 10), DigitChar(k % 10)]
  {
    if k >= 10 {
      assert NatToString(k) == NatToString(k / 10) + [DigitChar(k % 10)];
    }
  }

  /** For a SIREN of decimal digits the number is "FR", the two-digit key
      and the SIREN. */
  lemma VatNumberOfSiren(siren: string)
    requires siren != [] && AllDigits(siren)
    ensures var key := VatKey(DigitsValue(siren));
      && 0 <= key < 97
      && VatNumber(siren) == "FR" + [DigitChar(key / 10), DigitChar(key % 10)] + siren
  {
    ParseDecimal(siren);
    var n := DigitsValue(siren);
    VatKeyRange(n);
    var key := VatKey(n);
    assert KeyText(JsParseInt(siren)) == NatToString(key);
    TwoDigits(key);
    assert VatNumber(siren) == "FR" + PadStart(NatToString(key), 2, '0') + siren;
  }

  /** A SIREN with no leading digits yields "FRNaN" in front of it. */
  lemma VatNumberOfNonNumeric(siren: string)
    requires JsParseInt(siren).None?
    ensures VatNumber(siren) == "FRNaN" + siren
  {
  }

  // ---------------------------------------------------------------------
  // File sizes (`formatFileSize`)
  // ---------------------------------------------------------------------

  const KIB := 1024
  const MIB := 1024 * 1024

  /** `formatFileSize(bytes)`; `toFixed1` is `x.toFixed(1)`. */
  function FormatFileSize(size: nat, toFixed1: real -> string): string {
    if size < KIB then NatToString(size) + " octets"
    else if size < MIB then toFixed1(size as real / 1024.0) + " Ko"
    else toFixed1(size as real / (1024.0 * 1024.0)) + " Mo"
  }

  /** The unit is "octets" below 1024, "Ko" below 1024², "Mo" otherwise;
      the three suffixes exclude each other whatever `toFixed1` prints,
      bytes are shown exactly and kilobytes as a value in [1, 1024). */
  lemma FileSizeUnits(size: nat, toFixed1: real -> string)
    ensures var r := FormatFileSize(size, toFixed1);
      && (EndsWith(r, " octets") <==> size < KIB)
      && (EndsWith(r, " Ko") <==> KIB <= size < MIB)
      && (EndsWith(r, " Mo") <==> MIB <= size)
      && (size < KIB ==> r == NatToString(size) + " octets")
      && (KIB <= size < MIB ==> 1.0 <= size as real / 1024.0 < 1024.0)
  {
    var r := FormatFileSize(size, toFixed1);
    if size < KIB {
      EndsWithAppend(NatToString(size), " octets");
      assert r[|r| - 1] == 's';
    } else if size < MIB {
      EndsWithAppend(toFixed1(size as real / 1024.0), " Ko");
      assert r[|r| - 1] == 'o' && r[|r| - 2] == 'K';
    } else {
      EndsWithAppend(toFixed1(size as real / (1024.0 * 1024.0)), " Mo");
      assert r[|r| - 1] == 'o' && r[|r| - 2] == 'M';
    }
  }

  // ---------------------------------------------------------------------
  // HTML escaping (`escapeHtml`) and field values (`setVal`)
  // ---------------------------------------------------------------------

  /** How a text node serialises one character in `innerHTML`. */
  function EscapeChar(c: char): string {
    if c == '&' then "&amp;"
    else if c == '\U{A0}' then "&nbsp;"
    else if c == '<' then "&lt;"
    else if c == '>' then "&gt;"
    else [c]
  }

  function EscapeText(s: string): (r: string)
    ensures '<' !in r && '>' !in r
    decreases |s|
  {
    if s == [] then "" else EscapeChar(s[0]) + EscapeText(s[1..])
  }

  /** `escapeHtml(text)`: '' for a falsy argument (null, undefined or the
      empty string), else the markup of a text node holding `text`. */
  function EscapeHtml(text: Option<string>): (r: string)
    ensures text.None? || text == Some("") ==> r == ""
  {
    match text
    case None => ""
    case Some(s) => if s == "" then "" else EscapeText(s)
  }

  /** The character reference `s` starts with, and its length. */
  function Reference(s: string): Option<(char, nat)> {
    if StartsWith(s, "&amp;") then Some(('&', 5))
    else if StartsWith(s, "&nbsp;") then Some(('\U{A0}', 6))
    else if StartsWith(s, "&lt;") then Some(('<', 4))
    else if StartsWith(s, "&gt;") then Some(('>', 4))
    else None
  }

  /** Reading markup back into text: the four references become their
      characters again. */
  function Unescape(s: string): string
    decreases |s|
  {
    if s == [] then ""
    else
      match Reference(s)
      case Some((c, n)) => if n <= |s| then [c] + Unescape(s[n..]) else ""
      case None => [s[0]] + Unescape(s[1..])
  }

  lemma ReferenceOfEscape(c: char, rest: string)
    ensures Reference(EscapeChar(c) + rest) ==
      if [c] == EscapeChar(c) then None else Some((c, |EscapeChar(c)|))
  {
    var e := EscapeChar(c) + rest;
    if c == '&' {
      assert e[..5] == "&amp;";
    } else if c == '\U{A0}' {
      assert e[..6] == "&nbsp;";
      assert e[1] == 'n';
    } else if c == '<' {
      assert e[..4] == "&lt;";
      assert e[1] == 'l';
    } else if c == '>' {
      assert e[..4] == "&gt;";
      assert e[1] == 'g';
    } else {
      assert e[0] == c;
    }
  }

  lemma UnescapeChar(c: char, rest: string)
    ensures Unescape(EscapeChar(c) + rest) == [c] + Unescape(rest)
  {
    var e := EscapeChar(c) + rest;
    ReferenceOfEscape(c, rest);
    assert e[|EscapeChar(c)|..] == rest;
  }

  /** Escaping loses nothing: the displayed text is the original. */
  lemma {:induction false} EscapeRoundTrip(s: string)
    ensures Unescape(EscapeText(s)) == s
    decreases |s|
  {
    if s != [] {
      EscapeRoundTrip(s[1..]);
      UnescapeChar(s[0], EscapeText(s[1..]));
      assert s == [s[0]] + s[1..];
    }
  }

  /** `value || ''` in `setVal`. */
  function FieldValue(value: Option<string>): (r: string)
    ensures value.None? ==> r == ""
    ensures value.Some? ==> r == value.value
  {
    match value
    case None => ""
    case Some(v) => if v == "" then "" else v
  }

  // ---------------------------------------------------------------------
  // Company fields (`fillCompanyData`, `setVal`)
  // ---------------------------------------------------------------------

  /** The fields of a company-search result the form copies. */
  datatype Siege = Siege(siret: Option<string>, numeroVoie: Option<string>, typeVoie: Option<string>,
                         libelleVoie: Option<string>, codePostal: Option<string>, libelleCommune: Option<string>)
  datatype Company = Company(nomComplet: Option<string>, siren: string, siege: Siege)

  /** The street line: the three parts, each `|| ''`, joined by spaces and
      trimmed. */
  function StreetLine(a: Siege): (r: string)
    ensures Clean(r, IsJsSpace)
  {
    JsTrim(FieldValue(a.numeroVoie) + " " + FieldValue(a.typeVoie) + " " + FieldValue(a.libelleVoie))
  }

  /** An address without any of the three parts gives an empty street, not
      the two separating spaces. */
  lemma StreetLineEmpty(a: Siege)
    requires a.numeroVoie.None? && a.typeVoie.None? && a.libelleVoie.None?
    ensures StreetLine(a) == ""
  {
    var line := FieldValue(a.numeroVoie) + " " + FieldValue(a.typeVoie) + " " + FieldValue(a.libelleVoie);
    assert line == "  ";
    assert IsJsSpace(' ');
    assert TrimStart(line, IsJsSpace) == "";
  }

  /** `setVal(id, value)` on a form whose element ids are the keys. */
  function WithValue(fields: map<string, string>, id: string, value: Option<string>): (r: map<string, string>)
    ensures r.Keys == fields.Keys
    ensures forall k :: k in fields && k != id ==> r[k] == fields[k]
    ensures id in fields ==> r[id] == FieldValue(value)
  {
    if id in fields then fields[id := FieldValue(value)] else fields
  }

  /** The form after `fillCompanyData(company, prefix)`. */
  function CompanyFilled(fields: map<string, string>, company: Company, prefix: string): map<string, string> {
    var f1 := WithValue(fields, prefix + "_name", company.nomComplet);
    var f2 := if prefix + "_siret" in f1 then WithValue(f1, prefix + "_siret", company.siege.siret) else f1;
    var f3 := if prefix + "_vat" in f2 then WithValue(f2, prefix + "_vat", Some(VatNumber(company.siren))) else f2;
    var f4 := WithValue(f3, prefix + "_street", Some(StreetLine(company.siege)));
    var f5 := WithValue(f4, prefix + "_zip", company.siege.codePostal);
    var f6 := WithValue(f5, prefix + "_city", company.siege.libelleCommune);
    WithValue(f6, prefix + "_country", Some("FR"))
  }

  /** Filling creates no field and leaves every field without the
      prefix as it was. */
  lemma CompanyFilledOthers(fields: map<string, string>, company: Company, prefix: string)
    ensures var r := CompanyFilled(fields, company, prefix);
      && r.Keys == fields.Keys
      && (forall k :: k in fields && !StartsWith(k, prefix + "_") ==> r[k] == fields[k])
  {
    PrefixedId(prefix, "_name");
    PrefixedId(prefix, "_siret");
    PrefixedId(prefix, "_vat");
    PrefixedId(prefix, "_street");
    PrefixedId(prefix, "_zip");
    PrefixedId(prefix, "_city");
    PrefixedId(prefix, "_country");
  }

  /** The VAT field, where the form has one, receives the VAT number. */
  lemma CompanyFilledVat(fields: map<string, string>, company: Company, prefix: string)
    requires prefix + "_vat" in fields
    ensures CompanyFilled(fields, company, prefix)[prefix + "_vat"] == VatNumber(company.siren)
  {
    var vat := prefix + "_vat";
    assert vat != prefix + "_street" && vat != prefix + "_zip" && vat != prefix + "_city"
      && vat != prefix + "_country" by {
      assert vat[|prefix| + 1] == 'v';
      assert (prefix + "_street")[|prefix| + 1] == 's';
      assert (prefix + "_zip")[|prefix| + 1] == 'z';
      assert (prefix + "_city")[|prefix| + 1] == 'c';
      assert (prefix + "_country")[|prefix| + 1] == 'c';
    }
  }

  lemma PrefixedId(prefix: string, rest: string)
    requires rest != [] && rest[0] == '_'
    ensures StartsWith(prefix + rest, prefix + "_")
  {
    assert (prefix + rest)[..|prefix| + 1] == prefix + "_";
  }

  class CompanyForm {
    /** Element id to input value; an id without an element is absent. */
    var fields: map<string, string>

    constructor (initial: map<string, string>)
      ensures fields == initial
    {
      fields := initial;
    }

    method SetVal(id: string, value: Option<string>)
      modifies this
      ensures fields == WithValue(old(fields), id, value)
    {
      if id in fields {
        fields := fields[id := FieldValue(value)];
      }
    }

    method FillCompanyData(company: Company, prefix: string)
      modifies this
      ensures fields == CompanyFilled(old(fields), company, prefix)
    {
      SetVal(prefix + "_name", company.nomComplet);
      if prefix + "_siret" in fields {
        SetVal(prefix + "_siret", company.siege.siret);
      }
      if prefix + "_vat" in fields {
        SetVal(prefix + "_vat", Some(VatNumber(company.siren)));
      }
      SetVal(prefix + "_street", Some(StreetLine(company.siege)));
      SetVal(prefix + "_zip", company.siege.codePostal);
      SetVal(prefix + "_city", company.siege.libelleCommune);
      SetVal(prefix + "_country", Some("FR"));
    }
  }

  // ---------------------------------------------------------------------
  // Messages
  // ---------------------------------------------------------------------

  datatype MessageKind = SuccessType | ErrorType
  datatype Message = Message(text: string, kind: MessageKind)

  // ---------------------------------------------------------------------
  // Line items (`addItem` and the remove button)
  // ---------------------------------------------------------------------

  const AT_LEAST_ONE_LINE := "Une facture doit avoir au moins une ligne."

  /** The rows after the remove button of row `i` is pressed: the row goes
      only when another remains. */
  function RemoveRow(rows: seq<nat>, i: nat): (r: seq<nat>)
    requires i < |rows|
    ensures |rows| > 1 ==> |r| == |rows| - 1 && multiset(r) == multiset(rows) - multiset{rows[i]}
    ensures |rows| > 1 ==>
      (forall k :: 0 <= k < i ==> r[k] == rows[k]) && (forall k :: i <= k < |r| ==> r[k] == rows[k + 1])
    ensures |rows| == 1 ==> r == rows
    ensures |r| >= 1
  {
    if |rows| > 1 then
      assert rows == rows[..i] + [rows[i]] + rows[i + 1..];
      rows[..i] + rows[i + 1..]
    else rows
  }

  class LineItems {
    /** The rows of `itemsContainer`, each named by the number it was
        created with. */
    var rows: seq<nat>
    var nextRow: nat
    var message: Option<Message>

    ghost predicate Valid()
      reads this
    {
      && |rows| >= 1
      && (forall k :: 0 <= k < |rows| ==> rows[k] < nextRow)
      && (forall j, k :: 0 <= j < k < |rows| ==> rows[j] != rows[k])
    }

    /** Initialisation adds one row. */
    constructor ()
      ensures Valid() && |rows| == 1 && message == None
    {
      rows := [0];
      nextRow := 1;
      message := None;
    }

    method AddItem()
      requires Valid()
      modifies this
      ensures Valid()
      ensures rows == old(rows) + [old(nextRow)] && message == old(message)
    {
      rows := rows + [nextRow];
      nextRow := nextRow + 1;
    }

    method RemoveItem(i: nat)
      requires Valid() && i < |rows|
      modifies this
      ensures Valid()
      ensures rows == RemoveRow(old(rows), i)
      ensures old(|rows|) == 1 ==> message == Some(Message(AT_LEAST_ONE_LINE, ErrorType))
      ensures old(|rows|) > 1 ==> message == old(message)
    {
      if |rows| > 1 {
        rows := rows[..i] + rows[i + 1..];
      } else {
        message := Some(Message(AT_LEAST_ONE_LINE, ErrorType));
      }
    }
  }

  // ---------------------------------------------------------------------
  // Upload panel (`handleFileSelect`, `clearSelectedFile`, `uploadFile`)
  // ---------------------------------------------------------------------

  datatype SelectedFile = SelectedFile(name: string, size: nat)

  /** How the POST to `/invoices/upload` ended: a record with its id, a
      non-ok status with the `detail` of its JSON body, or a thrown error. */
  datatype UploadResult =
    | Imported(id: string)
    | Rejected(status: nat, detail: Option<string>)
    | Thrown(reason: string)

  const INVALID_TYPE := "Type de fichier invalide. Formats acceptes: PDF, XML"
  const UPLOAD_ERROR_PREFIX := "Erreur lors de l'import: "

  /** The message of the error `uploadFile` throws or catches. */
  function UploadErrorReason(result: UploadResult): string
    requires !result.Imported?
  {
    match result
    case Rejected(status, detail) =>
      if detail.Some? && detail.value != "" then detail.value else "Erreur " + NatToString(status)
    case Thrown(reason) => reason
  }

  /** The message shown once the upload has finished. */
  function UploadMessage(result: UploadResult): (m: Message)
    ensures m.kind == SuccessType <==> result.Imported?
    ensures result.Imported? ==> m.text == "Facture " + result.id + " importee avec succes !"
    ensures !result.Imported? ==> StartsWith(m.text, UPLOAD_ERROR_PREFIX)
  {
    if result.Imported? then Message("Facture " + result.id + " importee avec succes !", SuccessType)
    else
      var text := UPLOAD_ERROR_PREFIX + UploadErrorReason(result);
      assert text[..|UPLOAD_ERROR_PREFIX|] == UPLOAD_ERROR_PREFIX;
      Message(text, ErrorType)
  }

  class UploadPanel {
    var selectedFile: Option<SelectedFile>
    var uploadDisabled: bool
    var previewShown: bool
    var previewName: string
    var previewSize: string
    var uploadMessage: Option<Message>
    /** How many `uploadFile` calls are waiting for the server. */
    ghost var pending: nat

    /** What holds at every step, requests in flight or not: the preview
        shows exactly when a file is selected, only a file that passed the
        gate is held, an enabled button means a file is held, and with no
        request in flight the button is enabled exactly when a file is. */
    ghost predicate Consistent()
      reads this
    {
      && (pending == 0 ==> uploadDisabled == selectedFile.None?)
      && (!uploadDisabled ==> selectedFile.Some?)
      && previewShown == selectedFile.Some?
      && (selectedFile.Some? ==> Accepted(selectedFile.value.name))
    }

    /** The panel at rest: nothing in flight, so the button is enabled
        exactly when a file is selected. */
    ghost predicate Valid()
      reads this
    {
      Consistent() && pending == 0
    }

    /** The page starts with no file and a disabled button. */
    constructor ()
      ensures Valid() && selectedFile.None? && uploadMessage.None?
    {
      selectedFile := None;
      uploadDisabled := true;
      previewShown := false;
      previewName := "";
      previewSize := "";
      uploadMessage := None;
      pending := 0;
    }

    /** `handleFileSelect`; it can also run while an upload is in flight. */
    method HandleFileSelect(file: SelectedFile, toFixed1: real -> string)
      requires Consistent()
      modifies this
      ensures Consistent() && pending == old(pending)
      ensures old(Valid()) ==> Valid()
      ensures !Accepted(file.name) ==>
        && selectedFile == old(selectedFile) && uploadDisabled == old(uploadDisabled)
        && previewShown == old(previewShown) && previewName == old(previewName)
        && previewSize == old(previewSize)
        && uploadMessage == Some(Message(INVALID_TYPE, ErrorType))
      ensures Accepted(file.name) ==>
        && selectedFile == Some(file) && !uploadDisabled && previewShown
        && previewName == file.name && previewSize == FormatFileSize(file.size, toFixed1)
        && uploadMessage.None?
    {
      var ext := FileExtension(file.name);
      if ext != "pdf" && ext != "xml" {
        uploadMessage := Some(Message(INVALID_TYPE, ErrorType));
        return;
      }
      selectedFile := Some(file);
      previewName := file.name;
      previewSize := FormatFileSize(file.size, toFixed1);
      previewShown := true;
      uploadDisabled := false;
      uploadMessage := None;
    }

    /** `clearSelectedFile`, also reached by the remove button at any time. */
    method ClearSelectedFile()
      modifies this
      ensures old(Consistent()) ==> Consistent()
      ensures pending == old(pending)
      ensures old(pending) == 0 ==> Valid()
      ensures selectedFile.None? && uploadDisabled && !previewShown
      ensures previewName == old(previewName) && previewSize == old(previewSize)
      ensures uploadMessage == old(uploadMessage)
    {
      selectedFile := None;
      previewShown := false;
      uploadDisabled := true;
    }

    /** `uploadFile` up to its first `await`: without a file nothing
        happens; otherwise the button is disabled and the held file is
        sent, and the request stays in flight until `FinishUpload`. */
    method BeginUpload() returns (sent: Option<SelectedFile>)
      requires Consistent()
      modifies this
      ensures Consistent()
      ensures sent == old(selectedFile)
      ensures sent.None? ==>
        && uploadDisabled == old(uploadDisabled) && pending == old(pending)
      ensures sent.Some? ==> uploadDisabled && pending == old(pending) + 1
      ensures selectedFile == old(selectedFile) && previewShown == old(previewShown)
      ensures previewName == old(previewName) && previewSize == old(previewSize)
      ensures uploadMessage == old(uploadMessage)
    {
      sent := selectedFile;
      if selectedFile.None? {
        return;
      }
      uploadDisabled := true;
      pending := pending + 1;
    }

    /** The rest of `uploadFile`, once the server has answered with
        `result`.  It reads the panel as the handlers that ran meanwhile
        left it: a success clears whatever file is held then, a failure
        keeps it, and the button ends enabled exactly when a file is held. */
    method FinishUpload(result: UploadResult)
      requires Consistent() && pending > 0
      modifies this
      ensures Consistent()
      ensures pending == old(pending) - 1
      ensures uploadMessage == Some(UploadMessage(result))
      ensures result.Imported? ==> selectedFile.None? && !previewShown
      ensures !result.Imported? ==>
        selectedFile == old(selectedFile) && previewShown == old(previewShown)
      ensures uploadDisabled == selectedFile.None?
      ensures previewName == old(previewName) && previewSize == old(previewSize)
    {
      if result.Imported? {
        uploadMessage := Some(Message("Facture " + result.id + " importee avec succes !", SuccessType));
        ClearSelectedFile();
      } else {
        uploadMessage := Some(Message(UPLOAD_ERROR_PREFIX + UploadErrorReason(result), ErrorType));
      }
      uploadDisabled := selectedFile.None?;
      pending := pending - 1;
    }

    /** `uploadFile` when no other handler runs before the response
        arrives: without a file nothing happens; a success clears the
        selection; a failure keeps it; either way the button ends enabled
        exactly when a file is still selected. */
    method UploadFile(result: UploadResult)
      requires Valid()
      modifies this
      ensures Valid()
      ensures old(selectedFile).None? ==>
        && selectedFile == old(selectedFile) && uploadDisabled == old(uploadDisabled)
        && uploadMessage == old(uploadMessage) && previewShown == old(previewShown)
      ensures old(selectedFile).Some? ==>
        && uploadMessage == Some(UploadMessage(result))
        && (result.Imported? ==> selectedFile.None?)
        && (!result.Imported? ==> selectedFile == old(selectedFile))
      ensures uploadDisabled == selectedFile.None?
      ensures previewName == old(previewName) && previewSize == old(previewSize)
    {
      var sent := BeginUpload();
      if sent.Some? {
        FinishUpload(result);
      }
    }
  }

  /** A file is selected and sent, the remove button is clicked while the
      request is in flight, and the request fails: no file is left and the
      button ends disabled, although the failure alone would keep the file. */
  method RemoveDuringFailedUpload(reason: string)
    returns (sent: Option<SelectedFile>, held: Option<SelectedFile>, disabled: bool)
    ensures sent.Some? && held.None? && disabled
  {
    var panel := new UploadPanel();
    var file := SelectedFile("facture.pdf", 2048);
    assert Accepted(file.name) by {
      assert ToLowerAscii("facture.pdf") == "facture" + ['.'] + "pdf";
      LastSegmentOfDotted("facture", "pdf", '.');
    }
    panel.HandleFileSelect(file, x => "2.0");
    sent := panel.BeginUpload();
    panel.ClearSelectedFile();
    panel.FinishUpload(Thrown(reason));
    held, disabled := panel.selectedFile, panel.uploadDisabled;
  }
}
