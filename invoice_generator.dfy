/** The totals block of `generate_invoice_pdf` (invoice_generator.py):
    tax basis, the dictionary of VAT amounts keyed by rate, total VAT and
    grand total; and the result shape of the Factur-X embedding step, whose
    renderers and embedding library are parameters. */
module InvoiceGenerator {
  import opened Wrappers
  import opened Models

  /** quantity × unit_price: the line's contribution to the tax basis. */
  function LineTotal(item: LineItem): real {
    item.quantity * item.unitPrice
  }

  /** The VAT of one line: its total times rate / 100. */
  function LineVat(item: LineItem): real {
    LineTotal(item) * (item.vatRate / 100.0)
  }

  /** The line amount including its VAT. */
  function LineGross(item: LineItem): real {
    LineTotal(item) * (1.0 + item.vatRate / 100.0)
  }

  /** `sum(item.quantity * item.unit_price for item in invoice.items)`,
      added from left to right. */
  function TaxBasis(items: seq<LineItem>): real
    decreases |items|
  {
    if items == [] then 0.0 else TaxBasis(items[..|items| - 1]) + LineTotal(items[|items| - 1])
  }

  /** The sum of the per-line VAT amounts, with no grouping. */
  function ItemsVat(items: seq<LineItem>): real
    decreases |items|
  {
    if items == [] then 0.0 else ItemsVat(items[..|items| - 1]) + LineVat(items[|items| - 1])
  }

  /** The sum of the gross line amounts. */
  function GrossSum(items: seq<LineItem>): real
    decreases |items|
  {
    if items == [] then 0.0 else GrossSum(items[..|items| - 1]) + LineGross(items[|items| - 1])
  }

  /** The distinct VAT rates of the items. */
  function Rates(items: seq<LineItem>): set<real>
    decreases |items|
  {
    if items == [] then {} else Rates(items[..|items| - 1]) + {items[|items| - 1].vatRate}
  }

  /** A rate is in Rates exactly when some item carries it. */
  lemma {:induction false} RatesMembership(items: seq<LineItem>, r: real)
    ensures r in Rates(items) <==> exists i :: 0 <= i < |items| && items[i].vatRate == r
    decreases |items|
  {
    if items != [] {
      var prefix := items[..|items| - 1];
      RatesMembership(prefix, r);
      assert forall i :: 0 <= i < |prefix| ==> prefix[i] == items[i];
    }
  }

  /** The VAT of the items whose rate is exactly `rate`. */
  function RateVat(items: seq<LineItem>, rate: real): real
    decreases |items|
  {
    if items == [] then 0.0
    else
      var last := items[|items| - 1];
      RateVat(items[..|items| - 1], rate) + (if last.vatRate == rate then LineVat(last) else 0.0)
  }

  /** A rate no item carries accumulates nothing. */
  lemma {:induction false} RateVatAbsent(items: seq<LineItem>, rate: real)
    requires rate !in Rates(items)
    ensures RateVat(items, rate) == 0.0
    decreases |items|
  {
    if items != [] {
      RateVatAbsent(items[..|items| - 1], rate);
    }
  }

  lemma NonEmptyHasKey(m: map<real, real>)
    requires |m| != 0
    ensures exists k :: k in m
  {
    if forall k :: k !in m {
      assert false;
    }
  }

  /** The sum of the values of a map, in no particular order. */
  ghost function SumValues(m: map<real, real>): real
    decreases |m|
  {
    if |m| == 0 then 0.0
    else
      NonEmptyHasKey(m);
      var k :| k in m;
      assert (m - {k}).Keys == m.Keys - {k};
      m[k] + SumValues(m - {k})
  }

  /** Any key may be taken out first. */
  lemma {:induction false} SumValuesRemove(m: map<real, real>, k: real)
    requires k in m
    ensures SumValues(m) == m[k] + SumValues(m - {k})
    decreases |m|
  {
    var j :| j in m && SumValues(m) == m[j] + SumValues(m - {j});
    if j != k {
      assert (m - {j}).Keys == m.Keys - {j};
      assert (m - {k}).Keys == m.Keys - {k};
      SumValuesRemove(m - {j}, k);
      SumValuesRemove(m - {k}, j);
      assert m - {j} - {k} == m - {k} - {j};
    }
  }

  /** Setting one entry changes the sum by the difference. */
  lemma SumValuesUpdate(m: map<real, real>, k: real, v: real)
    ensures SumValues(m[k := v]) == SumValues(m) - (if k in m then m[k] else 0.0) + v
  {
    SumValuesRemove(m[k := v], k);
    assert m[k := v] - {k} == m - {k};
    if k in m {
      SumValuesRemove(m, k);
    } else {
      assert m - {k} == m;
    }
  }

  /** The VAT dictionary as the source fills it: one bucket per distinct
      rate, each holding the VAT of the items with that rate. */
  function VatBuckets(items: seq<LineItem>): (buckets: map<real, real>)
    ensures buckets.Keys == Rates(items)
  {
    map r | r in Rates(items) :: RateVat(items, r)
  }

  /** Adding one item to the end adds its VAT to the bucket of its rate,
      creating the bucket at 0 first when the rate is new. */
  lemma VatBucketsSnoc(items: seq<LineItem>)
    requires items != []
    ensures var before := VatBuckets(items[..|items| - 1]);
            var last := items[|items| - 1];
            VatBuckets(items) == before[last.vatRate :=
              (if last.vatRate in before then before[last.vatRate] else 0.0) + LineVat(last)]
  {
    var prefix := items[..|items| - 1];
    var last := items[|items| - 1];
    if last.vatRate !in Rates(prefix) {
      RateVatAbsent(prefix, last.vatRate);
    }
  }

  /** Bucketing preserves the VAT: the buckets add up to the per-item VAT sum. */
  lemma {:induction false} BucketingPreservesVat(items: seq<LineItem>)
    ensures SumValues(VatBuckets(items)) == ItemsVat(items)
    decreases |items|
  {
    if items == [] {
      assert VatBuckets(items) == map[];
    } else {
      var prefix := items[..|items| - 1];
      var last := items[|items| - 1];
      var before := VatBuckets(prefix);
      BucketingPreservesVat(prefix);
      VatBucketsSnoc(items);
      SumValuesUpdate(before, last.vatRate,
        (if last.vatRate in before then before[last.vatRate] else 0.0) + LineVat(last));
    }
  }

  /** The grand total is the sum of the gross line amounts. */
  lemma {:induction false} GrandTotalIsGrossSum(items: seq<LineItem>)
    ensures TaxBasis(items) + ItemsVat(items) == GrossSum(items)
    decreases |items|
  {
    if items != [] {
      GrandTotalIsGrossSum(items[..|items| - 1]);
      var last := items[|items| - 1];
      assert LineTotal(last) + LineVat(last) == LineGross(last);
    }
  }

  /** Lines 22-28: the loop that fills `vat_amounts`. */
  method GroupVatByRate(items: seq<LineItem>) returns (vatAmounts: map<real, real>)
    ensures vatAmounts.Keys == Rates(items)
    ensures forall r :: r in vatAmounts ==> vatAmounts[r] == RateVat(items, r)
  {
    vatAmounts := map[];
    for i := 0 to |items|
      invariant vatAmounts == VatBuckets(items[..i])
    {
      var item := items[i];
      var lineTotal := item.quantity * item.unitPrice;
      var vatAmount := lineTotal * (item.vatRate / 100.0);
      assert items[..i + 1][..i] == items[..i];
      assert items[..i + 1][i] == item;
      assert vatAmount == LineVat(item);
      VatBucketsSnoc(items[..i + 1]);
      if item.vatRate !in vatAmounts {
        vatAmounts := vatAmounts[item.vatRate := 0.0];
      }
      vatAmounts := vatAmounts[item.vatRate := vatAmounts[item.vatRate] + vatAmount];
    }
    assert items[..|items|] == items;
  }

  /** Line 30: `sum(vat_amounts.values())`. */
  method SumBucketValues(buckets: map<real, real>) returns (total: real)
    ensures total == SumValues(buckets)
  {
    total := 0.0;
    var rest := buckets;
    while rest != map[]
      invariant total + SumValues(rest) == SumValues(buckets)
      decreases |rest|
    {
      var k :| k in rest;
      SumValuesRemove(rest, k);
      total := total + rest[k];
      assert (rest - {k}).Keys == rest.Keys - {k};
      rest := rest - {k};
    }
  }

  datatype Totals = Totals(taxBasis: real, vatAmounts: map<real, real>, totalVat: real, totalWithTax: real)

  /** Lines 20-31. */
  method ComputeTotals(items: seq<LineItem>) returns (t: Totals)
    ensures t.taxBasis == TaxBasis(items)
    ensures t.vatAmounts == VatBuckets(items)
    ensures t.totalVat == SumValues(t.vatAmounts) == ItemsVat(items)
    ensures t.totalWithTax == t.taxBasis + t.totalVat == GrossSum(items)
    ensures items == [] ==> t == Totals(0.0, map[], 0.0, 0.0)
  {
    var totalTaxBasis := TaxBasis(items);
    var vatAmounts := GroupVatByRate(items);
    assert vatAmounts == VatBuckets(items);
    var totalVat := SumBucketValues(vatAmounts);
    BucketingPreservesVat(items);
    GrandTotalIsGrossSum(items);
    t := Totals(totalTaxBasis, vatAmounts, totalVat, totalTaxBasis + totalVat);
  }

  /** The request of test_api.py: 5 × 100.0 and 1 × 50.0, both at 20 %. */
  method TestApiScenario() returns (t: Totals)
    ensures t.taxBasis == 550.0
    ensures t.vatAmounts == map[20.0 := 110.0]
    ensures t.totalVat == 110.0 && t.totalWithTax == 660.0
  {
    var consulting := LineItem("Consulting Services", 5.0, 100.0, 20.0);
    var hosting := LineItem("Hosting", 1.0, 50.0, 20.0);
    var items := [consulting, hosting];
    assert items[..1] == [consulting] && [consulting][..0] == [];
    t := ComputeTotals(items);
    assert TaxBasis([consulting]) == 500.0;
    assert TaxBasis(items) == 550.0;
    assert Rates([consulting]) == {20.0};
    assert Rates(items) == {20.0};
    assert RateVat([consulting], 20.0) == 100.0;
    assert RateVat(items, 20.0) == 110.0;
    assert ItemsVat([consulting]) == 100.0;
  }

  /** What the Factur-X library did with the rendered PDF and the XML. */
  datatype EmbedOutcome = Embedded(pdf: Bytes) | EmbedRaised(message: string)

  /** `generate_invoice_pdf`: the PDF and XML renderers, the clock and the
      Factur-X embedder are parameters. A rendering error propagates; an
      embedding error falls back to the plain rendering; the XML returned
      is always the generated XML. */
  method GenerateInvoicePdf(
    invoice: InvoiceRequest,
    renderPdf: (InvoiceRequest, Totals) -> Result<Bytes, string>,
    renderXml: (InvoiceRequest, Totals, string) -> Result<string, string>,
    now: string,
    embed: (Bytes, string) -> EmbedOutcome)
    returns (r: Result<(Bytes, string), string>)
    ensures var t := Totals(TaxBasis(invoice.items), VatBuckets(invoice.items),
                            ItemsVat(invoice.items), GrossSum(invoice.items));
      match renderPdf(invoice, t)
      case Failure(e) => r == Failure(e)
      case Success(pdf) =>
        match renderXml(invoice, t, now)
        case Failure(e) => r == Failure(e)
        case Success(xml) =>
          && r.Success?
          && r.value.1 == xml
          && r.value.0 == (match embed(pdf, xml)
                           case Embedded(final) => final
                           case EmbedRaised(_) => pdf)
  {
    var totals := ComputeTotals(invoice.items);
    var rendered := renderPdf(invoice, totals);
    if rendered.Failure? {
      return Failure(rendered.error);
    }
    var pdfBytes := rendered.value;
    var generated := renderXml(invoice, totals, now);
    if generated.Failure? {
      return Failure(generated.error);
    }
    var xmlContent := generated.value;
    var embedded := embed(pdfBytes, xmlContent);
    match embedded {
      case Embedded(finalPdf) =>
        r := Success((finalPdf, xmlContent));
      case EmbedRaised(_) =>
        r := Success((pdfBytes, xmlContent));
    }
  }
}
