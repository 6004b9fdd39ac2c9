/** An abstract XML tree for UN/CEFACT Cross-Industry Invoice documents and
    the XPath subset xml_processor.py uses: `//s1/s2/.../sn` and
    `//s1/.../sn/text()`, with prefixes resolved through a namespace map. */
module CiiTree {
  import opened Wrappers
  import opened Text

  /** An expanded element name: namespace URI ("" for none) and local name. */
  datatype QName = QName(uri: string, local: string)

  /** A parsed element: its name, its text before the first child ("" when
      there is no such text node) and its children in document order. */
  datatype Element = Element(name: QName, text: string, children: seq<Element>)

  /** One location step `prefix:local`. */
  datatype Step = Step(prefix: string, local: string)

  /** `//s1/.../sn`, followed by `/text()` when `selectsText` holds. */
  datatype XPath = XPath(steps: seq<Step>, selectsText: bool)

  const RSM_URI := "urn:un:unece:uncefact:data:standard:CrossIndustryInvoice:100"
  const RAM_URI := "urn:un:unece:uncefact:data:standard:ReusableAggregateBusinessInformationEntity:100"
  const UDT_URI := "urn:un:unece:uncefact:data:standard:UnqualifiedDataType:100"
  const QDT_URI := "urn:un:unece:uncefact:data:standard:QualifiedDataType:100"

  /** The built-in CII prefix table (xml_processor.py:16-21). */
  const NAMESPACES: map<string, string> :=
    map["rsm" := RSM_URI, "ram" := RAM_URI, "udt" := UDT_URI, "qdt" := QDT_URI]

  function StepText(s: Step): string {
    s.prefix + ":" + s.local
  }

  /** The XPath as the source writes it. */
  function Render(p: XPath): string {
    "//" + Join(seq(|p.steps|, i requires 0 <= i < |p.steps| => StepText(p.steps[i])), "/")
    + (if p.selectsText then "/text()" else "")
  }

  lemma RenderOneStep(s: Step, selectsText: bool)
    ensures Render(XPath([s], selectsText)) == "//" + StepText(s) + (if selectsText then "/text()" else "")
  {
    var parts := seq(1, i requires 0 <= i < 1 => StepText([s][i]));
    assert parts == [StepText(s)];
  }

  /** lxml's `element.tag`: Clark notation `{uri}local`, or `local` alone. */
  function ClarkTag(q: QName): string {
    if q.uri == "" then q.local else "{" + q.uri + "}" + q.local
  }

  /** For a suffix without `}`, the Clark tag ends with it exactly when the
      local name does: the namespace URI never takes part in the test. */
  lemma ClarkTagEndsWith(q: QName, suffix: string)
    requires '}' !in suffix
    ensures EndsWith(ClarkTag(q), suffix) <==> EndsWith(q.local, suffix)
  {
    var tag := ClarkTag(q);
    if q.uri != "" {
      var head := "{" + q.uri + "}";
      assert tag == head + q.local;
      if |suffix| <= |q.local| {
        assert tag[|tag| - |suffix|..] == q.local[|q.local| - |suffix|..];
      } else if |suffix| <= |tag| {
        var j := |head| - 1 - (|tag| - |suffix|);
        assert tag[|tag| - |suffix|..][j] == '}';
        assert suffix[j] != '}';
      }
    }
  }

  /** The namespace map `extract_metadata_from_xml` evaluates with
      (xml_processor.py:131-137): the document's own declarations without the
      default namespace (key None), laid over the built-in table. */
  function MergeNamespaces(docNsmap: map<Option<string>, string>): (r: map<string, string>)
    ensures forall p :: Some(p) in docNsmap ==> p in r && r[p] == docNsmap[Some(p)]
    ensures forall p :: p in NAMESPACES && Some(p) !in docNsmap ==> p in r && r[p] == NAMESPACES[p]
    ensures forall p :: p in r ==> p in NAMESPACES || Some(p) in docNsmap
    ensures NAMESPACES.Keys <= r.Keys
  {
    var nsmap := docNsmap - {None};
    var prefixed := map k | k in nsmap && k.Some? :: k.value := nsmap[k];
    assert forall p :: Some(p) in docNsmap ==> Some(p) in nsmap && p in prefixed;
    NAMESPACES + prefixed
  }

  /** Every prefix of the steps is bound in `ns`. */
  predicate Bound(ns: map<string, string>, steps: seq<Step>) {
    forall i :: 0 <= i < |steps| ==> steps[i].prefix in ns
  }

  lemma BoundCons(ns: map<string, string>, s: Step, rest: seq<Step>)
    requires s.prefix in ns && Bound(ns, rest)
    ensures Bound(ns, [s] + rest)
  {
    assert forall i :: 0 < i < |rest| + 1 ==> ([s] + rest)[i] == rest[i - 1];
  }

  function Resolve(ns: map<string, string>, steps: seq<Step>): (r: seq<QName>)
    requires Bound(ns, steps)
    ensures |r| == |steps|
    ensures forall i :: 0 <= i < |steps| ==> r[i] == QName(ns[steps[i].prefix], steps[i].local)
  {
    seq(|steps|, i requires 0 <= i < |steps| => QName(ns[steps[i].prefix], steps[i].local))
  }

  /** The names from the document root down to an element end with `path`:
      the element is the last step of a chain `path[0]/.../path[n-1]`
      of parent-child links. */
  predicate EndsWithPath(chain: seq<QName>, path: seq<QName>) {
    |path| <= |chain| && chain[|chain| - |path|..] == path
  }

  /** The elements of the subtree at `e` (whose ancestors' names are
      `ancestors`) that `//path` selects, in document order (preorder). */
  function Select(e: Element, ancestors: seq<QName>, path: seq<QName>): (r: seq<Element>)
    ensures |path| > 0 ==> forall x :: x in r ==> x.name == path[|path| - 1]
    decreases e, 1
  {
    var chain := ancestors + [e.name];
    (if EndsWithPath(chain, path) then [e] else []) + SelectAll(e.children, chain, path)
  }

  function SelectAll(es: seq<Element>, ancestors: seq<QName>, path: seq<QName>): (r: seq<Element>)
    ensures |path| > 0 ==> forall x :: x in r ==> x.name == path[|path| - 1]
    decreases es, 0
  {
    if es == [] then [] else Select(es[0], ancestors, path) + SelectAll(es[1..], ancestors, path)
  }

  /** `text()` applied to a node list: the text nodes, in order. */
  function Texts(es: seq<Element>): (r: seq<string>)
    ensures |r| <= |es|
    ensures forall t :: t in r ==> t != ""
    decreases |es|
  {
    if es == [] then []
    else (if es[0].text != "" then [es[0].text] else []) + Texts(es[1..])
  }

  /** `root.xpath(p, namespaces=ns)` for a path without `text()`. */
  function Elements(root: Element, ns: map<string, string>, p: XPath): seq<Element>
    requires Bound(ns, p.steps)
  {
    Select(root, [], Resolve(ns, p.steps))
  }

  /** `root.xpath(p, namespaces=ns)` for a `.../text()` path. */
  function TextNodes(root: Element, ns: map<string, string>, p: XPath): seq<string>
    requires Bound(ns, p.steps)
  {
    Texts(Elements(root, ns, p))
  }

  /** Ends-with is transitive. */
  lemma EndsWithPathTrans(chain: seq<QName>, path: seq<QName>, suffix: seq<QName>)
    requires EndsWithPath(chain, path) && EndsWithPath(path, suffix)
    ensures EndsWithPath(chain, suffix)
  {
    assert chain[|chain| - |suffix|..] == chain[|chain| - |path|..][|path| - |suffix|..];
  }

  /** Every element `//p1/.../pn` selects is also selected by any shorter
      path `//pk/.../pn` made of the last steps. */
  lemma {:induction false} SelectSuffix(e: Element, ancestors: seq<QName>, path: seq<QName>, suffix: seq<QName>)
    requires EndsWithPath(path, suffix)
    ensures forall x :: x in Select(e, ancestors, path) ==> x in Select(e, ancestors, suffix)
    decreases e, 1
  {
    var chain := ancestors + [e.name];
    if EndsWithPath(chain, path) {
      EndsWithPathTrans(chain, path, suffix);
    }
    SelectAllSuffix(e.children, chain, path, suffix);
  }

  lemma {:induction false} SelectAllSuffix(es: seq<Element>, ancestors: seq<QName>, path: seq<QName>, suffix: seq<QName>)
    requires EndsWithPath(path, suffix)
    ensures forall x :: x in SelectAll(es, ancestors, path) ==> x in SelectAll(es, ancestors, suffix)
    decreases es, 0
  {
    if es != [] {
      SelectSuffix(es[0], ancestors, path, suffix);
      SelectAllSuffix(es[1..], ancestors, path, suffix);
    }
  }

  /** `text()` yields something exactly when some selected element has text. */
  lemma {:induction false} TextsNonEmpty(es: seq<Element>)
    ensures |Texts(es)| > 0 <==> exists x :: x in es && x.text != ""
    decreases |es|
  {
    if es != [] {
      TextsNonEmpty(es[1..]);
      assert forall x :: x in es <==> x == es[0] || x in es[1..];
    }
  }

  /** Resolving keeps a suffix of the steps a suffix of the names. */
  lemma ResolveSuffix(ns: map<string, string>, steps: seq<Step>, suffix: seq<Step>)
    requires Bound(ns, steps) && Bound(ns, suffix)
    requires |suffix| <= |steps| && steps[|steps| - |suffix|..] == suffix
    ensures EndsWithPath(Resolve(ns, steps), Resolve(ns, suffix))
  {
    var p := Resolve(ns, steps);
    var q := Resolve(ns, suffix);
    var d := |steps| - |suffix|;
    forall i | 0 <= i < |q| ensures p[d + i] == q[i] {
      assert steps[d + i] == suffix[i];
    }
    assert p[|p| - |q|..] == q;
  }

  /** A `.../text()` path with more leading steps finds text only where its
      shorter form does. */
  lemma ScopedTextImpliesUnscoped(root: Element, ns: map<string, string>, scoped: XPath, unscoped: XPath)
    requires Bound(ns, scoped.steps) && Bound(ns, unscoped.steps)
    requires |unscoped.steps| <= |scoped.steps| && scoped.steps[|scoped.steps| - |unscoped.steps|..] == unscoped.steps
    ensures |TextNodes(root, ns, scoped)| > 0 ==> |TextNodes(root, ns, unscoped)| > 0
  {
    var es1 := Elements(root, ns, scoped);
    var es2 := Elements(root, ns, unscoped);
    if |Texts(es1)| > 0 {
      TextsNonEmpty(es1);
      var x :| x in es1 && x.text != "";
      ResolveSuffix(ns, scoped.steps, unscoped.steps);
      SelectSuffix(root, [], Resolve(ns, scoped.steps), Resolve(ns, unscoped.steps));
      assert x in es2;
      TextsNonEmpty(es2);
    }
  }

  /** Two namespace maps that agree on the prefixes of the steps resolve
      them to the same names. */
  lemma ResolveAgree(ns1: map<string, string>, ns2: map<string, string>, steps: seq<Step>)
    requires Bound(ns1, steps) && Bound(ns2, steps)
    requires forall i :: 0 <= i < |steps| ==> ns1[steps[i].prefix] == ns2[steps[i].prefix]
    ensures Resolve(ns1, steps) == Resolve(ns2, steps)
  {
  }
}
