/** The MetaElements gatherer: the per-`<meta>` mapping it evaluates in the
    page, and its `afterPass`. */
module MetaElementsGatherer {
  import opened Wrappers
  import opened Ascii
  import opened Artifacts
  import opened Channel
  import opened Lists

  /** An opaque label for the TypeError that reading `meta.attributes[0].name`
      raises on an element without attributes; the browser's own wording of
      that error, and the channel's wrapping of it, are not modelled. */
  const NoFirstAttribute: string := "TypeError"

  /** The value of the first attribute called `name`, as `getAttribute` and
      `attributes[name]` see it. */
  function GetAttribute(attributes: seq<Attribute>, name: string): Option<string> {
    if attributes == [] then None
    else if attributes[0].name == name then Some(attributes[0].value)
    else GetAttribute(attributes[1..], name)
  }

  /** A value `GetAttribute` finds is the value of an attribute of that name,
      and it finds one whenever such an attribute exists. */
  lemma {:induction false} GetAttributeFinds(attributes: seq<Attribute>, name: string)
    ensures GetAttribute(attributes, name).None? <==>
              forall i :: 0 <= i < |attributes| ==> attributes[i].name != name
    ensures GetAttribute(attributes, name).Some? ==>
              exists i :: 0 <= i < |attributes| && attributes[i] == Attribute(name, GetAttribute(attributes, name).value)
  {
    if attributes != [] && attributes[0].name != name {
      GetAttributeFinds(attributes[1..], name);
      assert forall i :: 1 <= i < |attributes| ==> attributes[i] == attributes[1..][i - 1];
      if GetAttribute(attributes, name).Some? {
        var i :| 0 <= i < |attributes[1..]| && attributes[1..][i] == Attribute(name, GetAttribute(attributes, name).value);
        assert attributes[i + 1] == attributes[1..][i];
      }
    }
  }

  /** The reflected `meta.httpEquiv`: the `http-equiv` attribute, or "" when absent. */
  function HttpEquiv(m: MetaElement): string {
    GetAttribute(m.attributes, "http-equiv").GetOr("")
  }

  /** The reflected `meta.name`. */
  function NameAttribute(m: MetaElement): string {
    GetAttribute(m.attributes, "name").GetOr("")
  }

  /** The reflected `meta.content`. */
  function ContentAttribute(m: MetaElement): string {
    GetAttribute(m.attributes, "content").GetOr("")
  }

  /** The mapping callback for one `<meta>`: `name` from a non-empty
      `http-equiv`, else from a `charset` attribute in first position, else
      from `name`; it throws on an element without attributes once
      `http-equiv` is empty. */
  function Normalize(m: MetaElement): (r: Result<MetaArtifact, string>)
    ensures r.Failure? <==> m.attributes == []
    ensures r.Failure? ==> r.error == NoFirstAttribute
    ensures r.Success? ==> IsLower(r.value.name)
    ensures r.Success? ==> r.value.property == GetAttribute(m.attributes, "property")
  {
    var httpEquiv := HttpEquiv(m);
    var property := GetAttribute(m.attributes, "property");
    if httpEquiv != "" then
      Success(MetaArtifact(Lower(httpEquiv), ContentAttribute(m), property))
    else if |m.attributes| == 0 then
      Failure(NoFirstAttribute)
    else if m.attributes[0].name == "charset" then
      var charset := m.attributes[0].value;
      Success(MetaArtifact(Lower(m.attributes[0].name),
                           if charset != "" then charset else ContentAttribute(m),
                           property))
    else
      Success(MetaArtifact(Lower(NameAttribute(m)), ContentAttribute(m), property))
  }

  /** A non-empty `http-equiv` decides the name and takes the content
      attribute, whatever the first attribute is. */
  lemma HttpEquivWins(m: MetaElement)
    requires HttpEquiv(m) != ""
    ensures Normalize(m) == Success(MetaArtifact(Lower(HttpEquiv(m)), ContentAttribute(m),
                                                 GetAttribute(m.attributes, "property")))
  {
  }

  /** Without `http-equiv`, a first attribute named `charset` gives the name
      `charset` and its own value as content, falling back to the content
      attribute when that value is empty. */
  lemma CharsetInFirstPosition(m: MetaElement)
    requires HttpEquiv(m) == ""
    requires m.attributes != [] && m.attributes[0].name == "charset"
    ensures Normalize(m).Success? && Normalize(m).value.name == "charset"
    ensures m.attributes[0].value != "" ==> Normalize(m).value.content == m.attributes[0].value
    ensures m.attributes[0].value == "" ==> Normalize(m).value.content == ContentAttribute(m)
  {
    LowerCharset();
  }

  lemma LowerCharset()
    ensures Lower("charset") == "charset"
  {
    assert IsLower("charset");
    LowerOfLower("charset");
  }

  /** A `charset` attribute anywhere but first is not recognised: the name
      comes from the `name` attribute. */
  lemma CharsetElsewhereIgnored(m: MetaElement)
    requires HttpEquiv(m) == ""
    requires m.attributes != [] && m.attributes[0].name != "charset"
    ensures Normalize(m) == Success(MetaArtifact(Lower(NameAttribute(m)), ContentAttribute(m),
                                                 GetAttribute(m.attributes, "property")))
  {
  }

  /** The content of a normalised element is the value of one of its
      attributes, or empty: nothing is invented. */
  lemma ContentFromAttributes(m: MetaElement)
    requires Normalize(m).Success?
    ensures Normalize(m).value.content == ""
            || exists i :: 0 <= i < |m.attributes| && m.attributes[i].value == Normalize(m).value.content
  {
    var r := Normalize(m).value;
    if r.content != "" && r.content != m.attributes[0].value {
      GetAttributeFinds(m.attributes, "content");
    }
  }

  /** The whole `getElementsInDocument('head meta').map(...)`: one record per
      element, in document order, or the first element's throw. */
  function ExtractMetas(metas: seq<MetaElement>): (r: Result<seq<MetaArtifact>, string>)
    ensures r.Success? <==> forall i :: 0 <= i < |metas| ==> metas[i].attributes != []
    ensures r.Failure? ==> r.error == NoFirstAttribute
    ensures r.Success? ==> |r.value| == |metas|
    ensures r.Success? ==> forall i :: 0 <= i < |metas| ==> Normalize(metas[i]) == Success(r.value[i])
  {
    TryMap(metas, Normalize)
  }

  /** Extraction of consecutive runs of elements concatenates. */
  lemma ExtractMetasAppend(a: seq<MetaElement>, b: seq<MetaElement>)
    requires ExtractMetas(a).Success? && ExtractMetas(b).Success?
    ensures ExtractMetas(a + b) == Success(ExtractMetas(a).value + ExtractMetas(b).value)
  {
    TryMapAppend(a, b, Normalize);
  }

  /** The procedure the gatherer sends through the channel. */
  function Procedure(): Document -> Result<seq<MetaArtifact>, string> {
    (document: Document) => ExtractMetas(document.headMetas)
  }

  /** The MetaElements gatherer's `afterPass`: the channel's settlement of the
      extraction, resolved exactly when the page is reachable and no head
      `<meta>` lacks attributes. */
  function AfterPass(target: Target): (r: Evaluation<seq<MetaArtifact>>)
    ensures r.Resolved? <==>
              target.Attached? && forall i :: 0 <= i < |target.document.headMetas| ==>
                                    target.document.headMetas[i].attributes != []
    ensures r.Resolved? ==> |r.value| == |target.document.headMetas|
    ensures r.Resolved? ==> forall i :: 0 <= i < |r.value| ==>
                              Normalize(target.document.headMetas[i]) == Success(r.value[i])
    ensures target.Detached? ==> r == Rejected(target.reason)
    ensures target.Attached? && r.Rejected? ==> r.reason == NoFirstAttribute
  {
    Evaluate(target, Procedure())
  }

  /** `<meta http-equiv="refresh" content="5">` is named by its http-equiv. */
  lemma ExampleHttpEquiv()
    ensures Normalize(MetaElement([Attribute("http-equiv", "refresh"), Attribute("content", "5")]))
            == Success(MetaArtifact("refresh", "5", None))
  {
    var attributes := [Attribute("http-equiv", "refresh"), Attribute("content", "5")];
    assert attributes[1..] == [Attribute("content", "5")];
    assert attributes[1..][1..] == [];
    assert IsLower("refresh");
    LowerOfLower("refresh");
  }

  /** `<meta charset="utf-8">` is named `charset`. */
  lemma ExampleCharset()
    ensures Normalize(MetaElement([Attribute("charset", "utf-8")]))
            == Success(MetaArtifact("charset", "utf-8", None))
  {
    var attributes := [Attribute("charset", "utf-8")];
    assert attributes[1..] == [];
    LowerCharset();
  }

  /** `<meta name="x" charset="utf-8">`: the charset in second position is
      not recognised, and the content is empty. */
  lemma ExampleCharsetSecond()
    ensures Normalize(MetaElement([Attribute("name", "x"), Attribute("charset", "utf-8")]))
            == Success(MetaArtifact("x", "", None))
  {
    var attributes := [Attribute("name", "x"), Attribute("charset", "utf-8")];
    assert attributes[1..] == [Attribute("charset", "utf-8")];
    assert attributes[1..][1..] == [];
    assert IsLower("x");
    LowerOfLower("x");
  }
}
