/** The FormFields gatherer: `getFormFields`, run in the page, and `afterPass`. */
module FormFieldsGatherer {
  import opened Wrappers
  import opened Ascii
  import opened Artifacts
  import opened Channel
  import opened Lists

  /** Input types that never become a form-field artifact. */
  const IgnoredInputs: seq<string> := ["hidden", "button", "submit", "checkbox", "radio"]

  /** An `input` of an ignored type: the one kind of control that is dropped.
      `select` and `textarea` pass whatever their type. */
  predicate IsIgnored(e: Element) {
    Lower(e.nodeName) == "input" && e.inputType in IgnoredInputs
  }

  /** The filter callback of `getFormFields`, written as the source writes it. */
  predicate Keep(e: Element) {
    Lower(e.nodeName) != "input"
    || (Lower(e.nodeName) == "input" && !(exists k :: 0 <= k < |IgnoredInputs| && e.inputType == IgnoredInputs[k]))
  }

  /** The filter keeps exactly the controls that are not ignored inputs. */
  lemma KeepIffNotIgnored(e: Element)
    ensures Keep(e) <==> !IsIgnored(e)
  {
  }

  /** An artifact that records an ignored input. */
  predicate IsIgnoredArtifact(f: FormField) {
    f.elementType == "input" && f.inputType in IgnoredInputs
  }

  /** Whether the control has a `placeholder` property: `input` and
      `textarea` do, `select` does not, so its record carries `undefined`. */
  predicate HasPlaceholder(e: Element) {
    Lower(e.nodeName) == "input" || Lower(e.nodeName) == "textarea"
  }

  /** The placeholder as the record stores it. */
  function PlaceholderOf(e: Element): (p: Option<string>)
    ensures p.Some? <==> HasPlaceholder(e)
    ensures p.Some? ==> p.value == e.placeholder
  {
    if HasPlaceholder(e) then Some(e.placeholder) else None
  }

  /** The map callback of `getFormFields`: one flat record per control;
      `nodePath` stands for the page's `getNodePath`, whose definition is not
      part of this model. */
  function ToFormField(e: Element, nodePath: Node -> string): (f: FormField)
    ensures IsIgnoredArtifact(f) <==> IsIgnored(e)
  {
    var formPath := match e.enclosingForm
      case Some(form) => Some(nodePath(form))
      case None => None;
    FormField(e.id, e.name, Lower(e.nodeName), e.inputType, e.autocomplete, PlaceholderOf(e), formPath)
  }

  /** The map callback as a function value. */
  function Record(nodePath: Node -> string): Element -> FormField {
    e => ToFormField(e, nodePath)
  }

  /** `getFormFields`: keep the controls that are not ignored inputs and map
      each survivor to its record, in document order. */
  function GetFormFields(elements: seq<Element>, nodePath: Node -> string): (fields: seq<FormField>)
    ensures |fields| <= |elements|
  {
    FilterMap(elements, Keep, Record(nodePath))
  }

  /** The output is an order-preserving subsequence of the selected controls:
      strictly increasing `positions` select exactly the controls that are
      not ignored inputs, and record `k` is the record of control
      `positions[k]`. */
  lemma GetFormFieldsSubsequence(elements: seq<Element>, nodePath: Node -> string)
    returns (positions: seq<nat>)
    ensures Increasing(positions, |elements|)
    ensures forall i :: 0 <= i < |elements| ==> (i in positions <==> !IsIgnored(elements[i]))
    ensures |positions| == |GetFormFields(elements, nodePath)|
    ensures forall k :: 0 <= k < |positions| ==>
              GetFormFields(elements, nodePath)[k] == ToFormField(elements[positions[k]], nodePath)
  {
    positions := FilterMapSubsequence(elements, Keep, Record(nodePath));
    forall i | 0 <= i < |elements|
      ensures i in positions <==> !IsIgnored(elements[i])
    {
      KeepIffNotIgnored(elements[i]);
    }
  }

  /** No output record is an `input` of an ignored type. */
  lemma NoIgnoredInputs(elements: seq<Element>, nodePath: Node -> string)
    ensures forall k :: 0 <= k < |GetFormFields(elements, nodePath)| ==>
              !IsIgnoredArtifact(GetFormFields(elements, nodePath)[k])
  {
    var positions := GetFormFieldsSubsequence(elements, nodePath);
    forall k | 0 <= k < |positions|
      ensures !IsIgnoredArtifact(GetFormFields(elements, nodePath)[k])
    {
      assert positions[k] in positions;
    }
  }

  /** Extraction distributes over concatenation: each control is filtered and
      mapped on its own, so no control affects another's record or position. */
  lemma GetFormFieldsAppend(a: seq<Element>, b: seq<Element>, nodePath: Node -> string)
    ensures GetFormFields(a + b, nodePath) == GetFormFields(a, nodePath) + GetFormFields(b, nodePath)
  {
    FilterMapAppend(a, b, Keep, Record(nodePath));
  }

  /** A single control yields its record when kept and nothing otherwise. */
  lemma GetFormFieldsSingle(e: Element, nodePath: Node -> string)
    ensures GetFormFields([e], nodePath) == if IsIgnored(e) then [] else [ToFormField(e, nodePath)]
  {
    assert [e][1..] == [];
    KeepIffNotIgnored(e);
  }

  /** Record `k` of the output comes from a kept control `elements[i]`: its
      form path is present exactly when that control sits in a form, and is
      then the form's node path; `elementType` is the lower-cased node name;
      the placeholder is present exactly for `input` and `textarea` controls
      and is then theirs; every other property is copied unchanged. */
  lemma OutputRecordsFromControls(elements: seq<Element>, nodePath: Node -> string, k: nat)
    returns (i: nat)
    requires k < |GetFormFields(elements, nodePath)|
    ensures i < |elements| && !IsIgnored(elements[i])
    ensures GetFormFields(elements, nodePath)[k].formPath.Some? <==> elements[i].enclosingForm.Some?
    ensures elements[i].enclosingForm.Some? ==>
              GetFormFields(elements, nodePath)[k].formPath == Some(nodePath(elements[i].enclosingForm.value))
    ensures GetFormFields(elements, nodePath)[k] ==
              FormField(elements[i].id, elements[i].name, Lower(elements[i].nodeName), elements[i].inputType,
                        elements[i].autocomplete, GetFormFields(elements, nodePath)[k].placeholder,
                        GetFormFields(elements, nodePath)[k].formPath)
    ensures GetFormFields(elements, nodePath)[k].placeholder.Some? <==> HasPlaceholder(elements[i])
    ensures GetFormFields(elements, nodePath)[k].placeholder.Some? ==>
              GetFormFields(elements, nodePath)[k].placeholder.value == elements[i].placeholder
  {
    var positions := GetFormFieldsSubsequence(elements, nodePath);
    i := positions[k];
    assert i in positions;
  }

  /** The FormFields gatherer's `afterPass`: whatever the channel settles
      with, records or rejection, is returned unchanged. */
  function AfterPass(response: Evaluation<seq<FormField>>): (r: Evaluation<seq<FormField>>)
    ensures r == response
  {
    response
  }

  /** The procedure the gatherer sends through the channel; it never throws. */
  function Procedure(nodePath: Node -> string): Document -> Result<seq<FormField>, string> {
    (document: Document) => Success(GetFormFields(document.formControls, nodePath))
  }

  /** End to end: the gatherer resolves exactly when the page is reachable,
      with the extraction of the page's controls. */
  lemma GatherFormFields(target: Target, nodePath: Node -> string)
    ensures AfterPass(Evaluate(target, Procedure(nodePath))).Resolved? <==> target.Attached?
    ensures target.Attached? ==>
              AfterPass(Evaluate(target, Procedure(nodePath))).value == GetFormFields(target.document.formControls, nodePath)
    ensures target.Detached? ==> AfterPass(Evaluate(target, Procedure(nodePath))) == Rejected(target.reason)
  {
  }
}
