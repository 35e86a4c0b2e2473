/** `AutocompleteField`: the field lookup shared by the autocomplete audits,
    the generic single-field audit and its descriptor. */
module AutocompleteField {
  import opened Wrappers
  import opened Ascii
  import opened Artifacts

  /** The lookup test `(f.name || '').toLowerCase() === key`; the key itself
      is not lower-cased. */
  predicate NameMatches(f: FormField, key: string) {
    Lower(f.name) == key
  }

  /** `i` is the position of the first field whose name matches `key`. */
  predicate IsFirstMatch(fields: seq<FormField>, key: string, i: int) {
    && 0 <= i < |fields|
    && NameMatches(fields[i], key)
    && forall j :: 0 <= j < i ==> !NameMatches(fields[j], key)
  }

  /** No field's name matches `key`. */
  predicate NoMatch(fields: seq<FormField>, key: string) {
    forall j :: 0 <= j < |fields| ==> !NameMatches(fields[j], key)
  }

  /** The position `formFields.find` stops at, if any. */
  function FindIndex(fields: seq<FormField>, key: string): (r: Option<nat>)
    ensures r.Some? ==> IsFirstMatch(fields, key, r.value)
    ensures r.None? <==> NoMatch(fields, key)
  {
    if fields == [] then None
    else if NameMatches(fields[0], key) then Some(0)
    else match FindIndex(fields[1..], key)
      case None => None
      case Some(i) => Some(i + 1)
  }

  /** `formFields.find(f => (f.name || '').toLowerCase() === key)`. */
  function Find(fields: seq<FormField>, key: string): (r: Option<FormField>)
    ensures r.None? <==> NoMatch(fields, key)
    ensures r.Some? ==> exists i :: IsFirstMatch(fields, key, i) && fields[i] == r.value
  {
    match FindIndex(fields, key)
    case None => None
    case Some(i) => Some(fields[i])
  }

  /** At most one position is the first match. */
  lemma FirstMatchUnique(fields: seq<FormField>, key: string, i: int, j: int)
    requires IsFirstMatch(fields, key, i) && IsFirstMatch(fields, key, j)
    ensures i == j
  {
  }

  /** The lookup returns the field at the first matching position. */
  lemma FindIsFirstMatch(fields: seq<FormField>, key: string, i: int)
    requires IsFirstMatch(fields, key, i)
    ensures Find(fields, key) == Some(fields[i])
  {
    var k :| IsFirstMatch(fields, key, k) && fields[k] == Find(fields, key).value;
    FirstMatchUnique(fields, key, i, k);
  }

  /** Once a field matches, nothing appended after the list changes what
      the lookup finds. */
  lemma FindIgnoresLater(fields: seq<FormField>, later: seq<FormField>, key: string)
    requires Find(fields, key).Some?
    ensures Find(fields + later, key) == Find(fields, key)
  {
    var i :| IsFirstMatch(fields, key, i) && fields[i] == Find(fields, key).value;
    assert IsFirstMatch(fields + later, key, i);
    var k :| IsFirstMatch(fields + later, key, k) && (fields + later)[k] == Find(fields + later, key).value;
    FirstMatchUnique(fields + later, key, i, k);
  }

  /** A key containing an upper-case letter never matches, because names
      are lower-cased before the comparison and the key is not. */
  lemma UpperCaseKeyNeverMatches(fields: seq<FormField>, key: string)
    requires !IsLower(key)
    ensures Find(fields, key) == None
  {
    forall j | 0 <= j < |fields|
      ensures !NameMatches(fields[j], key)
    {
      LowerNeverEqualsUpper(fields[j].name, key);
    }
  }

  /** `AutocompleteField.getMeta(fieldName)`. */
  function GetMeta(fieldLabel: string): (m: AuditMeta)
    ensures m.id == ""
    ensures m.requiredArtifacts == ["FormFields"]
    ensures m.title.Title? && m.failureTitle.FailureTitle? && m.description.Description?
    ensures m.title.field == fieldLabel && m.failureTitle.field == fieldLabel && m.description.field == fieldLabel
  {
    AuditMeta("", Title(fieldLabel), FailureTitle(fieldLabel), Description(fieldLabel), ["FormFields"])
  }

  /** `AutocompleteField.auditField(artifacts, name, autocomplete)`. */
  function AuditField(fields: seq<FormField>, name: string, autocomplete: string): (r: Verdict)
    ensures r.notApplicable <==> NoMatch(fields, name)
    ensures r.score.None? <==> NoMatch(fields, name)
    ensures NoMatch(fields, name) ==> r.explanation == Some(NoFormFields)
    ensures r.score == Some(One) <==>
              exists i :: IsFirstMatch(fields, name, i) && fields[i].autocomplete == autocomplete
    ensures r.score.Some? ==> r.score == Some(One) || r.score == Some(Zero)
    ensures r.score == Some(One) ==> r.explanation == None
    ensures r.score == Some(Zero) ==> r.explanation == Some(FieldNoAutocomplete(name, autocomplete))
  {
    match Find(fields, name)
    case None => Verdict(None, true, Some(NoFormFields))
    case Some(field) =>
      if field.autocomplete == autocomplete then Verdict(Some(One), false, None)
      else Verdict(Some(Zero), false, Some(FieldNoAutocomplete(name, autocomplete)))
  }

  /** Only the first matching field counts: a later field with the same
      lower-cased name never changes the verdict. */
  lemma AuditFieldFirstMatchOnly(fields: seq<FormField>, later: seq<FormField>, name: string, autocomplete: string)
    requires !NoMatch(fields, name)
    ensures AuditField(fields + later, name, autocomplete) == AuditField(fields, name, autocomplete)
  {
    FindIgnoresLater(fields, later, name);
  }
}
