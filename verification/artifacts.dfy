/** The artifact schema shared by the gatherers and the audits, and the
    verdict an audit returns. */
module Artifacts {
  import opened Wrappers

  /** One qualifying form control (`LH.Artifacts['FormFields']` element). */
  datatype FormField = FormField(
    id: string,
    name: string,
    elementType: string,
    inputType: string,
    autocomplete: string,
    placeholder: Option<string>,   // absent for `select`, which has no `placeholder` property
    formPath: Option<string>)

  /** One `<meta>` element under the document head. */
  datatype MetaArtifact = MetaArtifact(
    name: string,
    content: string,
    property: Option<string>)

  /** An audit score: `null` is `None` of an `Option<Score>`. */
  datatype Score = Zero | Half | One

  /** Localised explanations, kept as the message template plus its
      substitution parameters; the rendered text is not modelled. */
  datatype Explanation =
    | NoFormFields                                        // field.js `noFormFields`
    | FieldNoAutocomplete(name: string, autocomplete: string)      // field.js `noAutocomplete`
    | NoYear                                              // expiration.js `noYear`
    | NoMonth                                             // expiration.js `noMonth`
    | ExpirationNoAutocomplete(name: string, autocomplete: string) // expiration.js `noAutocomplete`

  /** `LH.Audit.Product` as the autocomplete audits build it. */
  datatype Verdict = Verdict(
    score: Option<Score>,
    notApplicable: bool,
    explanation: Option<Explanation>)

  /** Localised strings of an audit descriptor, with the label they are filled with. */
  datatype Message =
    | Title(field: string)
    | FailureTitle(field: string)
    | Description(field: string)

  /** `LH.Audit.Meta`: what an orchestrator needs to wire up an audit. */
  datatype AuditMeta = AuditMeta(
    id: string,
    title: Message,
    failureTitle: Message,
    description: Message,
    requiredArtifacts: seq<string>)
}
