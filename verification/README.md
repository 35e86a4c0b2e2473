# Autofill audits and their artifacts, modelled in Dafny

This project models the core of Lighthouse's autocomplete checks. Two
gatherers extract artifacts from the page: `FormFields` collects the form
controls and `MetaElements` collects the head `<meta>` elements. Two audits
score the form fields: the generic `AutocompleteField.auditField` and the
expiration-date audit `AutocompleteCardName.audit`. The second is an
ordered if/else chain with partial credit.

Everything is modelled as immutable datatypes and pure functions:

- `wrappers.dfy` (`Wrappers`): `Option` for `undefined`/`null`, `Result` for a thrown error.
- `ascii.dfy` (`Ascii`): `toLowerCase`, restricted to ASCII letters.
- `lists.dfy` (`Lists`): `xs.filter(keep).map(f)` and a `map` whose callback may throw, with their order facts proved once for any element type.
- `artifacts.dfy` (`Artifacts`): the artifact schema (`FormField`, `MetaArtifact`), and the audit verdict. The score is `Option<Score>`, where `None` is `null`, and `Score` is `Zero | Half | One`. It also holds the localised messages, kept as template constructors with their substitution parameters, and the audit descriptor `AuditMeta`.
- `channel.dfy` (`Channel`): the page as the gatherers see it. It holds the elements selected by `input, select, textarea`, each with its enclosing form if any, and the head `<meta>` elements, each as its list of attributes in source order. It also models the settled result of `driver.evaluateAsync`.
- `form_fields.dfy` (`FormFieldsGatherer`): `getFormFields` and `afterPass`.
- `meta_elements.dfy` (`MetaElementsGatherer`): the per-`<meta>` mapping and `afterPass`.
- `autocomplete_field.dfy` (`AutocompleteField`): the first-match field lookup, `getMeta` and `auditField`.
- `autocomplete_expiration.dfy` (`AutocompleteExpiration`): the expiration audit's descriptor and its chain.

Some of the source's behaviour is kept exactly as written, even where it looks accidental:

- The expiration audit is not applicable when there is no date field and both split fields are present but both have the wrong token (`NotApplicableIff`).
- A correct month with a wrong year earns 0.5, but a correct year with a wrong month earns 0.
- A `charset` attribute is recognised only when it is the element's first attribute.
- A `charset` attribute with an empty value falls back to the content attribute.
- A `<meta>` element with no attributes makes the whole meta extraction throw. This is modelled as a `Failure` and then as a rejected evaluation.

Some further behaviours of the code are easy to misread:

- The meta `content` is always a string, because `meta.content` reflects `""` when the attribute is missing. It is never absent.
- The field lookup lower-cases only the field's name and not the key. A key with an upper-case letter therefore never matches (`UpperCaseKeyNeverMatches`).
- `not applicable` in the expiration audit covers more than "none of the three fields exist".
- `inputType` is copied unchanged from the DOM's `type` property. It is not lower-cased again.
- A `select` control has no `placeholder` property, so its record's placeholder is absent (`undefined`). Only `input` and `textarea` records carry one.

## Model

| member | source | states |
|---|---|---|
| Ascii.Lower | lighthouse-core/audits/autocomplete/field.js:62 | lower-casing keeps the length and leaves no upper-case ASCII letter |
| Ascii.LowerAt | lighthouse-core/audits/autocomplete/field.js:62 | each character of the lower-cased string is the lower-cased character at the same position: an upper-case ASCII letter moves to its lower-case form and any other character is kept |
| Ascii.LowerOfLower | lighthouse-core/gather/gatherers/meta-elements.js:34 | lower-casing a string that is already lower case changes nothing |
| Channel.Evaluate | lighthouse-core/gather/gatherers/form-fields.js:67-73 | the evaluation resolves exactly when the page is reachable and the procedure does not throw, and then with the procedure's value; a detached page rejects with its own reason, and a procedure that throws rejects with the thrown error |
| FormFieldsGatherer.KeepIffNotIgnored | lighthouse-core/gather/gatherers/form-fields.js:22-37 | the filter keeps a control exactly when it is not an `input` whose type is `hidden`, `button`, `submit`, `checkbox` or `radio`; `select`/`textarea` and an input with any other type, even an empty one, are kept |
| FormFieldsGatherer.ToFormField | lighthouse-core/gather/gatherers/form-fields.js:38-56 | a record is an ignored input exactly when its control was one |
| FormFieldsGatherer.GetFormFields | lighthouse-core/gather/gatherers/form-fields.js:21-59 | the output is never longer than the selection |
| FormFieldsGatherer.NoIgnoredInputs | lighthouse-core/gather/gatherers/form-fields.js:22-37 | no output record is an `input` whose type is `hidden`, `button`, `submit`, `checkbox` or `radio` |
| FormFieldsGatherer.GetFormFieldsAppend | lighthouse-core/gather/gatherers/form-fields.js:34-56 | extraction of a concatenation is the concatenation of the extractions, so each control is filtered and mapped independently, in order |
| FormFieldsGatherer.GetFormFieldsSingle | lighthouse-core/gather/gatherers/form-fields.js:35-37 | one control yields its own record when it is not an ignored input, and nothing otherwise |
| FormFieldsGatherer.GetFormFieldsSubsequence | lighthouse-core/gather/gatherers/form-fields.js:32-56 | the output is an order-preserving subsequence: strictly increasing positions select exactly the controls that are not ignored inputs, and record k is the record of the control at the k-th position |
| Lists.FilterMapSubsequence | lighthouse-core/gather/gatherers/form-fields.js:34-38 | `filter` then `map` yields, in order, the image of exactly the accepted elements, at strictly increasing positions |
| Lists.TryMap | lighthouse-core/gather/gatherers/meta-elements.js:24 | a `map` whose callback may throw succeeds exactly when every callback does, then with one result per element in order; a failure is the failure of the first element whose callback throws |
| FormFieldsGatherer.OutputRecordsFromControls | lighthouse-core/gather/gatherers/form-fields.js:39-55 | every output record comes from a kept control; its formPath is present exactly when the control has an enclosing form and is then that form's node path; elementType is the lower-cased node name; placeholder is present exactly for `input` and `textarea` controls and is then theirs; id, name, inputType and autocomplete are copied unchanged |
| FormFieldsGatherer.AfterPass | lighthouse-core/gather/gatherers/form-fields.js:80-84 | afterPass hands back the channel's settlement unchanged, records or rejection |
| FormFieldsGatherer.GatherFormFields | lighthouse-core/gather/gatherers/form-fields.js:66-84 | the gatherer resolves exactly when the page is reachable, with the extraction of the page's controls, and otherwise propagates the rejection |
| MetaElementsGatherer.GetAttributeFinds | lighthouse-core/gather/gatherers/meta-elements.js:36 | an attribute lookup finds nothing exactly when no attribute has that name, and a value it finds belongs to an attribute of that name |
| MetaElementsGatherer.Normalize | lighthouse-core/gather/gatherers/meta-elements.js:24-38 | the mapping throws exactly on an element with no attributes; otherwise the name is lower case and property is the `property` attribute's value when present, absent otherwise, whichever name branch fired |
| MetaElementsGatherer.HttpEquivWins | lighthouse-core/gather/gatherers/meta-elements.js:27-35 | a non-empty http-equiv gives name = lower-cased http-equiv and content = the content attribute, even when `charset` is the first attribute |
| MetaElementsGatherer.CharsetInFirstPosition | lighthouse-core/gather/gatherers/meta-elements.js:29-35 | without http-equiv, a first attribute named `charset` gives name `charset` and its value as content, falling back to the content attribute when that value is empty |
| MetaElementsGatherer.CharsetElsewhereIgnored | lighthouse-core/gather/gatherers/meta-elements.js:29-35 | without http-equiv and with a first attribute other than `charset`, name is the lower-cased `name` attribute and content the content attribute, wherever else a charset appears |
| MetaElementsGatherer.ContentFromAttributes | lighthouse-core/gather/gatherers/meta-elements.js:35 | the content of a normalised element is empty or the value of one of its attributes |
| MetaElementsGatherer.ExtractMetas | lighthouse-core/gather/gatherers/meta-elements.js:24-38 | extraction succeeds exactly when every head meta has an attribute, and then yields one record per element, in document order, each the element's normalisation |
| MetaElementsGatherer.ExtractMetasAppend | lighthouse-core/gather/gatherers/meta-elements.js:24 | extraction of consecutive runs of elements concatenates their records |
| MetaElementsGatherer.AfterPass | lighthouse-core/gather/gatherers/meta-elements.js:16-39 | the gatherer resolves exactly when the page is reachable and no head meta lacks attributes, with one normalised record per element in order; otherwise it rejects with the channel's reason or the thrown error |
| MetaElementsGatherer.ExampleHttpEquiv | lighthouse-core/gather/gatherers/meta-elements.js:27-28 | `http-equiv="refresh" content="5"` becomes name `refresh`, content `5` |
| MetaElementsGatherer.ExampleCharset | lighthouse-core/gather/gatherers/meta-elements.js:29-31 | a lone `charset="utf-8"` becomes name `charset`, content `utf-8` |
| MetaElementsGatherer.ExampleCharsetSecond | lighthouse-core/gather/gatherers/meta-elements.js:29 | `name="x" charset="utf-8"` is named `x` with empty content: a second-position charset is not recognised |
| AutocompleteField.FindIndex | lighthouse-core/audits/autocomplete/field.js:62 | the lookup stops at the first field whose lower-cased name equals the key, and finds nothing exactly when no field matches |
| AutocompleteField.Find | lighthouse-core/audits/autocomplete/field.js:62 | the field found is the one at the first matching position; nothing is found exactly when no name matches |
| AutocompleteField.FindIsFirstMatch | lighthouse-core/audits/autocomplete/field.js:62 | whenever position i is the first match, the lookup returns the field at i |
| AutocompleteField.FindIgnoresLater | lighthouse-core/audits/autocomplete/field.js:62 | once a field matches, fields appended later never change the lookup |
| AutocompleteField.UpperCaseKeyNeverMatches | lighthouse-core/audits/autocomplete/field.js:62 | a key containing an upper-case letter never matches any field |
| AutocompleteField.GetMeta | lighthouse-core/audits/autocomplete/field.js:44-52 | the descriptor has id `""`, requires exactly `FormFields`, and its title, failure title and description are all filled with the same field label |
| AutocompleteField.AuditField | lighthouse-core/audits/autocomplete/field.js:60-88 | with no matching field: score null, not applicable, explanation "form field not present"; score 1 exactly when the first matching field's autocomplete equals the expected token, case-sensitively, with no explanation; otherwise score 0 with an explanation carrying the lookup key and the expected token |
| AutocompleteField.AuditFieldFirstMatchOnly | lighthouse-core/audits/autocomplete/field.js:60-88 | once a field matches, later fields with the same name never change the verdict |
| AutocompleteExpiration.Meta | lighthouse-core/audits/autocomplete/expiration.js:32-37 | the descriptor is the generic one for `expiration date` with only the id replaced by `expiration` |
| AutocompleteExpiration.Chain | lighthouse-core/audits/autocomplete/expiration.js:53-95 | not applicable exactly when the score is null, with no explanation then; when applicable, an explanation is present exactly when the score is below 1 |
| AutocompleteExpiration.Audit | lighthouse-core/audits/autocomplete/expiration.js:43-96 | the same verdict invariants for the audit over the three first-match lookups of `exp-date`, `ccmonth`, `ccyear` |
| AutocompleteExpiration.ChainMatchesTable | lighthouse-core/audits/autocomplete/expiration.js:53-90 | the ordered chain agrees, on every combination of found, mis-tagged and missing fields, with an order-free table: a tagged date passes, otherwise the (month, year) pair decides, and the date field is blamed only where that pair gives no split verdict |
| AutocompleteExpiration.AuditMatchesTable | lighthouse-core/audits/autocomplete/expiration.js:43-96 | the audit is that table applied to the first fields named `exp-date`, `ccmonth` and `ccyear` |
| AutocompleteExpiration.DatePasses | lighthouse-core/audits/autocomplete/expiration.js:53-54 | a date field tagged `cc-exp` gives score 1 with no explanation whatever the month and year fields hold |
| AutocompleteExpiration.SplitPasses | lighthouse-core/audits/autocomplete/expiration.js:55-57 | month tagged `cc-exp-month` and year tagged `cc-exp-year` give score 1 with no explanation |
| AutocompleteExpiration.MonthRightYearWrong | lighthouse-core/audits/autocomplete/expiration.js:58-64 | a correct month with a mis-tagged year gives 0.5, blaming the year field's name and `cc-exp-year`, even if a mis-tagged date field exists |
| AutocompleteExpiration.YearRightMonthWrong | lighthouse-core/audits/autocomplete/expiration.js:65-71 | a correct year with a mis-tagged month gives 0, not 0.5, blaming the month field's name and `cc-exp-month` |
| AutocompleteExpiration.DateWrong | lighthouse-core/audits/autocomplete/expiration.js:72-78 | a mis-tagged date field, with neither split field correctly tagged, gives 0 blaming the date field's name and `cc-exp` |
| AutocompleteExpiration.LoneSplitField | lighthouse-core/audits/autocomplete/expiration.js:79-84 | with no date field, a month without a year gives 0 with the no-year message and a year without a month gives 0 with the no-month message |
| AutocompleteExpiration.ChainNotApplicableIff | lighthouse-core/audits/autocomplete/expiration.js:53-90 | the chain gives not-applicable exactly when the date lookup is empty and the split lookups are both empty or both found with the wrong token |
| AutocompleteExpiration.NotApplicableIff | lighthouse-core/audits/autocomplete/expiration.js:53-90 | not applicable exactly when there is no date field and either both split fields are missing or both are present and both mis-tagged |
| AutocompleteExpiration.ScoreLevels | lighthouse-core/audits/autocomplete/expiration.js:49-95 | score 1 exactly when the date field or both split fields are correctly tagged; score 0.5 exactly when the date is not correct, the month is and a mis-tagged year exists |

## Left out

- The evaluation transport (`driver.evaluateAsync`, `useIsolation`, turning functions into a script string) is not modelled. `Channel.Target` and `Channel.Evaluate` stand for what it settles with.
- `getElementsInDocument` is not part of this model. The selected elements are the input `Document`.
- `getNodePath` is not part of this model. It is the uninterpreted parameter `nodePath`.
- Localised string formatting (`str_`, `createMessageInstanceIdFn`) is not modelled. Messages are constructors carrying their substitution parameters.
- The `Audit` and `Gatherer` base classes and the orchestration that runs audits are outside the core and not modelled.
- `toLowerCase` is modelled for ASCII letters only. Non-ASCII case mappings are not.
- Scores are the enumeration `Zero | Half | One`, not floating-point numbers.
- A field's `name` and `autocomplete` are always strings in the model, as the extraction produces them. A hand-written artifact with those properties missing would read as `""` for `name`, but for `autocomplete` the model compares `""` where the source compares `undefined`.
- Idempotence of the audits is not stated as a lemma, because every member is a pure function of its arguments.
- The bundling script build/build-extension.js only copies files and writes archives, so it is not modelled.
