/** `AutocompleteCardName` in expiration.js: the expiration-date audit, an
    ordered chain over the unified date field and the split month and year
    fields. */
module AutocompleteExpiration {
  import opened Wrappers
  import opened Artifacts
  import opened AutocompleteField

  const DateKey: string := "exp-date"
  const MonthKey: string := "ccmonth"
  const YearKey: string := "ccyear"

  const DateToken: string := "cc-exp"
  const MonthToken: string := "cc-exp-month"
  const YearToken: string := "cc-exp-year"

  /** The descriptor: the generic one for the label `expiration date`, with
      only the id overridden. */
  function Meta(): (m: AuditMeta)
    ensures m == GetMeta("expiration date").(id := "expiration")
    ensures m.id == "expiration" && m.requiredArtifacts == ["FormFields"]
  {
    var base := GetMeta("expiration date");
    AuditMeta("expiration", base.title, base.failureTitle, base.description, base.requiredArtifacts)
  }

  /** True when the looked-up field exists and carries `token`. */
  predicate HasToken(field: Option<FormField>, token: string) {
    field.Some? && field.value.autocomplete == token
  }

  /** True when the looked-up field exists but carries another token. */
  predicate HasOtherToken(field: Option<FormField>, token: string) {
    field.Some? && field.value.autocomplete != token
  }

  /** The verdict of the chain for the three looked-up fields, first branch
      that applies wins. */
  function Chain(date: Option<FormField>, month: Option<FormField>, year: Option<FormField>): (r: Verdict)
    ensures r.notApplicable <==> r.score.None?
    ensures r.score.None? ==> r.explanation.None?
    ensures r.score.Some? ==> (r.explanation.Some? <==> r.score != Some(One))
  {
    if HasToken(date, DateToken) then
      Verdict(Some(One), false, None)
    else if HasToken(month, MonthToken) && HasToken(year, YearToken) then
      Verdict(Some(One), false, None)
    else if year.Some? && HasToken(month, MonthToken) then
      Verdict(Some(Half), false, Some(ExpirationNoAutocomplete(year.value.name, YearToken)))
    else if month.Some? && HasToken(year, YearToken) then
      Verdict(Some(Zero), false, Some(ExpirationNoAutocomplete(month.value.name, MonthToken)))
    else if date.Some? then
      Verdict(Some(Zero), false, Some(ExpirationNoAutocomplete(date.value.name, DateToken)))
    else if month.Some? && year.None? then
      Verdict(Some(Zero), false, Some(NoYear))
    else if year.Some? && month.None? then
      Verdict(Some(Zero), false, Some(NoMonth))
    else
      Verdict(None, true, None)
  }

  /** `AutocompleteCardName.audit(artifacts)`. */
  function Audit(fields: seq<FormField>): (r: Verdict)
    ensures r.notApplicable <==> r.score.None?
    ensures r.score.None? ==> r.explanation.None?
    ensures r.score.Some? ==> (r.explanation.Some? <==> r.score != Some(One))
  {
    Chain(Find(fields, DateKey), Find(fields, MonthKey), Find(fields, YearKey))
  }

  /** What a lookup found, judged against the token its field should carry. */
  datatype Status = Absent | Tagged | Mistagged(name: string)

  function Classify(field: Option<FormField>, token: string): (st: Status)
    ensures st == Absent <==> field.None?
    ensures st == Tagged <==> HasToken(field, token)
    ensures st.Mistagged? ==> HasOtherToken(field, token) && st.name == field.value.name
  {
    match field
    case None => Absent
    case Some(f) => if f.autocomplete == token then Tagged else Mistagged(f.name)
  }

  /** The expected verdict as a table: a tagged date field passes; otherwise
      the verdict is read off the pair (month, year), where the date field
      only matters for the pairs that give no split verdict. Its rows are
      disjoint, so unlike the chain it does not depend on the order of the
      cases. */
  function Expected(date: Status, month: Status, year: Status): Verdict {
    var dateVerdict :=
      if date.Mistagged? then Some(Verdict(Some(Zero), false, Some(ExpirationNoAutocomplete(date.name, DateToken))))
      else None;
    if date == Tagged then Verdict(Some(One), false, None)
    else match (month, year)
      case (Tagged, Tagged) => Verdict(Some(One), false, None)
      case (Tagged, Mistagged(yearName)) =>
        Verdict(Some(Half), false, Some(ExpirationNoAutocomplete(yearName, YearToken)))
      case (Mistagged(monthName), Tagged) =>
        Verdict(Some(Zero), false, Some(ExpirationNoAutocomplete(monthName, MonthToken)))
      case (Mistagged(_), Mistagged(_)) => dateVerdict.GetOr(Verdict(None, true, None))
      case (Absent, Absent) => dateVerdict.GetOr(Verdict(None, true, None))
      case (Tagged, Absent) => dateVerdict.GetOr(Verdict(Some(Zero), false, Some(NoYear)))
      case (Mistagged(_), Absent) => dateVerdict.GetOr(Verdict(Some(Zero), false, Some(NoYear)))
      case (Absent, Tagged) => dateVerdict.GetOr(Verdict(Some(Zero), false, Some(NoMonth)))
      case (Absent, Mistagged(_)) => dateVerdict.GetOr(Verdict(Some(Zero), false, Some(NoMonth)))
  }

  /** The ordered chain and the table agree on every combination of lookups. */
  lemma ChainMatchesTable(date: Option<FormField>, month: Option<FormField>, year: Option<FormField>)
    ensures Chain(date, month, year) ==
              Expected(Classify(date, DateToken), Classify(month, MonthToken), Classify(year, YearToken))
  {
  }

  /** The audit agrees with the table applied to the first field named
      `exp-date`, `ccmonth` and `ccyear`. */
  lemma AuditMatchesTable(fields: seq<FormField>)
    ensures Audit(fields) ==
              Expected(Classify(Find(fields, DateKey), DateToken),
                       Classify(Find(fields, MonthKey), MonthToken),
                       Classify(Find(fields, YearKey), YearToken))
  {
    ChainMatchesTable(Find(fields, DateKey), Find(fields, MonthKey), Find(fields, YearKey));
  }

  /** A unified date field carrying `cc-exp` passes, whatever the month and
      year fields are. */
  lemma DatePasses(fields: seq<FormField>)
    requires HasToken(Find(fields, DateKey), DateToken)
    ensures Audit(fields) == Verdict(Some(One), false, None)
  {
  }

  /** Split month and year fields carrying their tokens pass, whatever the
      date field is. */
  lemma SplitPasses(fields: seq<FormField>)
    requires HasToken(Find(fields, MonthKey), MonthToken) && HasToken(Find(fields, YearKey), YearToken)
    ensures Audit(fields) == Verdict(Some(One), false, None)
  {
  }

  /** Partial credit: a correct month with a mis-tagged year earns one half
      and blames the year field, even when a mis-tagged date field exists. */
  lemma MonthRightYearWrong(fields: seq<FormField>)
    requires !HasToken(Find(fields, DateKey), DateToken)
    requires HasToken(Find(fields, MonthKey), MonthToken) && HasOtherToken(Find(fields, YearKey), YearToken)
    ensures Audit(fields) ==
              Verdict(Some(Half), false, Some(ExpirationNoAutocomplete(Find(fields, YearKey).value.name, YearToken)))
  {
  }

  /** The asymmetric case: a correct year with a mis-tagged month earns
      nothing and blames the month field. */
  lemma YearRightMonthWrong(fields: seq<FormField>)
    requires !HasToken(Find(fields, DateKey), DateToken)
    requires HasOtherToken(Find(fields, MonthKey), MonthToken) && HasToken(Find(fields, YearKey), YearToken)
    ensures Audit(fields) ==
              Verdict(Some(Zero), false, Some(ExpirationNoAutocomplete(Find(fields, MonthKey).value.name, MonthToken)))
  {
  }

  /** A mis-tagged date field scores zero and is blamed once neither split
      field carries its token. */
  lemma DateWrong(fields: seq<FormField>)
    requires HasOtherToken(Find(fields, DateKey), DateToken)
    requires !HasToken(Find(fields, MonthKey), MonthToken) && !HasToken(Find(fields, YearKey), YearToken)
    ensures Audit(fields) ==
              Verdict(Some(Zero), false, Some(ExpirationNoAutocomplete(Find(fields, DateKey).value.name, DateToken)))
  {
  }

  /** Without a date field, a lone month or a lone year scores zero with the
      message naming what is missing. */
  lemma LoneSplitField(fields: seq<FormField>)
    requires Find(fields, DateKey).None?
    ensures Find(fields, MonthKey).Some? && Find(fields, YearKey).None? ==>
              Audit(fields) == Verdict(Some(Zero), false, Some(NoYear))
    ensures Find(fields, YearKey).Some? && Find(fields, MonthKey).None? ==>
              Audit(fields) == Verdict(Some(Zero), false, Some(NoMonth))
  {
  }

  /** The chain gives not-applicable exactly when there is no date field and
      the split fields are both missing or both present and both mis-tagged. */
  lemma ChainNotApplicableIff(date: Option<FormField>, month: Option<FormField>, year: Option<FormField>)
    ensures Chain(date, month, year).notApplicable <==>
              && date.None?
              && ((month.None? && year.None?)
                  || (HasOtherToken(month, MonthToken) && HasOtherToken(year, YearToken)))
  {
  }

  /** The audit is not applicable exactly when no field is named `exp-date`
      and either no field is named `ccmonth` or `ccyear`, or both are present
      and both mis-tagged; the second case is a quirk of the chain, kept as
      written. */
  lemma NotApplicableIff(fields: seq<FormField>)
    ensures Audit(fields).notApplicable <==>
              && NoMatch(fields, DateKey)
              && ((NoMatch(fields, MonthKey) && NoMatch(fields, YearKey))
                  || (HasOtherToken(Find(fields, MonthKey), MonthToken)
                      && HasOtherToken(Find(fields, YearKey), YearToken)))
  {
    var date, month, year := Find(fields, DateKey), Find(fields, MonthKey), Find(fields, YearKey);
    assert Audit(fields) == Chain(date, month, year);
    ChainNotApplicableIff(date, month, year);
  }

  /** The score is one exactly when the date field carries `cc-exp` or both
      split fields carry theirs, and one half exactly when only the month
      does and a year field exists. */
  lemma ScoreLevels(fields: seq<FormField>)
    ensures Audit(fields).score == Some(One) <==>
              HasToken(Find(fields, DateKey), DateToken)
              || (HasToken(Find(fields, MonthKey), MonthToken) && HasToken(Find(fields, YearKey), YearToken))
    ensures Audit(fields).score == Some(Half) <==>
              && !HasToken(Find(fields, DateKey), DateToken)
              && HasToken(Find(fields, MonthKey), MonthToken)
              && HasOtherToken(Find(fields, YearKey), YearToken)
  {
  }
}
