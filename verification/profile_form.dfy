/** The business profile form shown to a user without a profile (and to one
    who chose to edit it): it prefills from the stored row, defaults missing
    columns, and saves with an upsert whose success completes onboarding. */
module ProfileForm {
  import opened Common
  import opened Profiles

  /** A business_profiles row as read by the form; the columns after
      `industry` may be null. */
  datatype ProfileRow = ProfileRow(
    businessName: string,
    industry: string,
    businessType: Option<string>,
    city: Option<string>,
    budgetRange: Option<string>,
    goals: Option<string>)

  datatype Form = Form(profile: Fields, loading: bool, saving: bool, error: string)

  const DefaultBusinessType := "local"
  const SaveFailedText := "Failed to save profile"

  /** The blank form: every field empty except the business type. */
  const InitialFields: Fields := Fields("", "", DefaultBusinessType, "", "", "")

  const Initial: Form := Form(InitialFields, false, false, "")

  /** The blank form asks for everything but offers "local" as the type. */
  lemma InitialFormBlank()
    ensures forall f :: f != BusinessType ==> Get(Initial.profile, f) == ""
    ensures Get(Initial.profile, BusinessType) == "local"
    ensures !Initial.loading && !Initial.saving && Initial.error == ""
  {
  }

  /** `value || fallback` on a nullable text column: null and the empty
      string both give the fallback. */
  function OrDefault(value: Option<string>, fallback: string): (s: string)
    ensures value.Some? && value.value != "" ==> s == value.value
    ensures value.None? || value.value == "" ==> s == fallback
  {
    match value
    case Some(v) => if v != "" then v else fallback
    case None => fallback
  }

  /** The form fields a stored row prefills: name and industry verbatim, an
      empty or missing business type becomes "local", and a missing city,
      budget or goal becomes the empty string. */
  function FromRow(row: ProfileRow): (f: Fields)
    ensures f.businessName == row.businessName && f.industry == row.industry
    ensures f.businessType == (if row.businessType.Some? && row.businessType.value != ""
                               then row.businessType.value else DefaultBusinessType)
    ensures f.businessType != ""
    ensures row.city.None? ==> f.city == ""
    ensures row.city.Some? ==> f.city == row.city.value
    ensures row.budgetRange.None? ==> f.budgetRange == ""
    ensures row.budgetRange.Some? ==> f.budgetRange == row.budgetRange.value
    ensures row.goals.None? ==> f.goals == ""
    ensures row.goals.Some? ==> f.goals == row.goals.value
  {
    Fields(row.businessName, row.industry,
           OrDefault(row.businessType, DefaultBusinessType),
           OrDefault(row.city, ""), OrDefault(row.budgetRange, ""), OrDefault(row.goals, ""))
  }

  /** `loadProfile`: without a user nothing happens. The fields are replaced
      only when the read succeeds with a row; no row or a failed read leaves
      them as they were. */
  function Load(s: Form, user: Option<string>, reply: Reply<Option<ProfileRow>>): (r: Form)
    ensures user.None? ==> r == s
    ensures user.Some? ==> !r.loading && r.error == s.error && r.saving == s.saving
    ensures user.Some? && reply.Ok? && reply.value.Some? ==> r.profile == FromRow(reply.value.value)
    ensures user.Some? && (reply.Fail? || reply.value.None?) ==> r.profile == s.profile
  {
    if user.None? then s
    else
      match reply
      case Ok(Some(row)) => s.(profile := FromRow(row), loading := false)
      case Ok(None) => s.(loading := false)
      case Fail(_) => s.(loading := false)
  }

  /** One input's change handler: exactly that field changes. */
  function EditField(s: Form, f: Field, v: string): (r: Form)
    ensures Get(r.profile, f) == v
    ensures forall g :: g != f ==> Get(r.profile, g) == Get(s.profile, g)
    ensures r.loading == s.loading && r.saving == s.saving && r.error == s.error
  {
    s.(profile := Set(s.profile, f, v))
  }

  /** The saved description: "<business type> business in <city>". */
  function Description(f: Fields): (d: string)
    ensures |d| == |f.businessType| + |" business in "| + |f.city|
    ensures d[..|f.businessType|] == f.businessType
    ensures d[|f.businessType|..|d| - |f.city|] == " business in "
    ensures d[|d| - |f.city|..] == f.city
  {
    f.businessType + " business in " + f.city
  }

  /** The upsert request: the user, the six fields and the description. */
  datatype UpsertRow = UpsertRow(userId: string, fields: Fields, description: string)

  /** The result of a submit: the form, the request sent (if any), and whether
      `onComplete` was called. */
  datatype Submitted = Submitted(form: Form, request: Option<UpsertRow>, completed: bool)

  /** `handleSubmit`: without a user nothing is sent and nothing changes.
      Otherwise the upsert is sent; `onComplete` is called exactly when it
      reports no error, and on an error the message is stored instead. */
  function Submit(s: Form, user: Option<string>, reply: Reply<()>): (r: Submitted)
    ensures user.None? ==> r == Submitted(s, None, false)
    ensures user.Some? ==>
              && r.request.Some?
              && r.request.value.userId == user.value
              && r.request.value.fields == s.profile
              && r.request.value.description == Description(s.profile)
              && r.form.profile == s.profile
              && !r.form.saving
              && r.form.loading == s.loading
    ensures user.Some? ==> (r.completed <==> reply.Ok?)
    ensures user.Some? && reply.Ok? ==> r.form.error == ""
    ensures user.Some? && reply.Fail? ==> r.form.error == ErrorText(reply.message, SaveFailedText)
  {
    if user.None? then Submitted(s, None, false)
    else
      var request := UpsertRow(user.value, s.profile, Description(s.profile));
      var sending := s.(saving := true, error := "");
      match reply
      case Ok(_) => Submitted(sending.(saving := false), Some(request), true)
      case Fail(message) =>
        Submitted(sending.(error := ErrorText(message, SaveFailedText), saving := false), Some(request), false)
  }

  /** Loading the row the form last saved prefills exactly the saved fields
      when its business type is non-empty. */
  lemma SavedRowReloads(s: Form, u: string, reply: Reply<()>)
    requires s.profile.businessType != ""
    ensures var f := s.profile;
            var row := ProfileRow(f.businessName, f.industry, Some(f.businessType),
                                  Some(f.city), Some(f.budgetRange), Some(f.goals));
            Load(Submit(s, Some(u), reply).form, Some(u), Ok(Some(row))).profile == s.profile
  {
  }
}
