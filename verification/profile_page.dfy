/** The profile page: shows the stored business profile and lets the user
    edit a working copy, cancel the edit, or save it with an update request. */
module ProfilePage {
  import opened Common
  import opened Profiles

  /** A business_profiles row as the page reads it: its id and its fields. */
  datatype StoredProfile = StoredProfile(id: string, fields: Fields)

  datatype PageState = PageState(
    profile: Option<StoredProfile>,
    edited: Option<StoredProfile>,
    isEditing: bool,
    error: string,
    success: string,
    loading: bool,
    saving: bool)

  const Initial: PageState := PageState(None, None, false, "", "", true, false)

  const LoadFailedText := "Failed to load profile"
  const UpdateFailedText := "Failed to update profile"
  const UpdatedText := "Profile updated successfully"

  /** `loadProfile`: without a user nothing happens. A successful read sets
      both the shown profile and the working copy to the row (or to nothing
      when there is no row); a failed read keeps them and sets the error. */
  function Load(s: PageState, user: Option<string>, reply: Reply<Option<StoredProfile>>): (r: PageState)
    ensures user.None? ==> r == s
    ensures user.Some? ==> !r.loading
    ensures user.Some? && reply.Ok? ==> r.profile == reply.value && r.edited == reply.value
    ensures user.Some? && reply.Fail? ==>
              r.profile == s.profile && r.edited == s.edited && r.error == LoadFailedText
    ensures user.Some? ==> r.isEditing == s.isEditing && r.success == s.success && r.saving == s.saving
    ensures user.Some? && reply.Ok? ==> r.error == s.error
  {
    if user.None? then s
    else
      match reply
      case Ok(row) => s.(profile := row, edited := row, loading := false)
      case Fail(_) => s.(error := LoadFailedText, loading := false)
  }

  /** `handleEdit`: enter edit mode and clear both messages; nothing else
      changes. */
  function Edit(s: PageState): (r: PageState)
    ensures r.isEditing && r.error == "" && r.success == ""
    ensures r.profile == s.profile && r.edited == s.edited && r.loading == s.loading && r.saving == s.saving
  {
    s.(isEditing := true, error := "", success := "")
  }

  /** `handleCancel`: drop the working copy in favour of the shown profile,
      leave edit mode and clear the error; the shown profile and the success
      message stay. */
  function Cancel(s: PageState): (r: PageState)
    ensures !r.isEditing && r.error == ""
    ensures r.edited == s.profile
    ensures r.profile == s.profile && r.success == s.success
    ensures r.loading == s.loading && r.saving == s.saving
  {
    s.(isEditing := false, edited := s.profile, error := "")
  }

  /** One input of the edit form: changes exactly that field of the working
      copy, and nothing at all when there is no working copy. */
  function EditField(s: PageState, f: Field, v: string): (r: PageState)
    ensures s.edited.None? ==> r == s
    ensures s.edited.Some? ==>
              && r.edited.Some?
              && r.edited.value.id == s.edited.value.id
              && Get(r.edited.value.fields, f) == v
              && (forall g :: g != f ==> Get(r.edited.value.fields, g) == Get(s.edited.value.fields, g))
    ensures r.profile == s.profile && r.isEditing == s.isEditing
    ensures r.error == s.error && r.success == s.success
    ensures r.loading == s.loading && r.saving == s.saving
  {
    match s.edited
    case None => s
    case Some(e) => s.(edited := Some(e.(fields := Set(e.fields, f, v))))
  }

  /** The update request: the working copy's fields, addressed by its id. */
  datatype UpdateRequest = UpdateRequest(id: string, fields: Fields)

  datatype Saved = Saved(state: PageState, request: Option<UpdateRequest>)

  /** `handleSubmit`. Without a user or a working copy nothing is sent and
      nothing changes. Otherwise the working copy is sent; on success it
      becomes the shown profile, edit mode ends and the success message is
      set; on failure the shown profile and edit mode stay and the error
      message is set. */
  function Submit(s: PageState, user: Option<string>, reply: Reply<()>): (r: Saved)
    ensures user.None? || s.edited.None? ==> r == Saved(s, None)
    ensures user.Some? && s.edited.Some? ==>
              && r.request == Some(UpdateRequest(s.edited.value.id, s.edited.value.fields))
              && !r.state.saving
              && r.state.loading == s.loading
              && r.state.edited == s.edited
    ensures user.Some? && s.edited.Some? && reply.Ok? ==>
              && r.state.profile == s.edited
              && !r.state.isEditing
              && r.state.success == UpdatedText
              && r.state.error == ""
    ensures user.Some? && s.edited.Some? && reply.Fail? ==>
              && r.state.profile == s.profile
              && r.state.isEditing == s.isEditing
              && r.state.success == ""
              && r.state.error == ErrorText(reply.message, UpdateFailedText)
  {
    if user.None? || s.edited.None? then Saved(s, None)
    else
      var e := s.edited.value;
      var sending := s.(saving := true, error := "", success := "");
      var settled :=
        match reply
        case Ok(_) => sending.(profile := Some(e), isEditing := false, success := UpdatedText)
        case Fail(message) => sending.(error := ErrorText(message, UpdateFailedText));
      Saved(settled.(saving := false), Some(UpdateRequest(e.id, e.fields)))
  }

  /** Editing and then cancelling shows the stored profile again and leaves
      the working copy equal to it, whatever was typed in between. */
  lemma CancelDiscardsEdits(s: PageState, f: Field, v: string)
    ensures var r := Cancel(EditField(Edit(s), f, v));
            && r.profile == s.profile
            && r.edited == s.profile
            && !r.isEditing
  {
  }

  /** After a successful save a later cancel keeps the saved values. */
  lemma SaveThenCancelKeepsSaved(s: PageState, u: string)
    requires s.edited.Some?
    ensures var r := Cancel(Submit(s, Some(u), Ok(())).state);
            r.profile == s.edited && r.edited == s.edited
  {
  }
}
