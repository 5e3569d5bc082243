/** The dialog that creates or edits a collaborator (components/Users/Form.tsx).
    On submission it sends the name and email to the store, as an update
    when the collaborator it holds has an id and as a creation otherwise,
    and hands the page that collaborator overridden by the form's values.

    Besides the two visible fields, the form's values hold an `_id`: the
    one of the record last passed to `reset`. Opening on a collaborator
    resets the form to it; closing resets it to the blank record. Reopening
    on the very same collaborator object does not reset the form again, so
    its `_id` is then the blank one (see `SubmitOutcomeAsWritten`). */
module UserForm {
  import opened Common
  import opened Records

  /** The collaborator the dialog holds when opened without one. */
  function Blank(): (u: User)
    ensures u.id == "" && u.name == "" && u.email == ""
  {
    User("", "", "")
  }

  /** The values of the two visible fields at submission. */
  datatype FormData = FormData(name: string, email: string)

  /** Both fields are `required`. */
  predicate Complete(d: FormData) {
    d.name != "" && d.email != ""
  }

  /** The values the fields start with: `reset(user)`. */
  function Prefill(u: User): FormData {
    FormData(u.name, u.email)
  }

  /** The body of both the update and the creation request. */
  function Body(d: FormData): (body: map<string, Json>)
    ensures body.Keys == {"email", "name"}
    ensures body["email"] == Str(d.email) && body["name"] == Str(d.name)
  {
    map["email" := Str(d.email), "name" := Str(d.name)]
  }

  /** `{ ...user, ...data }` once `data._id` holds `id`: every field comes
      from the form's values. */
  function Overridden(u: User, d: FormData, id: Id): User {
    User(id, d.name, d.email)
  }

  datatype Submission = Rejected | Submitted(request: StoreRequest, saved: User)

  /** `onSubmit` as written, while the dialog holds `u` and the form's
      hidden `_id` is `formId`; `postedId` is the id the store answers a
      creation with. The update goes to `u`'s id, but the collaborator handed
      on carries `formId`. */
  function SubmitOutcomeAsWritten(u: User, formId: Id, d: FormData, postedId: Id): (s: Submission)
    ensures s.Rejected? <==> !Complete(d)
    ensures s.Submitted? && u.id != "" ==> s.request == Put(Users, u.id, Body(d)) && s.saved.id == formId
    ensures s.Submitted? && u.id == "" ==> s.request == Post(Users, Body(d)) && s.saved.id == postedId
    ensures s.Submitted? ==> s.saved.name == d.name && s.saved.email == d.email
  {
    if !Complete(d) then Rejected
    else if u.id != "" then Submitted(Put(Users, u.id, Body(d)), Overridden(u, d, formId))
    else Submitted(Post(Users, Body(d)), Overridden(u, d, postedId))
  }

  /** `onSubmit` as intended: the collaborator handed on keeps the id the
      update went to. */
  function SubmitOutcome(u: User, d: FormData, postedId: Id): (s: Submission)
    ensures s.Rejected? <==> !Complete(d)
    ensures s.Submitted? && u.id != "" ==> s.request == Put(Users, u.id, Body(d)) && s.saved.id == u.id
    ensures s.Submitted? && u.id == "" ==> s.request == Post(Users, Body(d)) && s.saved.id == postedId
  {
    if !Complete(d) then Rejected
    else if u.id != "" then Submitted(Put(Users, u.id, Body(d)), Overridden(u, d, u.id))
    else Submitted(Post(Users, Body(d)), Overridden(u, d, postedId))
  }

  /** When the form's `_id` is the held collaborator's, as after opening on
      it, the code as written does what is intended. */
  lemma AsWrittenWhenSynced(u: User, d: FormData, postedId: Id)
    ensures SubmitOutcomeAsWritten(u, u.id, d, postedId) == SubmitOutcome(u, d, postedId)
  {
  }

  /** After the dialog was closed (`_id` reset to blank) and reopened on the
      same collaborator, the update goes to that collaborator's id, but the
      collaborator handed on has an empty id. */
  lemma StaleIdAfterReopen(u: User, d: FormData, postedId: Id)
    requires u.id != "" && Complete(d)
    ensures var s := SubmitOutcomeAsWritten(u, Blank().id, d, postedId);
      && s.Submitted? && s.request == Put(Users, u.id, Body(d))
      && s.saved.id == "" && s.saved.id != s.request.id
  {
  }

  /** As intended, an update hands on the collaborator stored under the id
      it was sent to. */
  lemma SavedUnderRequestedId(u: User, d: FormData, postedId: Id)
    requires u.id != "" && Complete(d)
    ensures var s := SubmitOutcome(u, d, postedId);
      s.Submitted? && s.request.Put? && s.saved.id == s.request.id
  {
  }

  /** The saved collaborator holds the submitted name and email, and the
      store receives exactly those values. */
  lemma SavedAgreesWithRequest(u: User, d: FormData, postedId: Id)
    requires Complete(d)
    ensures var s := SubmitOutcome(u, d, postedId);
      && s.Submitted? && !s.request.Delete?
      && UserAgrees(s.request.body, s.saved)
      && UserField(s.saved, "name") == Some(Str(d.name))
      && UserField(s.saved, "email") == Some(Str(d.email))
  {
  }

  /** Submitting an existing collaborator without changes updates it to itself. */
  lemma UnchangedEditIsIdentity(u: User, postedId: Id)
    requires u.id != "" && Complete(Prefill(u))
    ensures SubmitOutcome(u, Prefill(u), postedId) == Submitted(Put(Users, u.id, Body(Prefill(u))), u)
  {
  }

  const EditTitle := "Alterar Colaborador"
  const CreateTitle := "Adicionar Colaborador"

  /** The dialog's title: editing when the collaborator it holds has an id. */
  function Title(u: User): (t: string)
    ensures t == EditTitle <==> u.id != ""
    ensures t == CreateTitle <==> u.id == ""
  {
    if u.id != "" then EditTitle else CreateTitle
  }

  /** Submitting the blank dialog creates a collaborator that carries the
      issued id; given to the dialog again, that collaborator is titled for
      editing. */
  lemma BlankCreates(d: FormData, postedId: Id)
    requires Complete(d) && postedId != ""
    ensures Title(Blank()) == CreateTitle
    ensures var s := SubmitOutcome(Blank(), d, postedId);
      && s.Submitted? && s.request == Post(Users, Body(d))
      && s.saved == User(postedId, d.name, d.email) && Title(s.saved) == EditTitle
  {
  }

  /** The dialog's state: the collaborator it holds and the `_id` among the
      form's values. */
  class Form {
    var user: User
    var formId: Id

    /** Once mounted closed, the dialog holds the blank collaborator and the
        form has been reset to it. */
    constructor()
      ensures user == Blank() && formId == Blank().id
    {
      user := Blank();
      formId := Blank().id;
    }

    /** The form holds the held collaborator's id, as after `Receive`. */
    predicate Synced()
      reads this
    {
      formId == user.id
    }

    /** `setUser(receivedUser || defaultValue)` and `reset` to the same
        record. React runs it only when the page passes another object than
        before, so reopening on the same collaborator does not run it. */
    method Receive(received: Option<User>)
      modifies this
      ensures user == received.GetOr(Blank()) && formId == user.id
      ensures Synced()
    {
      user := received.GetOr(Blank());
      formId := user.id;
    }

    /** Closing: `reset(defaultValue)` blanks the form's values, `_id`
        included, and keeps the held collaborator. */
    method Close()
      modifies this`formId
      ensures formId == Blank().id
    {
      formId := Blank().id;
    }

    /** `onSubmit`: the request sent to the store and the collaborator handed
        to `onSave`, or nothing when a required field is empty. The body is
        the handler's own statements, checked against the function that the
        lemmas reason about. */
    method Submit(d: FormData, postedId: Id) returns (s: Submission)
      ensures s == SubmitOutcomeAsWritten(user, formId, d, postedId)
      ensures Synced() ==> s == SubmitOutcome(user, d, postedId)
      ensures s.Submitted? ==> (s.request.Post? <==> user.id == "")
    {
      if !Complete(d) {
        return Rejected;
      }
      var id := formId;
      var request;
      if user.id != "" {
        request := Put(Users, user.id, Body(d));
      } else {
        request := Post(Users, Body(d));
        id := postedId;
      }
      s := Submitted(request, Overridden(user, d, id));
    }
  }
}
