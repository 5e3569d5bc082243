/** The dialog that creates or edits a work order (components/WorkOrders/Form.tsx).
    It holds the order it was opened with; on submission it either updates
    that order in the store (non-empty id) or creates a new one, and hands
    the page the order overridden by the form's values. */
module WorkOrderForm {
  import opened Common
  import opened Records

  /** An entry of the dialog's type select. */
  datatype TypeChoice = TypeChoice(caption: string, value: string)

  /** The type select offers exactly these entries. */
  const TypeChoices: seq<TypeChoice> := [
    TypeChoice("Corretiva", "corrective"),
    TypeChoice("Preditiva", "predictive"),
    TypeChoice("Preventiva ", "preventive")
  ]

  /** The order the dialog holds when opened without one. Its date is a
      `new Date()` evaluated once, when the module is loaded. */
  function Blank(loadedOn: Day): (w: WorkOrderResponse)
    ensures w.id == "" && !w.done && w.report == "" && w.date == loadedOn
    ensures w.responsible == "" && w.kind == "" && w.equipment == "" && w.description == ""
  {
    WorkOrderResponse("", loadedOn, "", "", "", "", "", false)
  }

  /** The values of the five controlled fields at submission; the date
      picker can be cleared. */
  datatype FormData = FormData(
    date: Option<Day>, responsible: Id, kind: string, equipment: Id, description: string)

  /** Every field is `required`: `handleSubmit` calls `onSubmit` only when
      all five hold a value. */
  predicate Complete(d: FormData) {
    d.date.Some? && d.responsible != "" && d.kind != "" && d.equipment != "" && d.description != ""
  }

  /** The values the fields start with: `reset(workOrder)`. */
  function Prefill(w: WorkOrderResponse): FormData {
    FormData(Some(w.date), w.responsible, w.kind, w.equipment, w.description)
  }

  /** The fields the dialog edits, under their JSON names. */
  const EditedFields: set<string> := {"date", "responsible", "type", "equipment", "description"}

  /** The body of the update request. */
  function UpdateBody(d: FormData): (body: map<string, Json>)
    requires Complete(d)
    ensures body.Keys == EditedFields
    ensures "done" !in body && "report" !in body
    ensures body["date"] == Date(d.date.value) && body["type"] == Str(d.kind)
    ensures body["responsible"] == Str(d.responsible) && body["equipment"] == Str(d.equipment)
    ensures body["description"] == Str(d.description)
  {
    map["date" := Date(d.date.value), "responsible" := Str(d.responsible), "type" := Str(d.kind),
        "equipment" := Str(d.equipment), "description" := Str(d.description)]
  }

  /** The body of the creation request: the edited fields and `done: false`. */
  function CreateBody(d: FormData): (body: map<string, Json>)
    requires Complete(d)
    ensures body.Keys == EditedFields + {"done"}
    ensures "report" !in body
    ensures body["done"] == Bool(false)
    ensures forall k :: k in EditedFields ==> body[k] == UpdateBody(d)[k]
  {
    UpdateBody(d)["done" := Bool(false)]
  }

  /** `{ ...workOrder, ...data }` once `data._id` holds `id`. */
  function Overridden(w: WorkOrderResponse, d: FormData, id: Id): WorkOrderResponse
    requires Complete(d)
  {
    w.(id := id, date := d.date.value, responsible := d.responsible, kind := d.kind,
       equipment := d.equipment, description := d.description)
  }

  datatype Submission = Rejected | Submitted(request: StoreRequest, saved: WorkOrderResponse)

  /** What submitting the dialog with values `d` does while it holds `w`;
      `postedId` is the id the store answers a creation with. */
  function SubmitOutcome(w: WorkOrderResponse, d: FormData, postedId: Id): (s: Submission)
    ensures s.Rejected? <==> !Complete(d)
    ensures s.Submitted? && w.id != "" ==>
      s.request == Put(WorkOrders, w.id, UpdateBody(d)) && s.saved.id == w.id
    ensures s.Submitted? && w.id == "" ==>
      s.request == Post(WorkOrders, CreateBody(d)) && s.saved.id == postedId
    ensures s.Submitted? ==> s.saved.done == w.done && s.saved.report == w.report
  {
    if !Complete(d) then Rejected
    else if w.id != "" then Submitted(Put(WorkOrders, w.id, UpdateBody(d)), Overridden(w, d, w.id))
    else Submitted(Post(WorkOrders, CreateBody(d)), Overridden(w, d, postedId))
  }

  /** The saved order is `w` with the form's fields laid over it: every
      edited field holds the submitted value, every other field but the id
      is `w`'s. */
  lemma SavedOverridesFormFields(w: WorkOrderResponse, d: FormData, postedId: Id)
    requires Complete(d)
    ensures var s := SubmitOutcome(w, d, postedId);
      && (forall k :: k in EditedFields ==> OrderField(s.saved, k) == Some(UpdateBody(d)[k]))
      && (forall k :: k !in EditedFields && k != "_id" ==> OrderField(s.saved, k) == OrderField(w, k))
  {
  }

  /** The store receives the values the page is handed: every field the
      request sends holds that value in the saved order. A creation sends
      `done: false`, so this needs the order being created to be open. */
  lemma RequestAgreesWithSaved(w: WorkOrderResponse, d: FormData, postedId: Id)
    requires Complete(d) && (w.id == "" ==> !w.done)
    ensures var s := SubmitOutcome(w, d, postedId);
      s.Submitted? && !s.request.Delete? && OrderAgrees(s.request.body, s.saved)
  {
  }

  /** Submitting an existing order without changing a field updates it to
      itself. */
  lemma UnchangedEditIsIdentity(w: WorkOrderResponse, postedId: Id)
    requires w.id != "" && Complete(Prefill(w))
    ensures SubmitOutcome(w, Prefill(w), postedId)
         == Submitted(Put(WorkOrders, w.id, UpdateBody(Prefill(w))), w)
  {
  }

  /** Submitting the blank dialog creates an open order without report that
      carries the id the store issued. */
  lemma BlankCreatesOpenOrder(loadedOn: Day, d: FormData, postedId: Id)
    requires Complete(d)
    ensures var s := SubmitOutcome(Blank(loadedOn), d, postedId);
      && s.Submitted? && s.request == Post(WorkOrders, CreateBody(d))
      && s.saved.id == postedId && !s.saved.done && s.saved.report == ""
  {
  }

  const EditTitle := "Alterar Ordem de Serviço"
  const CreateTitle := "Adicionar Ordem de Serviço"

  /** The dialog's title: editing when the order it holds has an id. */
  function Title(w: WorkOrderResponse): (t: string)
    ensures t == EditTitle <==> w.id != ""
    ensures t == CreateTitle <==> w.id == ""
  {
    if w.id != "" then EditTitle else CreateTitle
  }

  /** The blank dialog creates; once an order is saved with an issued id,
      reopening the dialog on it edits. */
  lemma TitleAfterSave(loadedOn: Day, w: WorkOrderResponse, d: FormData, postedId: Id)
    requires SubmitOutcome(w, d, postedId).Submitted?
    requires w.id == "" ==> postedId != ""
    ensures Title(Blank(loadedOn)) == CreateTitle
    ensures Title(SubmitOutcome(w, d, postedId).saved) == EditTitle
  {
  }

  /** The dialog's state: the order it was last given. */
  class Form {
    const blank: WorkOrderResponse
    var workOrder: WorkOrderResponse

    constructor(loadedOn: Day)
      ensures blank == Blank(loadedOn) && workOrder == blank
    {
      blank := Blank(loadedOn);
      workOrder := Blank(loadedOn);
    }

    /** `setWorkOrder(receivedWorkOrder || defaultValue)`. */
    method Receive(received: Option<WorkOrderResponse>)
      modifies this
      ensures workOrder == received.GetOr(blank)
    {
      workOrder := received.GetOr(blank);
    }

    /** `onSubmit`: the request sent to the store and the order handed to
        `onSave`, or nothing when a required field is empty. The body is the
        handler's own statements, checked against the function that the
        lemmas reason about. */
    method Submit(d: FormData, postedId: Id) returns (s: Submission)
      ensures s == SubmitOutcome(workOrder, d, postedId)
      ensures s.Submitted? ==> (s.request.Post? <==> workOrder.id == "")
    {
      if !Complete(d) {
        return Rejected;
      }
      var id := workOrder.id;
      var request;
      if workOrder.id != "" {
        request := Put(WorkOrders, workOrder.id, UpdateBody(d));
      } else {
        request := Post(WorkOrders, CreateBody(d));
        id := postedId;
      }
      s := Submitted(request, Overridden(workOrder, d, id));
    }
  }
}
