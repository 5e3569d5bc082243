/** The dialog that completes or reopens a work order
    (components/WorkOrders/ViewForm.tsx). Submitting it flips `done`, records
    the report, writes those two fields to the store when the order has an
    id, and hands the page the toggled order in any case. */
module WorkOrderViewForm {
  import opened Common
  import opened Records
  import WorkOrderForm

  const CloseTitle := "Concluir Ordem de Serviço"
  const ReopenTitle := "Reabrir Ordem de Serviço"
  const CloseLabel := "Concluir"
  /** The reopen button's caption, spelled as the dialog spells it. */
  const ReopenLabel := "Reabir"

  /** `{ ...workOrder, done: !workOrder.done, report }`. */
  function Toggled(w: WorkOrderResponse, report: string): (r: WorkOrderResponse)
    ensures r.done == !w.done && r.report == report
    ensures forall k :: k != "done" && k != "report" ==> OrderField(r, k) == OrderField(w, k)
  {
    w.(done := !w.done, report := report)
  }

  /** The body of the store write: the two toggled fields and nothing else. */
  function ToggleBody(w: WorkOrderResponse, report: string): (body: map<string, Json>)
    ensures body.Keys == {"done", "report"}
    ensures body["done"] == Bool(!w.done) && body["report"] == Str(report)
  {
    map["done" := Bool(!w.done), "report" := Str(report)]
  }

  /** The report the dialog submits: its field is disabled while the order
      is done, so reopening resubmits the report the order already has. */
  function SubmittedReport(w: WorkOrderResponse, typed: string): (r: string)
    ensures w.done ==> r == w.report
    ensures !w.done ==> r == typed
  {
    if w.done then w.report else typed
  }

  datatype Outcome = Rejected | Saved(write: Option<StoreRequest>, saved: WorkOrderResponse)

  /** What submitting the dialog does while it holds `w`, with `typed` in
      the report field. The report is required. */
  function SubmitOutcome(w: WorkOrderResponse, typed: string): (o: Outcome)
    ensures o.Rejected? <==> SubmittedReport(w, typed) == ""
    ensures o.Saved? ==> o.saved == Toggled(w, SubmittedReport(w, typed))
    ensures o.Saved? ==> (o.write.Some? <==> w.id != "")
    ensures o.Saved? && o.write.Some? ==>
      o.write.value == Put(WorkOrders, w.id, ToggleBody(w, SubmittedReport(w, typed)))
  {
    var report := SubmittedReport(w, typed);
    if report == "" then Rejected
    else Saved(if w.id != "" then Some(Put(WorkOrders, w.id, ToggleBody(w, report))) else None,
               Toggled(w, report))
  }

  /** The store write and the order handed to the page agree on the fields written. */
  lemma WriteAgreesWithSaved(w: WorkOrderResponse, typed: string)
    requires SubmitOutcome(w, typed).Saved? && SubmitOutcome(w, typed).write.Some?
    ensures OrderAgrees(SubmitOutcome(w, typed).write.value.body, SubmitOutcome(w, typed).saved)
  {
  }

  /** Toggling twice restores `done`, and the whole order when the second toggle
      carries the original report. */
  lemma ToggleTwice(w: WorkOrderResponse, first: string, second: string)
    ensures Toggled(Toggled(w, first), second).done == w.done
    ensures Toggled(Toggled(w, first), w.report) == w
  {
  }

  /** Completing an open order and then reopening it gives back the order
      with the completion report kept: what is typed at reopening is ignored. */
  lemma CompleteThenReopen(w: WorkOrderResponse, report: string, retyped: string)
    requires !w.done && report != ""
    ensures SubmitOutcome(w, report).Saved?
    ensures var closed := SubmitOutcome(w, report).saved;
      && closed.done
      && SubmitOutcome(closed, retyped) == Saved(
           if w.id != "" then Some(Put(WorkOrders, w.id, ToggleBody(closed, report))) else None,
           w.(report := report))
  {
  }

  /** The dialog's title, from `done` alone. */
  function Title(w: WorkOrderResponse): (t: string)
    ensures t == ReopenTitle <==> w.done
    ensures t == CloseTitle <==> !w.done
  {
    if w.done then ReopenTitle else CloseTitle
  }

  /** The submit button's caption, from `done` alone. */
  function ButtonLabel(w: WorkOrderResponse): (t: string)
    ensures t == ReopenLabel <==> w.done
    ensures t == CloseLabel <==> !w.done
  {
    if w.done then ReopenLabel else CloseLabel
  }

  /** The title and caption depend on nothing but `done`, and each toggle
      switches both. */
  lemma WordingFollowsDone(a: WorkOrderResponse, b: WorkOrderResponse, report: string)
    ensures a.done == b.done ==> Title(a) == Title(b) && ButtonLabel(a) == ButtonLabel(b)
    ensures Title(Toggled(a, report)) != Title(a) && ButtonLabel(Toggled(a, report)) != ButtonLabel(a)
  {
  }

  /** The dialog's state: the order it was last given. */
  class ViewForm {
    const blank: WorkOrderResponse
    var workOrder: WorkOrderResponse

    /** The dialog's default value is the same literal as the edit dialog's. */
    constructor(loadedOn: Day)
      ensures blank == WorkOrderForm.Blank(loadedOn) && workOrder == blank
    {
      blank := WorkOrderForm.Blank(loadedOn);
      workOrder := WorkOrderForm.Blank(loadedOn);
    }

    /** `setWorkOrder(receivedWorkOrder || defaultValue)`. */
    method Receive(received: Option<WorkOrderResponse>)
      modifies this
      ensures workOrder == received.GetOr(blank)
    {
      workOrder := received.GetOr(blank);
    }

    /** `onSubmit`: the conditional store write, then the order for `onSave`.
        The body is the handler's own statements, checked against the
        function that the lemmas reason about. */
    method Submit(typed: string) returns (o: Outcome)
      ensures o == SubmitOutcome(workOrder, typed)
      ensures o.Saved? ==> o.saved.done == !workOrder.done
    {
      var report := if workOrder.done then workOrder.report else typed;
      if report == "" {
        return Rejected;
      }
      var write := None;
      if workOrder.id != "" {
        write := Some(Put(WorkOrders, workOrder.id, ToggleBody(workOrder, report)));
      }
      o := Saved(write, Toggled(workOrder, report));
    }
  }
}
