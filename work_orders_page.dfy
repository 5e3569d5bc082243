/** The work-order list (pages/app/ordens-de-servico.tsx): it joins the
    stored orders with the collaborators, the equipment and the type table,
    keeps them sorted by date, merges what the two dialogs save back into
    the list, and classifies each order for display. */
module WorkOrdersPage {
  import opened Common
  import opened Records
  import opened Lists
  import WorkOrderForm
  import WorkOrderViewForm

  datatype Tone = Error | Info | Success

  /** An entry of the page's type table: caption, stored value and chip colour. */
  datatype OrderType = OrderType(caption: string, value: string, color: Tone)

  function TypeValue(t: OrderType): string { t.value }

  /** The type table as the page writes it: the third value is spelled
      "preventiva", while the dialog stores "preventive". */
  const TypesAsWritten: seq<OrderType> := [
    OrderType("Corretiva", "corrective", Error),
    OrderType("Preditiva", "predictive", Info),
    OrderType("Preventiva ", "preventiva", Success)
  ]

  /** The type table with the value the dialog stores. */
  const Types: seq<OrderType> := [
    OrderType("Corretiva", "corrective", Error),
    OrderType("Preditiva", "predictive", Info),
    OrderType("Preventiva ", "preventive", Success)
  ]

  /** `types.find(type => type.value === value)` on the table `types`. */
  function ResolveType(types: seq<OrderType>, value: string): Option<OrderType> {
    Find(types, TypeValue, value)
  }

  /** As written, an order saved with the dialog's third type resolves to no type. */
  lemma PreventiveUnresolvedAsWritten()
    ensures WorkOrderForm.TypeChoices[2].value == "preventive"
    ensures ResolveType(TypesAsWritten, WorkOrderForm.TypeChoices[2].value) == None
  {
  }

  /** With the corrected table every type the dialog offers resolves to the
      entry with that value and caption. */
  lemma DialogTypesResolve(c: WorkOrderForm.TypeChoice)
    requires c in WorkOrderForm.TypeChoices
    ensures ResolveType(Types, c.value).Some?
    ensures ResolveType(Types, c.value).value.value == c.value
    ensures ResolveType(Types, c.value).value.caption == c.caption
  {
  }

  /** A work order joined with its collaborator, equipment and type; a
      reference that resolves to nothing is `None` (`undefined`). */
  datatype WorkOrder = WorkOrder(
    id: Id, date: Day, responsible: Option<User>, kind: Option<OrderType>,
    equipment: Option<Equipment>, description: string, report: string, done: bool)

  function OrderId(w: WorkOrder): Id { w.id }

  function OrderDate(w: WorkOrder): Day { w.date }

  /** The comparator `a.date - b.date`, read as "may precede". */
  function DayLeq(a: Day, b: Day): bool { a <= b }

  lemma DayLeqTotal()
    ensures TotalPreorder(DayLeq)
  {
  }

  /** Every reference of `r` names an entry of the supplied lists or table. */
  predicate Resolves(r: WorkOrderResponse, users: seq<User>, equipments: seq<Equipment>, types: seq<OrderType>) {
    && (exists u :: u in users && u.id == r.responsible)
    && (exists e :: e in equipments && e.id == r.equipment)
    && (exists t :: t in types && t.value == r.kind)
  }

  /** `parseResponseToWorkOrder`: the stored order with its references
      looked up, each as the first entry with the referenced id or value. */
  function ParseResponse(r: WorkOrderResponse, users: seq<User>, equipments: seq<Equipment>, types: seq<OrderType>): (w: WorkOrder)
    ensures w.id == r.id && w.date == r.date && w.description == r.description
    ensures w.report == r.report && w.done == r.done
    ensures w.responsible.None? <==> forall u :: u in users ==> u.id != r.responsible
    ensures w.responsible.Some? ==> w.responsible.value in users && w.responsible.value.id == r.responsible
    ensures forall i :: FirstWith(users, UserId, r.responsible, i) ==> w.responsible == Some(users[i])
    ensures w.equipment.None? <==> forall e :: e in equipments ==> e.id != r.equipment
    ensures w.equipment.Some? ==> w.equipment.value in equipments && w.equipment.value.id == r.equipment
    ensures forall i :: FirstWith(equipments, EquipmentId, r.equipment, i) ==> w.equipment == Some(equipments[i])
    ensures w.kind.None? <==> forall t :: t in types ==> t.value != r.kind
    ensures w.kind.Some? ==> w.kind.value in types && w.kind.value.value == r.kind
    ensures forall i :: FirstWith(types, TypeValue, r.kind, i) ==> w.kind == Some(types[i])
  {
    WorkOrder(r.id, r.date, Find(users, UserId, r.responsible), ResolveType(types, r.kind),
              Find(equipments, EquipmentId, r.equipment), r.description, r.report, r.done)
  }

  /** `parseWorkOrderToResponse`: the joined order back with ids and type
      value. Dereferencing a missing reference faults: `None`. */
  function ToResponse(w: WorkOrder): (r: Option<WorkOrderResponse>)
    ensures r.Some? <==> w.responsible.Some? && w.equipment.Some? && w.kind.Some?
  {
    if w.responsible.Some? && w.equipment.Some? && w.kind.Some? then
      Some(WorkOrderResponse(w.id, w.date, w.responsible.value.id, w.kind.value.value,
                             w.equipment.value.id, w.description, w.report, w.done))
    else None
  }

  /** Joining a stored order and converting it back gives the stored order
      exactly when all its references resolve, and a fault otherwise. */
  lemma ParseRoundTrip(r: WorkOrderResponse, users: seq<User>, equipments: seq<Equipment>, types: seq<OrderType>)
    ensures ToResponse(ParseResponse(r, users, equipments, types))
         == if Resolves(r, users, equipments, types) then Some(r) else None
  {
  }

  /** With unique ids, converting a joined order whose references come
      from the supplied lists and joining it again gives the same order. */
  lemma JoinRoundTrip(w: WorkOrder, users: seq<User>, equipments: seq<Equipment>, types: seq<OrderType>)
    requires UniqueKeys(users, UserId) && UniqueKeys(equipments, EquipmentId) && UniqueKeys(types, TypeValue)
    requires w.responsible.Some? && w.responsible.value in users
    requires w.equipment.Some? && w.equipment.value in equipments
    requires w.kind.Some? && w.kind.value in types
    ensures ToResponse(w).Some?
    ensures ParseResponse(ToResponse(w).value, users, equipments, types) == w
  {
    FindUnique(users, UserId, w.responsible.value);
    FindUnique(equipments, EquipmentId, w.equipment.value);
    FindUnique(types, TypeValue, w.kind.value);
  }

  /** As written, a stored order of the dialog's third type joins without a
      type, so converting it back faults: its row cannot be opened. */
  lemma PreventiveOrderFaultsAsWritten(r: WorkOrderResponse, users: seq<User>, equipments: seq<Equipment>)
    requires r.kind == WorkOrderForm.TypeChoices[2].value
    ensures ParseResponse(r, users, equipments, TypesAsWritten).kind == None
    ensures !Resolves(r, users, equipments, TypesAsWritten)
    ensures ToResponse(ParseResponse(r, users, equipments, TypesAsWritten)) == None
  {
    PreventiveUnresolvedAsWritten();
  }

  /** With the corrected table, an order stored with any type the dialog
      offers, whose collaborator and equipment exist, joins and converts
      back to itself. */
  lemma DialogOrdersRoundTrip(r: WorkOrderResponse, users: seq<User>, equipments: seq<Equipment>, c: WorkOrderForm.TypeChoice)
    requires c in WorkOrderForm.TypeChoices && r.kind == c.value
    requires exists u :: u in users && u.id == r.responsible
    requires exists e :: e in equipments && e.id == r.equipment
    ensures ParseResponse(r, users, equipments, Types).kind == ResolveType(Types, c.value)
    ensures ToResponse(ParseResponse(r, users, equipments, Types)) == Some(r)
  {
    DialogTypesResolve(c);
    ParseRoundTrip(r, users, equipments, Types);
  }

  /** The row icon's classification of an order, seen from day `today`. */
  datatype Status =
    | Completed  // AssignmentTurnedIn, success
    | DueToday   // AssignmentLate, warning
    | Overdue    // AssignmentLate, error
    | Scheduled  // Assignment, disabled

  /** The icon selection: done first, then "not after today" by day, then
      "same day as today". */
  function StatusOf(w: WorkOrder, today: Day): (s: Status)
    ensures s == Completed <==> w.done
    ensures s == Overdue <==> !w.done && w.date < today
    ensures s == DueToday <==> !w.done && w.date == today
    ensures s == Scheduled <==> !w.done && w.date > today
  {
    if w.done then Completed
    else if !(w.date > today) then (if today == w.date then DueToday else Overdue)
    else Scheduled
  }

  /** The edit button is enabled exactly for the orders that are never shown as completed. */
  function EditEnabled(w: WorkOrder): (b: bool)
    ensures forall today :: b <==> StatusOf(w, today) != Completed
  {
    !w.done
  }

  /** Completing or reopening a listed order through the view dialog, and
      joining the result again, flips its row between completed and not
      completed on every day, flips whether it can be edited, and keeps its
      references. */
  lemma ToggleFlipsStatus(w: WorkOrder, users: seq<User>, equipments: seq<Equipment>, types: seq<OrderType>, typed: string, today: Day)
    requires UniqueKeys(users, UserId) && UniqueKeys(equipments, EquipmentId) && UniqueKeys(types, TypeValue)
    requires w.responsible.Some? && w.responsible.value in users
    requires w.equipment.Some? && w.equipment.value in equipments
    requires w.kind.Some? && w.kind.value in types
    requires WorkOrderViewForm.SubmitOutcome(ToResponse(w).value, typed).Saved?
    ensures var p := ParseResponse(WorkOrderViewForm.SubmitOutcome(ToResponse(w).value, typed).saved, users, equipments, types);
      && (StatusOf(p, today) == Completed <==> StatusOf(w, today) != Completed)
      && EditEnabled(p) == !EditEnabled(w)
      && p.responsible == w.responsible && p.equipment == w.equipment && p.kind == w.kind
      && p.id == w.id && p.date == w.date
  {
    JoinRoundTrip(w, users, equipments, types);
  }

  /** Each stored order joined, in order (`workOrders.map(...)`). */
  function ParseAll(rs: seq<WorkOrderResponse>, users: seq<User>, equipments: seq<Equipment>, types: seq<OrderType>): (ws: seq<WorkOrder>)
    ensures |ws| == |rs|
    ensures forall i :: 0 <= i < |rs| ==> ws[i] == ParseResponse(rs[i], users, equipments, types)
  {
    seq(|rs|, i requires 0 <= i < |rs| => ParseResponse(rs[i], users, equipments, types))
  }

  /** The list before `reload` sorts it: the saved order appended when
      nothing was selected, otherwise laid over the entries with its id. */
  function Upserted(ws: seq<WorkOrder>, saved: WorkOrder, selected: bool): (r: seq<WorkOrder>)
    ensures !selected ==> |r| == |ws| + 1 && multiset(r) == multiset(ws) + multiset{saved}
    ensures selected ==> |r| == |ws|
    ensures selected ==> forall i :: 0 <= i < |ws| ==>
      r[i] == (if ws[i].id == saved.id then saved else ws[i])
  {
    if selected then ReplaceMatching(ws, OrderId, saved) else ws + [saved]
  }

  /** The page's state. The page as written is `Page(TypesAsWritten)`;
      `Page(Types)` is the page with the corrected table. */
  class Page {
    const types: seq<OrderType>
    var workOrders: seq<WorkOrder>
    var users: seq<User>
    var equipments: seq<Equipment>
    var selected: Option<WorkOrderResponse>

    /** The list is in date order. */
    predicate Valid()
      reads this
    {
      SortedBy(workOrders, OrderDate, DayLeq)
    }

    constructor(types: seq<OrderType>)
      ensures Valid() && this.types == types
      ensures workOrders == [] && users == [] && equipments == [] && selected == None
    {
      this.types := types;
      workOrders, users, equipments, selected := [], [], [], None;
    }

    /** Sorts `ws` by date into the list and proves what the sort promises. */
    method SetSorted(ws: seq<WorkOrder>)
      modifies this`workOrders
      ensures Valid()
      ensures workOrders == StableSort(ws, OrderDate, DayLeq)
      ensures multiset(workOrders) == multiset(ws)
      ensures forall d :: SameKey(workOrders, OrderDate, DayLeq, d) == SameKey(ws, OrderDate, DayLeq, d)
    {
      workOrders := StableSort(ws, OrderDate, DayLeq);
      DayLeqTotal();
      SortSorted(ws, OrderDate, DayLeq);
      forall d ensures SameKey(workOrders, OrderDate, DayLeq, d) == SameKey(ws, OrderDate, DayLeq, d) {
        SortStable(ws, OrderDate, DayLeq, d);
      }
    }

    /** `load`: the fetched orders joined with the fetched collaborators and
        equipment, sorted by date; equal dates keep the fetched order. */
    method Load(fetched: seq<WorkOrderResponse>, fetchedUsers: seq<User>, fetchedEquipments: seq<Equipment>)
      modifies this
      ensures Valid()
      ensures users == fetchedUsers && equipments == fetchedEquipments && selected == old(selected)
      ensures workOrders == StableSort(ParseAll(fetched, fetchedUsers, fetchedEquipments, types), OrderDate, DayLeq)
      ensures |workOrders| == |fetched|
      ensures multiset(workOrders) == multiset(ParseAll(fetched, fetchedUsers, fetchedEquipments, types))
      ensures forall d :: SameKey(workOrders, OrderDate, DayLeq, d)
                       == SameKey(ParseAll(fetched, fetchedUsers, fetchedEquipments, types), OrderDate, DayLeq, d)
    {
      SetSorted(ParseAll(fetched, fetchedUsers, fetchedEquipments, types));
      users := fetchedUsers;
      equipments := fetchedEquipments;
    }

    /** `reload`: with nothing selected the saved order joins the list,
        otherwise it replaces the entries with its id; then the list is
        sorted by date again. */
    method Reload(saved: WorkOrderResponse)
      modifies this
      ensures Valid()
      ensures users == old(users) && equipments == old(equipments) && selected == old(selected)
      ensures workOrders == StableSort(
        Upserted(old(workOrders), ParseResponse(saved, users, equipments, types), selected.Some?), OrderDate, DayLeq)
      ensures selected.None? ==> |workOrders| == |old(workOrders)| + 1
      ensures selected.None? ==>
        multiset(workOrders) == multiset(old(workOrders)) + multiset{ParseResponse(saved, users, equipments, types)}
      ensures selected.Some? ==> |workOrders| == |old(workOrders)|
      ensures forall d :: SameKey(workOrders, OrderDate, DayLeq, d) == SameKey(
        Upserted(old(workOrders), ParseResponse(saved, users, equipments, types), selected.Some?), OrderDate, DayLeq, d)
    {
      var parsed := ParseResponse(saved, users, equipments, types);
      if selected.None? {
        SetSorted(workOrders + [parsed]);
      } else {
        SetSorted(ReplaceMatching(workOrders, OrderId, parsed));
      }
    }

    /** `openForm`: selects the order to edit, or nothing for a new one.
        Converting an order with a missing reference faults and leaves the
        selection as it was. */
    method OpenForm(w: Option<WorkOrder>) returns (shown: bool)
      modifies this`selected
      ensures shown <==> w.None? || ToResponse(w.value).Some?
      ensures shown ==> selected == if w.None? then None else ToResponse(w.value)
      ensures !shown ==> selected == old(selected)
    {
      if w.None? {
        selected := None;
        return true;
      }
      var r := ToResponse(w.value);
      shown := r.Some?;
      if shown {
        selected := r;
      }
    }

    /** `openViewForm`: selects the order to complete or reopen. */
    method OpenViewForm(w: WorkOrder) returns (shown: bool)
      modifies this`selected
      ensures shown <==> ToResponse(w).Some?
      ensures shown ==> selected == ToResponse(w)
      ensures !shown ==> selected == old(selected)
    {
      var r := ToResponse(w);
      shown := r.Some?;
      if shown {
        selected := r;
      }
    }
  }
}
