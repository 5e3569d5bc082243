/** The three stored entities, in the shape the store returns them, and
    their views as JSON objects (field name to value). */
module Records {
  import opened Common

  /** A collaborator (`UserType`). */
  datatype User = User(id: Id, name: string, email: string)

  /** A piece of equipment (`EquipmentType`). */
  datatype Equipment = Equipment(
    id: Id, code: string, description: string,
    manufacturer: string, brand: string, model: string)

  /** A work order as stored: it refers to its responsible collaborator,
      its equipment and its type by id or by value (`WorkOrderResponse`;
      the two forms call the same shape `WorkOrder`). */
  datatype WorkOrderResponse = WorkOrderResponse(
    id: Id, date: Day, responsible: Id, kind: string, equipment: Id,
    description: string, report: string, done: bool)

  function UserId(u: User): Id { u.id }

  function UserName(u: User): string { u.name }

  function EquipmentId(e: Equipment): Id { e.id }

  /** The value a stored work order holds under a JSON field name. */
  function OrderField(w: WorkOrderResponse, name: string): Option<Json> {
    if name == "_id" then Some(Str(w.id))
    else if name == "date" then Some(Date(w.date))
    else if name == "responsible" then Some(Str(w.responsible))
    else if name == "type" then Some(Str(w.kind))
    else if name == "equipment" then Some(Str(w.equipment))
    else if name == "description" then Some(Str(w.description))
    else if name == "report" then Some(Str(w.report))
    else if name == "done" then Some(Bool(w.done))
    else None
  }

  /** The value a collaborator holds under a JSON field name. */
  function UserField(u: User, name: string): Option<Json> {
    if name == "_id" then Some(Str(u.id))
    else if name == "name" then Some(Str(u.name))
    else if name == "email" then Some(Str(u.email))
    else None
  }

  /** Every field a request body sends holds, in the work order, the value sent. */
  ghost predicate OrderAgrees(body: map<string, Json>, w: WorkOrderResponse) {
    forall k :: k in body ==> OrderField(w, k) == Some(body[k])
  }

  /** Every field a request body sends holds, in the collaborator, the value sent. */
  ghost predicate UserAgrees(body: map<string, Json>, u: User) {
    forall k :: k in body ==> UserField(u, k) == Some(body[k])
  }
}
