/**
 * Drag and drop between the role palette, the employee bars and the timeline's month columns. A
 * drag carries a payload (a role template, or an employee with what is being done to it); the
 * provider remembers the payload and the column hovered, and when the drag ends it calls at most
 * one of the optional callbacks with the hovered target, then forgets both.
 */
module DndContext {
  import opened Wrappers

  /** A role that can be dragged onto the timeline to add an employee. */
  datatype RoleTemplate = RoleTemplate(id: string, name: string, defaultSalary: int, color: string)

  datatype EmployeeAction = Move | ResizeStart | ResizeEnd

  /** `DragData`: a role payload or an employee payload. */
  datatype DragData =
    | RoleDrag(template: RoleTemplate)
    | EmployeeDrag(employeeId: string, action: EmployeeAction)

  datatype Edge = StartEdge | EndEdge

  /** A callback invocation, with its arguments. */
  datatype Callback =
    | DropRole(template: RoleTemplate, targetMonth: string)
    | MoveEmployee(employeeId: string, newStartMonth: string)
    | ResizeEmployee(employeeId: string, edge: Edge, newMonth: string)
  {
    /** The month the callback is given. */
    function Target(): string {
      match this
      case DropRole(_, t) => t
      case MoveEmployee(_, t) => t
      case ResizeEmployee(_, _, t) => t
    }
  }

  /** Which of the optional callbacks the provider was given. */
  datatype Handlers = Handlers(onDropRole: bool, onMoveEmployee: bool, onResizeEmployee: bool)

  /** Whether the provider has the callback that a payload of this kind calls. */
  predicate HasCallbackFor(handlers: Handlers, data: DragData) {
    match data
    case RoleDrag(_) => handlers.onDropRole
    case EmployeeDrag(_, Move) => handlers.onMoveEmployee
    case EmployeeDrag(_, _) => handlers.onResizeEmployee
  }

  /** A callback is the one for a payload: same role or employee, and the edge its action resizes. */
  predicate CallsFor(c: Callback, data: DragData) {
    match data
    case RoleDrag(t) => c.DropRole? && c.template == t
    case EmployeeDrag(id, Move) => c.MoveEmployee? && c.employeeId == id
    case EmployeeDrag(id, ResizeStart) => c.ResizeEmployee? && c.employeeId == id && c.edge == StartEdge
    case EmployeeDrag(id, ResizeEnd) => c.ResizeEmployee? && c.employeeId == id && c.edge == EndEdge
  }

  /**
   * The dispatch of `handleDragEnd`: nothing without a drop target or a payload; otherwise the
   * callback for the payload's kind, if the provider has it, with the target's id passed through
   * unchecked.
   */
  function Dispatch(data: Option<DragData>, over: Option<string>, handlers: Handlers): (r: Option<Callback>)
    ensures r.Some? <==> over.Some? && data.Some? && HasCallbackFor(handlers, data.value)
    ensures r.Some? ==> CallsFor(r.value, data.value) && r.value.Target() == over.value
  {
    if over.Some? && data.Some? then
      var targetMonth := over.value;
      match data.value
      case RoleDrag(template) =>
        if handlers.onDropRole then Some(DropRole(template, targetMonth)) else None
      case EmployeeDrag(employeeId, action) =>
        if action == Move && handlers.onMoveEmployee then Some(MoveEmployee(employeeId, targetMonth))
        else if (action == ResizeStart || action == ResizeEnd) && handlers.onResizeEmployee then
          var edge := if action == ResizeStart then StartEdge else EndEdge;
          Some(ResizeEmployee(employeeId, edge, targetMonth))
        else None
    else None
  }

  /**
   * The provider's state: the payload being dragged and the id hovered, together with the
   * callbacks fired so far (the provider's effect on the application).
   */
  class DndProvider {
    const handlers: Handlers
    var activeData: Option<DragData>
    var overId: Option<string>
    var fired: seq<Callback>

    constructor(handlers: Handlers)
      ensures this.handlers == handlers && activeData == None && overId == None && fired == []
    {
      this.handlers := handlers;
      activeData := None;
      overId := None;
      fired := [];
    }

    /** `handleDragStart`: keep the payload when the drag has one. */
    method HandleDragStart(data: Option<DragData>)
      modifies this
      ensures activeData == if data.Some? then data else old(activeData)
      ensures overId == old(overId) && fired == old(fired)
    {
      if data.Some? {
        activeData := data;
      }
    }

    /** `handleDragOver`: the hovered id, or none. */
    method HandleDragOver(over: Option<string>)
      modifies this
      ensures overId == over
      ensures activeData == old(activeData) && fired == old(fired)
    {
      overId := over;
    }

    /**
     * `handleDragEnd`: fire at most one callback for the event's payload and target, then clear
     * the payload and the hovered id whatever happened.
     */
    method HandleDragEnd(data: Option<DragData>, over: Option<string>)
      modifies this
      ensures activeData == None && overId == None
      ensures var c := Dispatch(data, over, handlers);
        fired == old(fired) + (if c.Some? then [c.value] else [])
      ensures |fired| <= |old(fired)| + 1
    {
      var c := Dispatch(data, over, handlers);
      if c.Some? {
        fired := fired + [c.value];
      }
      activeData := None;
      overId := None;
    }
  }
}
