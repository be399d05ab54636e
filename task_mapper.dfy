/** The task entity, its request/response records, and the mapper between them. */
module TaskMapping {
  import opened Common

  datatype Priority = Low | Medium | High | Urgent

  /** The `tb_task` entity. Every field is a nullable reference, as in Java.
      `updatedAt` is used by the service and the mapper. */
  datatype Task = Task(
    id: Option<Uuid>,
    userId: Option<Uuid>,
    title: Option<string>,
    description: Option<string>,
    startAt: Option<Time>,
    endAt: Option<Time>,
    priority: Option<Priority>,
    createdAt: Option<Time>,
    updatedAt: Option<Time>)

  /** TaskRequestDTO: the body of a creation request (no constraints). */
  datatype TaskRequest = TaskRequest(
    title: Option<string>,
    description: Option<string>,
    startAt: Option<Time>,
    endAt: Option<Time>,
    priority: Option<Priority>)

  /** TaskUpdateDTO: the body of a partial update; a null field means "keep
      the stored value". Its Bean Validation annotations are not part of this model. */
  datatype TaskUpdate = TaskUpdate(
    title: Option<string>,
    description: Option<string>,
    startAt: Option<Time>,
    endAt: Option<Time>,
    priority: Option<Priority>)

  /** TaskResponseDTO: everything the client sees of a task. */
  datatype TaskResponse = TaskResponse(
    id: Option<Uuid>,
    title: Option<string>,
    description: Option<string>,
    startAt: Option<Time>,
    endAt: Option<Time>,
    priority: Option<Priority>,
    userId: Option<Uuid>,
    createdAt: Option<Time>,
    updatedAt: Option<Time>)

  /** The response of a non-null task. */
  function Respond(task: Task): (r: TaskResponse)
    ensures r.id == task.id && r.userId == task.userId
    ensures r.title == task.title && r.description == task.description
    ensures r.startAt == task.startAt && r.endAt == task.endAt && r.priority == task.priority
    ensures r.createdAt == task.createdAt && r.updatedAt == task.updatedAt
  {
    TaskResponse(task.id, task.title, task.description, task.startAt, task.endAt,
                 task.priority, task.userId, task.createdAt, task.updatedAt)
  }

  /** TaskMapper.toResponse: null for null, otherwise all nine fields copied. */
  function ToResponse(task: Option<Task>): (r: Option<TaskResponse>)
    ensures r.None? <==> task.None?
    ensures task.Some? ==> r == Some(Respond(task.value))
  {
    match task
    case None => None
    case Some(t) => Some(Respond(t))
  }

  /** TaskMapper.toEntity: null for null, otherwise a fresh entity holding the
      five request fields; id, owner and both timestamps stay unset. */
  function ToEntity(dto: Option<TaskRequest>): (r: Option<Task>)
    ensures r.None? <==> dto.None?
    ensures dto.Some? ==>
              var t := r.value;
              t.title == dto.value.title && t.description == dto.value.description &&
              t.startAt == dto.value.startAt && t.endAt == dto.value.endAt &&
              t.priority == dto.value.priority &&
              t.id.None? && t.userId.None? && t.createdAt.None? && t.updatedAt.None?
  {
    match dto
    case None => None
    case Some(d) => Some(Task(None, None, d.title, d.description, d.startAt, d.endAt, d.priority, None, None))
  }

  /** Mapping a request to an entity and straight back to a response keeps the
      five request fields and yields no id, owner or timestamps. */
  lemma RequestRoundTrip(dto: TaskRequest)
    ensures ToResponse(ToEntity(Some(dto))).Some?
    ensures var resp := ToResponse(ToEntity(Some(dto))).value;
            resp.title == dto.title && resp.description == dto.description &&
            resp.startAt == dto.startAt && resp.endAt == dto.endAt && resp.priority == dto.priority &&
            resp.id.None? && resp.userId.None? && resp.createdAt.None? && resp.updatedAt.None?
  {
  }

  /** The response determines the task: distinct tasks never share a response. */
  lemma RespondInjective(a: Task, b: Task)
    requires Respond(a) == Respond(b)
    ensures a == b
  {
  }
}
