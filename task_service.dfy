/** The task business rules: creation with date validation, listing by owner,
    and the owner-only partial update. The repository is the map `tasks` from
    id to entity, with `order` giving the order in which the repository returns
    rows and `nextId` standing for the UUID generator. */
module TaskRules {
  import opened Common
  import opened AppErrors
  import opened TaskMapping

  const StartAfterEndMessage := "Data inicial não pode ser posterior a final."
  const StartEqualsEndMessage := "Data inicial não pode igual a final."
  const TaskNotFoundMessage := "Tarefa não encontrada."
  const NotOwnerMessage := "Usuário não tem permissão para acessar essa Tarefa."

  /** The date rule shared by creation and update: start strictly before end.
      A null date throws when it is compared. */
  function CheckDates(startAt: Option<Time>, endAt: Option<Time>): (r: Option<AppError>)
    ensures r.None? <==> (startAt.Some? && endAt.Some? && startAt.value < endAt.value)
    ensures startAt.Some? && endAt.Some? && startAt.value > endAt.value ==>
              r == Some(BusinessRule(StartAfterEndMessage))
    ensures startAt.Some? && endAt.Some? && startAt.value == endAt.value ==>
              r == Some(BusinessRule(StartEqualsEndMessage))
    ensures startAt.None? || endAt.None? ==> r == Some(Unexpected(NullPointer))
  {
    if startAt.None? || endAt.None? then Some(Unexpected(NullPointer))
    else if startAt.value > endAt.value then Some(BusinessRule(StartAfterEndMessage))
    else if startAt.value == endAt.value then Some(BusinessRule(StartEqualsEndMessage))
    else None
  }

  /** validatesDate: the request's own dates. */
  function ValidatesDate(dto: TaskRequest): (r: Option<AppError>)
    ensures r.None? <==> (dto.startAt.Some? && dto.endAt.Some? && dto.startAt.value < dto.endAt.value)
    ensures r.Some? ==> r.value.BusinessRule? || r.value == Unexpected(NullPointer)
  {
    CheckDates(dto.startAt, dto.endAt)
  }

  /** A supplied value if non-null, else the stored one. */
  function Overlay<T>(supplied: Option<T>, stored: Option<T>): (r: Option<T>)
    ensures supplied.Some? ==> r == supplied
    ensures supplied.None? ==> r == stored
  {
    if supplied.Some? then supplied else stored
  }

  /** validatesDateForUpdate: the dates the task would have after the update. */
  function ValidatesDateForUpdate(task: Task, dto: TaskUpdate): (r: Option<AppError>)
    requires task.startAt.Some? && task.endAt.Some?
    ensures r.None? <==> Overlay(dto.startAt, task.startAt).value < Overlay(dto.endAt, task.endAt).value
    ensures r.Some? ==> r.value.BusinessRule?
    ensures Overlay(dto.startAt, task.startAt).value > Overlay(dto.endAt, task.endAt).value ==>
              r == Some(BusinessRule(StartAfterEndMessage))
    ensures Overlay(dto.startAt, task.startAt).value == Overlay(dto.endAt, task.endAt).value ==>
              r == Some(BusinessRule(StartEqualsEndMessage))
  {
    CheckDates(Overlay(dto.startAt, task.startAt), Overlay(dto.endAt, task.endAt))
  }

  /** What every row of the table satisfies: it is keyed by its own id, has an
      owner and a creation time, and starts strictly before it ends. */
  ghost predicate Stored(id: Uuid, t: Task) {
    && t.id == Some(id)
    && t.userId.Some?
    && t.createdAt.Some?
    && t.startAt.Some? && t.endAt.Some? && t.startAt.value < t.endAt.value
  }

  ghost predicate TableInvariant(tasks: map<Uuid, Task>) {
    forall id :: id in tasks ==> Stored(id, tasks[id])
  }

  /** `order` lists every key of `tasks` exactly once. */
  ghost predicate Indexed(order: seq<Uuid>, tasks: map<Uuid, Task>) {
    && (forall i :: 0 <= i < |order| ==> order[i] in tasks)
    && (forall i, j :: 0 <= i < j < |order| ==> order[i] != order[j])
    && (forall id :: id in tasks ==> id in order)
  }

  /** The update as one function of the stored table: not-found check, owner
      check, date check on the merged values, then the overwrite of the
      non-null fields and the `updatedAt` stamp. */
  function UpdateTask(tasks: map<Uuid, Task>, id: Uuid, dto: TaskUpdate, userId: Uuid, now: Time)
    : (r: Result<Task, AppError>)
    requires TableInvariant(tasks)
    ensures id !in tasks ==> r == Failure(ResourceNotFound(TaskNotFoundMessage))
    // the owner check comes before the date check
    ensures id in tasks && tasks[id].userId != Some(userId) ==>
              r == Failure(UserNotAuthorized(NotOwnerMessage))
    ensures r.Success? <==>
              && id in tasks && tasks[id].userId == Some(userId)
              && Overlay(dto.startAt, tasks[id].startAt).value < Overlay(dto.endAt, tasks[id].endAt).value
    ensures id in tasks && tasks[id].userId == Some(userId) &&
            Overlay(dto.startAt, tasks[id].startAt).value > Overlay(dto.endAt, tasks[id].endAt).value ==>
              r == Failure(BusinessRule(StartAfterEndMessage))
    ensures id in tasks && tasks[id].userId == Some(userId) &&
            Overlay(dto.startAt, tasks[id].startAt).value == Overlay(dto.endAt, tasks[id].endAt).value ==>
              r == Failure(BusinessRule(StartEqualsEndMessage))
    ensures r.Success? ==>
              var stored := tasks[id];
              var t := r.value;
              && Stored(id, t)
              && t.id == stored.id && t.userId == stored.userId && t.createdAt == stored.createdAt
              && t.title == Overlay(dto.title, stored.title)
              && t.description == Overlay(dto.description, stored.description)
              && t.startAt == Overlay(dto.startAt, stored.startAt)
              && t.endAt == Overlay(dto.endAt, stored.endAt)
              && t.priority == Overlay(dto.priority, stored.priority)
              && t.updatedAt == Some(now)
  {
    if id !in tasks then Failure(ResourceNotFound(TaskNotFoundMessage))
    else
      var task := tasks[id];
      if task.userId != Some(userId) then Failure(UserNotAuthorized(NotOwnerMessage))
      else
        match ValidatesDateForUpdate(task, dto)
        case Some(e) => Failure(e)
        case None =>
          Success(task.(title := Overlay(dto.title, task.title),
                        description := Overlay(dto.description, task.description),
                        startAt := Overlay(dto.startAt, task.startAt),
                        endAt := Overlay(dto.endAt, task.endAt),
                        priority := Overlay(dto.priority, task.priority),
                        updatedAt := Some(now)))
  }

  /** The table after an update: the new row on success, the old table otherwise. */
  function ApplyUpdate(tasks: map<Uuid, Task>, id: Uuid, dto: TaskUpdate, userId: Uuid, now: Time)
    : map<Uuid, Task>
    requires TableInvariant(tasks)
  {
    match UpdateTask(tasks, id, dto, userId, now)
    case Success(t) => tasks[id := t]
    case Failure(_) => tasks
  }

  /** The repository query `findByUserId`: the rows of one owner, in repository order. */
  function FindByUserId(order: seq<Uuid>, tasks: map<Uuid, Task>, userId: Uuid): (r: seq<Task>)
    requires forall i :: 0 <= i < |order| ==> order[i] in tasks
    ensures |r| <= |order|
    ensures forall t :: t in r ==> t.userId == Some(userId)
    ensures forall t :: t in r ==> exists i :: 0 <= i < |order| && tasks[order[i]] == t
    ensures forall i :: 0 <= i < |order| && tasks[order[i]].userId == Some(userId) ==> tasks[order[i]] in r
  {
    if order == [] then []
    else
      var rest := FindByUserId(order[1..], tasks, userId);
      assert forall i :: 1 <= i < |order| ==> order[i] == order[1..][i - 1];
      if tasks[order[0]].userId == Some(userId) then [tasks[order[0]]] + rest else rest
  }

  /** Every row appears once: the rows of one owner carry pairwise distinct ids. */
  lemma {:induction false} FindByUserIdDistinct(order: seq<Uuid>, tasks: map<Uuid, Task>, userId: Uuid)
    requires forall i :: 0 <= i < |order| ==> order[i] in tasks && tasks[order[i]].id == Some(order[i])
    requires forall i, j :: 0 <= i < j < |order| ==> order[i] != order[j]
    ensures forall i, j :: 0 <= i < j < |FindByUserId(order, tasks, userId)| ==>
              FindByUserId(order, tasks, userId)[i].id != FindByUserId(order, tasks, userId)[j].id
  {
    if order != [] {
      var tail := order[1..];
      assert forall i :: 0 <= i < |tail| ==> tail[i] == order[i + 1];
      FindByUserIdDistinct(tail, tasks, userId);
      var rest := FindByUserId(tail, tasks, userId);
      assert forall i, j :: 0 <= i < j < |rest| ==> rest[i].id != rest[j].id;
      forall t | t in rest ensures t.id != Some(order[0]) {
        var i :| 0 <= i < |tail| && tasks[tail[i]] == t;
      }
      var r := FindByUserId(order, tasks, userId);
      if tasks[order[0]].userId == Some(userId) {
        assert r == [tasks[order[0]]] + rest;
        forall i, j | 0 <= i < j < |r| ensures r[i].id != r[j].id {
          if i == 0 { assert r[j] == rest[j - 1] && r[j] in rest; }
          else { assert r[i] == rest[i - 1] && r[j] == rest[j - 1]; }
        }
      } else {
        assert r == rest;
      }
    }
  }

  /** `x` and `y` are the rows at two positions of `order`, `x` at the earlier one. */
  ghost predicate Precedes(order: seq<Uuid>, tasks: map<Uuid, Task>, x: Task, y: Task)
    requires forall i :: 0 <= i < |order| ==> order[i] in tasks
  {
    exists a, b :: 0 <= a < b < |order| && tasks[order[a]] == x && tasks[order[b]] == y
  }

  /** The rows come back in repository order: of two rows of the result, the
      earlier one sits earlier in `order`. */
  lemma {:induction false} FindByUserIdOrdered(order: seq<Uuid>, tasks: map<Uuid, Task>, userId: Uuid)
    requires forall i :: 0 <= i < |order| ==> order[i] in tasks
    ensures forall i, j :: 0 <= i < j < |FindByUserId(order, tasks, userId)| ==>
              Precedes(order, tasks, FindByUserId(order, tasks, userId)[i], FindByUserId(order, tasks, userId)[j])
  {
    if order != [] {
      var tail := order[1..];
      assert forall i :: 0 <= i < |tail| ==> tail[i] == order[i + 1];
      FindByUserIdOrdered(tail, tasks, userId);
      var rest := FindByUserId(tail, tasks, userId);
      var r := FindByUserId(order, tasks, userId);
      var head := tasks[order[0]].userId == Some(userId);
      assert r == if head then [tasks[order[0]]] + rest else rest;
      forall i, j | 0 <= i < j < |r| ensures Precedes(order, tasks, r[i], r[j]) {
        if head && i == 0 {
          assert r[j] == rest[j - 1] && r[j] in rest;
          var b :| 0 <= b < |tail| && tasks[tail[b]] == r[j];
          assert tasks[order[0]] == r[i] && tasks[order[b + 1]] == r[j];
        } else {
          var i', j' := if head then i - 1 else i, if head then j - 1 else j;
          assert r[i] == rest[i'] && r[j] == rest[j'];
          assert Precedes(tail, tasks, rest[i'], rest[j']);
          var a, b :| 0 <= a < b < |tail| && tasks[tail[a]] == rest[i'] && tasks[tail[b]] == rest[j'];
          assert tasks[order[a + 1]] == r[i] && tasks[order[b + 1]] == r[j];
        }
      }
    }
  }

  /** `x` and `y` are the responses of the rows at two positions of `order`,
      `x` at the earlier one. */
  ghost predicate RespondsInOrder(order: seq<Uuid>, tasks: map<Uuid, Task>, x: TaskResponse, y: TaskResponse)
    requires forall i :: 0 <= i < |order| ==> order[i] in tasks
  {
    exists a, b :: 0 <= a < b < |order| && Respond(tasks[order[a]]) == x && Respond(tasks[order[b]]) == y
  }

  /** The stream that maps each row to its response. */
  function Responses(rows: seq<Task>): (r: seq<TaskResponse>)
    ensures |r| == |rows|
    ensures forall i :: 0 <= i < |rows| ==> r[i] == Respond(rows[i])
    ensures forall t :: t in rows ==> Respond(t) in r
    ensures forall x :: x in r ==> exists t :: t in rows && x == Respond(t)
  {
    seq(|rows|, i requires 0 <= i < |rows| => Respond(rows[i]))
  }

  /** The listed responses keep repository order. */
  lemma ListOrdered(order: seq<Uuid>, tasks: map<Uuid, Task>, userId: Uuid)
    requires forall i :: 0 <= i < |order| ==> order[i] in tasks
    ensures forall i, j :: 0 <= i < j < |Responses(FindByUserId(order, tasks, userId))| ==>
              RespondsInOrder(order, tasks, Responses(FindByUserId(order, tasks, userId))[i],
                              Responses(FindByUserId(order, tasks, userId))[j])
  {
    var rows := FindByUserId(order, tasks, userId);
    var r := Responses(rows);
    FindByUserIdOrdered(order, tasks, userId);
    forall i, j | 0 <= i < j < |r| ensures RespondsInOrder(order, tasks, r[i], r[j]) {
      assert Precedes(order, tasks, rows[i], rows[j]);
      var a, b :| 0 <= a < b < |order| && tasks[order[a]] == rows[i] && tasks[order[b]] == rows[j];
      assert Respond(tasks[order[a]]) == r[i] && Respond(tasks[order[b]]) == r[j];
    }
  }

  /** Inserting a new row at the end of the repository order appends it to
      its owner's rows and leaves every other owner's rows as they were. */
  lemma {:induction false} FindByUserIdInsert(order: seq<Uuid>, tasks: map<Uuid, Task>, id: Uuid, t: Task, userId: Uuid)
    requires forall i :: 0 <= i < |order| ==> order[i] in tasks
    requires id !in tasks
    ensures FindByUserId(order + [id], tasks[id := t], userId)
            == FindByUserId(order, tasks, userId) + (if t.userId == Some(userId) then [t] else [])
  {
    if order == [] {
      assert order + [id] == [id];
    } else {
      assert (order + [id])[1..] == order[1..] + [id];
      FindByUserIdInsert(order[1..], tasks, id, t, userId);
    }
  }

  class TaskService {
    var tasks: map<Uuid, Task>
    var order: seq<Uuid>
    var nextId: Uuid

    ghost predicate Valid()
      reads this
    {
      && TableInvariant(tasks)
      && Indexed(order, tasks)
      && (forall id :: id in tasks ==> id < nextId)
    }

    constructor ()
      ensures Valid() && tasks == map[] && order == []
    {
      tasks, order, nextId := map[], [], 0;
    }

    /** `list`: one response per row owned by `userId`, in repository order. */
    function List(userId: Uuid): (r: seq<TaskResponse>)
      reads this
      requires Valid()
      ensures forall x :: x in r ==> x.userId == Some(userId)
      ensures forall id :: id in tasks && tasks[id].userId == Some(userId) ==> Respond(tasks[id]) in r
      ensures forall x :: x in r ==> exists id :: id in tasks && x == Respond(tasks[id])
      ensures forall i, j :: 0 <= i < j < |r| ==> r[i].id != r[j].id
      ensures forall i, j :: 0 <= i < j < |r| ==> RespondsInOrder(order, tasks, r[i], r[j])
    {
      ListSound(order, tasks, userId);
      ListOrdered(order, tasks, userId);
      Responses(FindByUserId(order, tasks, userId))
    }

    /** `repository.save` of a new entity: generates the id and stamps the
        creation time. */
    method Insert(entity: Task, now: Time) returns (saved: Task)
      requires Valid()
      requires entity.userId.Some? && entity.startAt.Some? && entity.endAt.Some?
      requires entity.startAt.value < entity.endAt.value
      modifies this
      ensures Valid()
      ensures saved == entity.(id := Some(old(nextId)), createdAt := Some(now))
      ensures old(nextId) !in old(tasks)
      ensures tasks == old(tasks)[old(nextId) := saved] && order == old(order) + [old(nextId)]
    {
      saved := entity.(id := Some(nextId), createdAt := Some(now));
      tasks := tasks[nextId := saved];
      order := order + [nextId];
      nextId := nextId + 1;
    }

    /** `create`: validate the dates, bind the task to the caller, save it. */
    method Create(dto: TaskRequest, userId: Uuid, now: Time) returns (r: Result<TaskResponse, AppError>)
      requires Valid()
      modifies this
      ensures Valid()
      ensures ValidatesDate(dto).Some? ==>
                r == Failure(ValidatesDate(dto).value) &&
                tasks == old(tasks) && order == old(order) && nextId == old(nextId)
      ensures ValidatesDate(dto).None? ==>
                var t := Task(Some(old(nextId)), Some(userId), dto.title, dto.description,
                              dto.startAt, dto.endAt, dto.priority, Some(now), None);
                && old(nextId) !in old(tasks)
                && tasks == old(tasks)[old(nextId) := t]
                && order == old(order) + [old(nextId)]
                && r == Success(Respond(t))
      // the new task is the last of its owner's list; every other list is unchanged
      ensures forall u :: List(u) == old(List(u)) + (if r.Success? && u == userId then [r.value] else [])
    {
      var invalid := ValidatesDate(dto);
      if invalid.Some? {
        return Failure(invalid.value);
      }
      var entity := ToEntity(Some(dto)).value;
      entity := entity.(userId := Some(userId));
      ghost var oldTasks, oldOrder := tasks, order;
      var saved := Insert(entity, now);
      r := Success(ToResponse(Some(saved)).value);
      forall u ensures FindByUserId(order, tasks, u)
                       == FindByUserId(oldOrder, oldTasks, u) + (if u == userId then [saved] else []) {
        FindByUserIdInsert(oldOrder, oldTasks, saved.id.value, saved, u);
      }
    }

    /** `update`: the four steps of UpdateTask, applied to the loaded entity
        one setter at a time, then saved. */
    method Update(id: Uuid, dto: TaskUpdate, userId: Uuid, now: Time) returns (r: Result<TaskResponse, AppError>)
      requires Valid()
      modifies this
      ensures Valid()
      ensures order == old(order) && nextId == old(nextId)
      ensures tasks == ApplyUpdate(old(tasks), id, dto, userId, now)
      ensures match UpdateTask(old(tasks), id, dto, userId, now)
              case Success(t) => r == Success(Respond(t))
              case Failure(e) => r == Failure(e)
    {
      if id !in tasks {
        return Failure(ResourceNotFound(TaskNotFoundMessage));
      }
      var task := tasks[id];
      if task.userId != Some(userId) {
        return Failure(UserNotAuthorized(NotOwnerMessage));
      }
      var invalid := ValidatesDateForUpdate(task, dto);
      if invalid.Some? {
        return Failure(invalid.value);
      }
      if dto.title.Some? { task := task.(title := dto.title); }
      if dto.description.Some? { task := task.(description := dto.description); }
      if dto.startAt.Some? { task := task.(startAt := dto.startAt); }
      if dto.endAt.Some? { task := task.(endAt := dto.endAt); }
      if dto.priority.Some? { task := task.(priority := dto.priority); }
      task := task.(updatedAt := Some(now));
      tasks := tasks[id := task];
      r := Success(ToResponse(Some(task)).value);
    }
  }

  /** The facts behind the contract of TaskService.List. */
  lemma ListSound(order: seq<Uuid>, tasks: map<Uuid, Task>, userId: Uuid)
    requires TableInvariant(tasks) && Indexed(order, tasks)
    ensures var r := Responses(FindByUserId(order, tasks, userId));
            && (forall x :: x in r ==> x.userId == Some(userId))
            && (forall id :: id in tasks && tasks[id].userId == Some(userId) ==> Respond(tasks[id]) in r)
            && (forall x :: x in r ==> exists id :: id in tasks && x == Respond(tasks[id]))
            && (forall i, j :: 0 <= i < j < |r| ==> r[i].id != r[j].id)
  {
    var rows := FindByUserId(order, tasks, userId);
    var r := Responses(rows);
    FindByUserIdDistinct(order, tasks, userId);
    forall id | id in tasks && tasks[id].userId == Some(userId) ensures Respond(tasks[id]) in r {
      var i :| 0 <= i < |order| && order[i] == id;
    }
    forall x | x in r ensures exists id :: id in tasks && x == Respond(tasks[id]) {
      var t :| t in rows && x == Respond(t);
      var i :| 0 <= i < |order| && tasks[order[i]] == t;
    }
  }

  /** Every update, accepted or rejected, keeps the table invariant: rows stay
      keyed by their id, keep their owner, and start before they end. */
  lemma UpdateKeepsTableInvariant(tasks: map<Uuid, Task>, id: Uuid, dto: TaskUpdate, userId: Uuid, now: Time)
    requires TableInvariant(tasks)
    ensures var after := ApplyUpdate(tasks, id, dto, userId, now);
            && TableInvariant(after)
            && after.Keys == tasks.Keys
            && forall k :: k in tasks ==> after[k].userId == tasks[k].userId && after[k].createdAt == tasks[k].createdAt
  {
  }

  /** A rejected update leaves the table exactly as it was. */
  lemma RejectedUpdateChangesNothing(tasks: map<Uuid, Task>, id: Uuid, dto: TaskUpdate, userId: Uuid, now: Time)
    requires TableInvariant(tasks)
    requires UpdateTask(tasks, id, dto, userId, now).Failure?
    ensures ApplyUpdate(tasks, id, dto, userId, now) == tasks
  {
  }

  /** An update that supplies nothing only stamps `updatedAt`. */
  lemma EmptyUpdateOnlyStamps(tasks: map<Uuid, Task>, id: Uuid, userId: Uuid, now: Time)
    requires TableInvariant(tasks)
    requires id in tasks && tasks[id].userId == Some(userId)
    ensures UpdateTask(tasks, id, TaskUpdate(None, None, None, None, None), userId, now)
            == Success(tasks[id].(updatedAt := Some(now)))
  {
  }

  /** Repeating an accepted update later changes nothing but the stamp. */
  lemma UpdateIdempotent(tasks: map<Uuid, Task>, id: Uuid, dto: TaskUpdate, userId: Uuid, now: Time, later: Time)
    requires TableInvariant(tasks)
    requires UpdateTask(tasks, id, dto, userId, now).Success?
    ensures var t := UpdateTask(tasks, id, dto, userId, now).value;
            TableInvariant(tasks[id := t]) &&
            UpdateTask(tasks[id := t], id, dto, userId, later) == Success(t.(updatedAt := Some(later)))
  {
    UpdateKeepsTableInvariant(tasks, id, dto, userId, now);
  }
}
