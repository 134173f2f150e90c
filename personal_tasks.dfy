/** The personal board's routes (personal_tasks.py): the profile page's three status columns
    and the four JSON routes the board scripts call. */
module PersonalTasks {

  import opened Common
  import opened Json
  import opened Store

  /** `if username:` on the profile page: with a logged-in, non-empty username only that user's
      tasks are listed; otherwise every task is. */
  predicate Shown(t: Task, user: Option<string>) {
    user.None? || user.value == "" || t.username == user.value
  }

  /** The three lists the profile template receives. */
  datatype ProfileLists = ProfileLists(backlog: map<nat, Task>, inProgress: map<nat, Task>,
                                       completed: map<nat, Task>)

  /** `SELECT * FROM tasks WHERE [username=? AND] status=?`. */
  function Column(t: map<nat, Task>, user: Option<string>, status: string): map<nat, Task> {
    map id | id in t && Shown(t[id], user) && t[id].status == status :: t[id]
  }

  function Profile(t: map<nat, Task>, user: Option<string>): ProfileLists {
    ProfileLists(Column(t, user, "backlog"), Column(t, user, "in-progress"), Column(t, user, "completed"))
  }

  /** Every shown task is listed in exactly one column, unchanged, and nothing else is listed:
      the three columns partition the shown tasks because every row's status is one of the
      three. */
  lemma ProfilePartition(t: map<nat, Task>, user: Option<string>)
    requires TasksOk(t)
    ensures var p := Profile(t, user);
            (forall id :: (id in t && Shown(t[id], user)) <==>
                          (id in p.backlog || id in p.inProgress || id in p.completed))
            && p.backlog.Keys !! p.inProgress.Keys && p.backlog.Keys !! p.completed.Keys
            && p.inProgress.Keys !! p.completed.Keys
            && (forall id :: id in p.backlog ==> p.backlog[id] == t[id] && t[id].status == "backlog")
            && (forall id :: id in p.inProgress ==> p.inProgress[id] == t[id] && t[id].status == "in-progress")
            && (forall id :: id in p.completed ==> p.completed[id] == t[id] && t[id].status == "completed")
  {
    var p := Profile(t, user);
    forall id | id in t && Shown(t[id], user)
      ensures id in p.backlog || id in p.inProgress || id in p.completed
    {
      assert ValidStatus(t[id].status);
    }
  }

  /** The body `add_task` and `add_collab_task` echo: the new id and the four fields as sent. */
  function TaskEcho(id: nat, data: map<string, Js>): (body: map<string, Js>)
    ensures body.Keys == {"id", "name", "priority", "date", "time"} && body["id"] == Num(id)
    ensures forall k :: k in body && k != "id" ==> body[k] == Get(data, k)
  {
    map["id" := Num(id), "name" := Get(data, "name"), "priority" := Get(data, "priority"),
        "date" := Get(data, "date"), "time" := Get(data, "time")]
  }

  /** The row `add_task` inserts: the session user's, in the default status. */
  function NewTask(user: string, data: map<string, Js>): (t: Task)
    ensures t.username == user && t.status == "backlog"
    ensures t.name == Get(data, "name") && t.priority == Get(data, "priority")
    ensures t.date == Get(data, "date") && t.time == Get(data, "time")
  {
    Task(user, Get(data, "name"), Get(data, "priority"), Get(data, "date"), Get(data, "time"), "backlog")
  }

  /** `POST /add_task`: 401 without a session user, 400 for a falsy name; otherwise one row is
      inserted under the next id, for the session user, and echoed. */
  method AddTask(s: Store, sess: Session, data: map<string, Js>) returns (r: Response)
    requires s.Valid()
    modifies s`tasks, s`nextTask
    ensures s.Valid()
    ensures sess.user.None? ==> r == NotLoggedIn && s.tasks == old(s.tasks) && s.nextTask == old(s.nextTask)
    ensures sess.user.Some? && !Truthy(Get(data, "name")) ==>
              r == ErrorReply(400, "Task name required") && s.tasks == old(s.tasks) && s.nextTask == old(s.nextTask)
    ensures sess.user.Some? && Truthy(Get(data, "name")) ==>
              old(s.nextTask) !in old(s.tasks) && s.nextTask == old(s.nextTask) + 1
              && s.tasks == old(s.tasks)[old(s.nextTask) := NewTask(sess.user.value, data)]
              && r == JsonReply(200, TaskEcho(old(s.nextTask), data))
  {
    if sess.user.None? {
      return NotLoggedIn;
    }
    if !Truthy(Get(data, "name")) {
      return ErrorReply(400, "Task name required");
    }
    var id := s.nextTask;
    s.tasks := s.tasks[id := NewTask(sess.user.value, data)];
    s.nextTask := id + 1;
    r := JsonReply(200, TaskEcho(id, data));
  }

  /** `PUT /edit_task/<id>`, with no session or ownership check: the row's name, priority, date
      and time are overwritten and its owner and status kept. A null name on an existing row
      breaks `name NOT NULL`, and the uncaught error becomes a 500 with nothing changed; a
      missing row is a successful no-op. */
  method EditTask(s: Store, taskId: nat, data: map<string, Js>) returns (r: Response)
    requires s.Valid()
    modifies s`tasks
    ensures s.Valid()
    ensures taskId in old(s.tasks) && Get(data, "name") == Null ==> r == Crash && s.tasks == old(s.tasks)
    ensures taskId !in old(s.tasks) ==> r == SuccessReply && s.tasks == old(s.tasks)
    ensures taskId in old(s.tasks) && Get(data, "name") != Null ==>
              r == SuccessReply
              && s.tasks == old(s.tasks)[taskId := old(s.tasks[taskId]).(
                   name := Get(data, "name"), priority := Get(data, "priority"),
                   date := Get(data, "date"), time := Get(data, "time"))]
  {
    if taskId in s.tasks {
      if Get(data, "name") == Null {
        return Crash;
      }
      s.tasks := s.tasks[taskId := s.tasks[taskId].(
                   name := Get(data, "name"), priority := Get(data, "priority"),
                   date := Get(data, "date"), time := Get(data, "time"))];
    }
    r := SuccessReply;
  }

  /** `DELETE /delete_task/<id>`: the row goes if it is there, and the reply is a success either
      way. */
  method DeleteTask(s: Store, taskId: nat) returns (r: Response)
    requires s.Valid()
    modifies s`tasks
    ensures s.Valid()
    ensures r == SuccessReply && s.tasks == old(s.tasks) - {taskId}
  {
    s.tasks := s.tasks - {taskId};
    r := SuccessReply;
  }

  /** `PUT /update_task_status/<id>`: any status other than the three is refused with
      `success: false`; a valid one replaces the row's status and nothing else. */
  method UpdateTaskStatus(s: Store, taskId: nat, data: map<string, Js>) returns (r: Response)
    requires s.Valid()
    modifies s`tasks
    ensures s.Valid()
    ensures !IsStatus(Get(data, "status")) ==> r == InvalidStatus && s.tasks == old(s.tasks)
    ensures IsStatus(Get(data, "status")) ==>
              r == SuccessReply
              && (taskId in old(s.tasks) ==>
                    s.tasks == old(s.tasks)[taskId := old(s.tasks[taskId]).(status := Get(data, "status").s)])
              && (taskId !in old(s.tasks) ==> s.tasks == old(s.tasks))
  {
    var status := Get(data, "status");
    if !IsStatus(status) {
      return InvalidStatus;
    }
    if taskId in s.tasks {
      s.tasks := s.tasks[taskId := s.tasks[taskId].(status := status.s)];
    }
    r := SuccessReply;
  }
}
