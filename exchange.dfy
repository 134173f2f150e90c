/** The browser scripts and the Flask routes together: what a route's answer becomes in the
    script that sent the request, for the requests the board builds. */
module Exchange {

  import opened Common
  import opened Text
  import opened Json
  import opened Board
  import opened TaskEvents
  import Store
  import PersonalTasks
  import Collaboration
  import TaskEdit
  import DragDrop

  /** What `fetch(...).then(res => res.json())` makes of a route's answer: a JSON body parses,
      whatever the status code; a redirect (followed to an HTML page), a rendered template, a
      plain-text body and Flask's error page do not. */
  function ClientView(r: Store.Response): (v: Reply)
    ensures v.Obj? <==> r.JsonReply?
    ensures r.JsonReply? ==> v.fields == r.body
  {
    if r.JsonReply? then Obj(r.body) else NetworkError
  }

  /** The add form's request carries a truthy name whenever the form sends one, so `add_task`
      stores it for the session user, as typed, in the backlog; and the echo it answers with
      builds the card the form asked for: the new id, the name, the date, the time cell and the
      priority class and badge. */
  lemma {:induction false} CreatedCard(node: nat, id: nat, user: string, name: string, pr: string,
                                      date: string, time: string, listId: Js)
    requires name != ""
    ensures var req := AddTaskRequest(name, pr, date, time, false, listId);
            Truthy(Store.Get(req.body, "name"))
            && PersonalTasks.NewTask(user, req.body) == Store.Task(user, Str(name), Str(pr), Str(date), Str(time), "backlog")
            && var c := BuildCard(node, ClientView(Store.JsonReply(200, PersonalTasks.TaskEcho(id, req.body))), false);
               c.Some? && c.value.dataId == Some(Decimal(id)) && c.value.name == name
               && c.value.date == date && c.value.time == TimeCell(time)
               && c.value.prio == PrioOf("task-card " + pr) && c.value.badge == Capitalize(pr)
               && c.value.meta.None?
  {
    var req := AddTaskRequest(name, pr, date, time, false, listId);
    var v := ClientView(Store.JsonReply(200, PersonalTasks.TaskEcho(id, req.body)));
    assert Field(v, "id") == Num(id) && Field(v, "name") == Str(name) && Field(v, "priority") == Str(pr);
    assert Field(v, "date") == Str(date) && Field(v, "time") == Str(time);
  }

  /** On a collaboration page the echo of `add_collab_task` adds the creator, and the card
      shows "Created by: " and the session user. */
  lemma {:induction false} CreatedCollabCard(node: nat, id: nat, user: string, name: string, pr: string,
                                            date: string, time: string, listId: nat)
    requires name != ""
    ensures var req := AddTaskRequest(name, pr, date, time, true, Num(listId));
            req.url == "/add_collab_task/" + Decimal(listId)
            && Collaboration.NewCollabTask(listId, user, req.body)
                 == Store.CollabTask(listId, Str(name), Str(pr), Str(date), Str(time), "backlog", user)
            && var c := BuildCard(node, ClientView(Store.JsonReply(200,
                          PersonalTasks.TaskEcho(id, req.body)["created_by" := Str(user)])), true);
               c.Some? && c.value.dataId == Some(Decimal(id)) && c.value.name == name
               && c.value.meta == Some("Created by: " + user) && c.value.collab
  {
    var req := AddTaskRequest(name, pr, date, time, true, Num(listId));
    var v := ClientView(Store.JsonReply(200, PersonalTasks.TaskEcho(id, req.body)["created_by" := Str(user)]));
    assert Field(v, "id") == Num(id) && Field(v, "name") == Str(name) && Field(v, "priority") == Str(pr);
    assert Field(v, "created_by") == Str(user);
  }

  /** A refused create (401 without a session, 400 for a missing name, 403 for a non-member)
      answers `{error: ...}`, which has no priority: the form builds no card and reads "Error". */
  lemma RefusedCreate(node: nat, code: nat, msg: string, collab: bool)
    ensures ClientView(Store.ErrorReply(code, msg)).Obj?
    ensures BuildCard(node, ClientView(Store.ErrorReply(code, msg)), collab).None?
  {
    assert "priority" !in ClientView(Store.ErrorReply(code, msg)).fields;
  }

  /** The edit modal never sends a null name, so `edit_task` and `edit_collab_task` never fail
      on `name NOT NULL` for its requests; they store the trimmed name, the chosen priority's
      name, the date and the time. The success answer is what the modal's test accepts. */
  lemma ModalEdit(taskId: string, collab: bool, f: TaskEdit.EditFields)
    ensures var body := TaskEdit.EditRequest(taskId, collab, f).body;
            Store.Get(body, "name") == Str(JsTrim(f.name)) && Store.Get(body, "name") != Null
            && Store.Get(body, "priority") == Str(PriorityName(f.priority))
            && Store.Get(body, "date") == Str(f.date) && Store.Get(body, "time") == Str(f.time)
    ensures Succeeded(ClientView(Store.SuccessReply))
  {
  }

  /** A drop on a column whose `data-status` is one of the three is accepted by the status
      routes (the card moves); any other status is refused with `success: false` and the page
      reloads. */
  lemma MoveStatus(taskId: string, status: string, c: Card)
    ensures Store.IsStatus(Store.Get(DragDrop.MoveRequest(taskId, status, c).body, "status")) <==> ValidStatus(status)
    ensures Succeeded(ClientView(Store.SuccessReply))
    ensures !Succeeded(ClientView(Store.InvalidStatus))
  {
  }
}
