/** Adding a task from the form at the top of the board (static/taskCreation.js). */
module TaskCreation {

  import opened Common
  import opened Text
  import opened Json
  import opened Board
  import opened TaskEvents

  /** The label of the add button: "Add Task", "Adding...", "Added!" or "Error". */
  datatype Label = AddTask | Adding | Added | Failed

  /** The selectors tried, in order, for the container a new card goes into. */
  function Fallbacks(collab: bool): seq<Sel> {
    if collab then [BacklogDropZoneSel, BacklogAttrSel, BacklogColumnSel, DropZoneSel]
    else [TaskCardIdSel, NotYetStartedSel, DropZoneSel, TaskContainerSel]
  }

  /** `querySelector(a) || querySelector(b) || ...`: the first container matching the first
      selector that matches any. */
  function FirstOf(zs: seq<Zone>, sels: seq<Sel>): (r: Option<nat>)
    ensures r.Some? ==> r.value < |zs|
    ensures r.None? <==> forall k :: 0 <= k < |sels| ==> FirstZone(zs, sels[k]).None?
    ensures r.Some? ==> exists k :: 0 <= k < |sels| && FirstZone(zs, sels[k]) == r
                                    && forall j :: 0 <= j < k ==> FirstZone(zs, sels[j]).None?
  {
    if sels == [] then None
    else if FirstZone(zs, sels[0]).Some? then FirstZone(zs, sels[0])
    else
      var r := FirstOf(zs, sels[1..]);
      assert forall k :: 1 <= k < |sels| ==> sels[k] == sels[1..][k - 1];
      r
  }

  /** The container a new card goes into is one that matches a fallback selector, and the
      first one matching the most preferred selector that any container matches. */
  lemma TargetIsPreferred(zs: seq<Zone>, sels: seq<Sel>, k: nat)
    requires k < |sels| && FirstZone(zs, sels[k]).Some?
    requires forall j :: 0 <= j < k ==> FirstZone(zs, sels[j]).None?
    ensures FirstOf(zs, sels) == FirstZone(zs, sels[k])
  {
    var r := FirstOf(zs, sels);
    assert r.Some?;
    var k' :| 0 <= k' < |sels| && FirstZone(zs, sels[k']) == r
               && forall j :: 0 <= j < k' ==> FirstZone(zs, sels[j]).None?;
    assert k' == k;
  }

  /** No container is found exactly when no container matches any of the selectors. */
  lemma NoTarget(zs: seq<Zone>, sels: seq<Sel>)
    ensures FirstOf(zs, sels).None? <==>
              forall k, i :: 0 <= k < |sels| && 0 <= i < |zs| ==> sels[k] !in zs[i].sels
  {
    if FirstOf(zs, sels).None? {
      forall k, i | 0 <= k < |sels| && 0 <= i < |zs| ensures sels[k] !in zs[i].sels {
        assert FirstZone(zs, sels[k]).None?;
      }
    } else {
      var k :| 0 <= k < |sels| && FirstZone(zs, sels[k]) == FirstOf(zs, sels);
      assert sels[k] in zs[FirstZone(zs, sels[k]).value].sels;
    }
  }

  /** The add form: the values of `#task-input`, `#priority-select`, `#date-input` and
      `#time-input`, the button's label and `loading` class, the input's shake animation and
      focus, and how many 2000 ms label resets are pending. */
  class AddTaskForm {
    var task: string
    var priority: string
    var date: string
    var time: string
    var button: Label
    var loading: bool
    var shaking: bool
    var focused: bool
    var resets: nat

    constructor (priority0: string, date0: string)
      ensures task == "" && priority == priority0 && date == date0 && time == ""
      ensures button == AddTask && !loading && !shaking && !focused && resets == 0
    {
      task, priority, date, time := "", priority0, date0, "";
      button, loading, shaking, focused, resets := AddTask, false, false, false, 0;
    }

    /** The four input values, in the order the request sends them. */
    function Values(): seq<string>
      reads this
    {
      [task, priority, date, time]
    }

    /** The pending 2000 ms timer: the button reads "Add Task" again and loses `loading`. */
    method ResetLabel()
      requires resets > 0
      modifies this
      ensures button == AddTask && !loading && resets == old(resets) - 1
      ensures Values() == old(Values()) && shaking == old(shaking) && focused == old(focused)
    {
      button, loading, resets := AddTask, false, resets - 1;
    }

    /** The 500 ms timer that ends the shake animation. */
    method StopShake()
      modifies this`shaking
      ensures !shaking
    {
      shaking := false;
    }

    /** Escape while the task input has the focus empties it and blurs it; elsewhere it does
        nothing. */
    method Escape()
      modifies this`task, this`focused
      ensures old(focused) ==> task == "" && !focused
      ensures !old(focused) ==> task == old(task) && focused == old(focused)
    {
      if focused {
        task, focused := "", false;
      }
    }

    /** Typing into the form. */
    method Type(task': string, priority': string, date': string, time': string)
      modifies this`task, this`priority, this`date, this`time
      ensures Values() == [task', priority', date', time']
    {
      task, priority, date, time := task', priority', date', time';
    }
  }

  /** Where a new card goes: into the first container of the fallback chain, after that
      container's placeholder is removed, or into `document.body` when there is none. */
  method PlaceNewCard(p: Page, c: Card)
    requires p.Valid() && c.node < p.nextNode && Occ(p.zones, p.body, c.node) == 0
    modifies p`zones, p`body
    ensures p.Valid() && Occ(p.zones, p.body, c.node) == 1
    ensures var target := FirstOf(old(p.zones), Fallbacks(p.loadCollab));
            (target.None? ==> p.zones == old(p.zones) && p.body == old(p.body) + [c])
            && (target.Some? ==>
                  p.body == old(p.body)
                  && p.zones == old(p.zones)[target.value := old(p.zones[target.value]).(
                       placeholder := false, cards := old(p.zones[target.value].cards) + [c])])
  {
    var target := FirstOf(p.zones, Fallbacks(p.loadCollab));
    if target.Some? {
      PlaceInZone(p, target.value, c);
    } else {
      DetachAbsent(p.zones, p.body, c.node);
      p.AppendToBody(c);
    }
  }

  /** The new card goes last into zone `t`, whose placeholder is removed first. */
  method PlaceInZone(p: Page, t: nat, c: Card)
    requires p.Valid() && t < |p.zones| && c.node < p.nextNode && Occ(p.zones, p.body, c.node) == 0
    modifies p`zones, p`body
    ensures p.Valid() && Occ(p.zones, p.body, c.node) == 1 && p.body == old(p.body)
    ensures p.zones == old(p.zones)[t := old(p.zones[t]).(placeholder := false, cards := old(p.zones[t].cards) + [c])]
  {
    if p.zones[t].placeholder {
      p.ClearPlaceholder(t);
    }
    DetachAbsent(p.zones, p.body, c.node);
    p.AppendToZone(t, c);
  }

  /** The reply to a create request: a failed request, or a reply without a string `priority`
      (building the card throws inside the same promise chain), leaves the button reading
      "Error" and the inputs as they were; any other reply becomes a new card placed by
      `PlaceNewCard`, the button reads "Added!" and the name and time inputs are emptied.
      Either way a label reset is scheduled. */
  method Receive(p: Page, f: AddTaskForm, reply: Reply)
    requires p.Valid()
    modifies p`zones, p`body, p`nextNode, f`button, f`task, f`time, f`resets
    ensures p.Valid() && f.resets == old(f.resets) + 1
    ensures reply.NetworkError? ==>
              f.button == Failed && f.Values() == old(f.Values())
              && p.zones == old(p.zones) && p.body == old(p.body) && p.nextNode == old(p.nextNode)
    ensures reply.Obj? ==>
              p.nextNode == old(p.nextNode) + 1
              && var built := BuildCard(old(p.nextNode), reply, old(p.IsCollaboration()));
                 var target := FirstOf(old(p.zones), Fallbacks(p.loadCollab));
                 (built.None? ==>
                    f.button == Failed && f.Values() == old(f.Values())
                    && p.zones == old(p.zones) && p.body == old(p.body))
                 && (built.Some? ==>
                    f.button == Added && f.Values() == ["", old(f.priority), old(f.date), ""]
                    && Occ(p.zones, p.body, built.value.node) == 1
                    && (target.None? ==> p.zones == old(p.zones) && p.body == old(p.body) + [built.value])
                    && (target.Some? ==>
                          p.body == old(p.body)
                          && p.zones == old(p.zones)[target.value := old(p.zones[target.value]).(
                               placeholder := false, cards := old(p.zones[target.value].cards) + [built.value])]))
  {
    f.resets := f.resets + 1;
    if reply.NetworkError? {
      f.button := Failed;
      return;
    }
    f.button := Added;
    var built := CreateTaskElement(p, reply);
    if built.None? {
      f.button := Failed;
      return;
    }
    PlaceNewCard(p, built.value);
    f.task, f.time := "", "";
  }

  /** A click on the add button (or Enter in the task input, or Ctrl/Cmd+Enter). A blank name
      shakes and focuses the input and sends nothing; otherwise the button gets the `loading`
      class and reads "Adding...", and the create request is sent, with the trimmed name. Its
      reply is handled by `Receive`. */
  method HandleAddTask(p: Page, f: AddTaskForm) returns (req: Option<Request>)
    modifies f`button, f`loading, f`shaking, f`focused
    ensures f.task == old(f.task) && f.priority == old(f.priority) && f.date == old(f.date) && f.time == old(f.time)
    ensures f.resets == old(f.resets)
    ensures JsTrim(f.task) == "" ==>
              req.None? && f.shaking && f.focused && f.button == old(f.button) && f.loading == old(f.loading)
    ensures JsTrim(f.task) != "" ==>
              req == Some(AddTaskRequest(JsTrim(f.task), f.priority, f.date, f.time, p.loadCollab, p.ListId()))
              && f.loading && f.button == Adding && f.shaking == old(f.shaking) && f.focused == old(f.focused)
  {
    if JsTrim(f.task) == "" {
      f.shaking, f.focused := true, true;
      return None;
    }
    f.loading, f.button := true, Adding;
    req := Some(AddTaskRequest(JsTrim(f.task), f.priority, f.date, f.time, p.loadCollab, p.ListId()));
  }
}
