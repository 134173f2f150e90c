/** Deleting a card with a five-second chance to undo (static/taskDeletion.js). The deletion
    request and its reply form one step; so do the Undo click, its request and the reply. */
module TaskDeletion {

  import opened Common
  import opened Text
  import opened Json
  import opened Board
  import opened TaskEvents

  /** The priority the snapshot records: high if the card has class `high`, else mid if it has
      `mid`, else low. */
  function SnapPriority(prio: set<Priority>): (r: string)
    ensures r == "high" <==> High in prio
    ensures r == "mid" <==> High !in prio && Mid in prio
    ensures r == "low" <==> High !in prio && Mid !in prio
  {
    if High in prio then "high" else if Mid in prio then "mid" else "low"
  }

  /** `cloneNode(true)`: a copy under a new identity, without the listeners, so a live seconds
      display becomes a dead one whose text stays. */
  function Clone(c: Card, node: nat): (r: Card)
    ensures r.node == node && !r.wired && r.seconds.None?
    ensures DateTimeText(r) == DateTimeText(c)
    ensures r.(node := c.node, wired := c.wired, stale := c.stale, seconds := c.seconds) == c
  {
    c.(node := node, wired := false, stale := c.stale + (if c.seconds.Some? then c.seconds.value else ""),
       seconds := None)
  }

  /** What the deletion keeps for the undo. */
  datatype Snapshot = Snapshot(id: Js, name: string, priority: string, date: string, time: string,
                               createdBy: Js, element: Card, parent: Parent)

  /** The snapshot of card `c` in `parent`, its clone taking identity `cloneNode`. */
  function TakeSnapshot(c: Card, parent: Parent, cloneNode: nat, collab: bool): (s: Snapshot)
    ensures s.priority == SnapPriority(c.prio) && s.time == ReplaceTime(c.time)
    ensures s.element == Clone(c, cloneNode) && s.parent == parent && s.id == IdOf(c)
    ensures collab && c.meta.Some? ==> s.createdBy == Str(ReplaceFirst(c.meta.value, "Created by: ", ""))
    ensures !collab || c.meta.None? ==> s.createdBy == Undefined
  {
    Snapshot(IdOf(c), c.name, SnapPriority(c.prio), c.date, ReplaceTime(c.time),
             if collab && c.meta.Some? then Str(ReplaceFirst(c.meta.value, "Created by: ", "")) else Undefined,
             Clone(c, cloneNode), parent)
  }

  /** The text `alert` shows after a failed collaboration delete: the server's error, or a
      default when it gave none. */
  function AlertText(reply: Reply): (r: string)
    requires reply.Obj?
    ensures Truthy(Field(reply, "error")) ==> r == JsText(Field(reply, "error"))
    ensures !Truthy(Field(reply, "error")) ==> r == "Failed to delete task"
  {
    if Truthy(Field(reply, "error")) then JsText(Field(reply, "error")) else "Failed to delete task"
  }

  // ---- the countdown ---------------------------------------------------------------------------

  /** The values the countdown shows from `t` on, when nobody clicks: `t`, then one less per
      tick until a value at or below zero clears the interval. */
  function Countdown(t: nat): (r: seq<int>)
    requires t >= 1
    ensures |r| >= 2 && r[0] == t && r[|r| - 1] == 0
  {
    [t] + (if t - 1 > 0 then Countdown(t - 1) else [t - 1])
  }

  /** Untouched, the countdown shows t, t-1, ..., 0: it never goes negative. */
  lemma {:induction false} CountdownValues(t: nat)
    requires t >= 1
    ensures |Countdown(t)| == t + 1
    ensures forall i :: 0 <= i <= t ==> Countdown(t)[i] == t - i
  {
    if t > 1 {
      CountdownValues(t - 1);
      assert forall i :: 1 <= i <= t ==> Countdown(t)[i] == Countdown(t - 1)[i - 1];
    }
  }

  /** The notification shown after a successful delete: the snapshot, which endpoint Undo uses,
      the countdown value, whether the interval still runs, whether the element is still in the
      document (it stays 300 ms after the interval is cleared, with a live Undo button), and
      whether Undo was clicked. */
  class UndoNotification {
    const data: Snapshot
    const isCollab: bool
    var timeLeft: int
    var counting: bool
    var present: bool
    var clicked: bool

    ghost predicate Valid()
      reads this
    {
      0 <= timeLeft <= 5 && (counting ==> timeLeft > 0 && present)
    }

    /** `showUndoNotification`: the countdown starts at 5. */
    constructor (d: Snapshot, collab: bool)
      ensures Valid() && data == d && isCollab == collab
      ensures timeLeft == 5 && counting && present && !clicked
    {
      data, isCollab := d, collab;
      timeLeft, counting, present, clicked := 5, true, true, false;
    }

    /** One firing of the interval: the count drops by one, and at zero the interval is
        cleared. */
    method Tick()
      requires Valid() && counting
      modifies this`timeLeft, this`counting
      ensures Valid()
      ensures timeLeft == old(timeLeft) - 1 && counting == (timeLeft > 0)
    {
      timeLeft := timeLeft - 1;
      if timeLeft <= 0 {
        counting := false;
      }
    }

    /** The interval fires until it clears itself; the values shown are those of `Countdown`. */
    method RunDown() returns (shown: seq<int>)
      requires Valid() && counting
      modifies this`timeLeft, this`counting
      ensures Valid() && !counting && timeLeft == 0
      ensures shown == Countdown(old(timeLeft))
    {
      ghost var start := timeLeft;
      shown := [timeLeft];
      while counting
        invariant Valid() && 1 <= start <= 5 && timeLeft <= start
        invariant |shown| == start - timeLeft + 1
        invariant forall i :: 0 <= i < |shown| ==> shown[i] == start - i
        invariant !counting ==> timeLeft == 0
        decreases timeLeft
      {
        Tick();
        shown := shown + [timeLeft];
      }
      CountdownValues(start);
    }

    /** The timeout that removes the notification once it slid out. */
    method Removed()
      requires Valid() && !counting
      modifies this`present
      ensures Valid() && !present
    {
      present := false;
    }
  }

  // ---- deletion --------------------------------------------------------------------------------

  /** `deleteTaskWithUndo(taskElement, taskId)` and the reply to its request. The snapshot is
      taken at the click. On success the card is removed and the notification shown; otherwise
      the fade is reset and the card stays. */
  method DeleteTaskWithUndo(p: Page, c: Card, reply: Reply) returns (req: Request, note: UndoNotification?)
    requires p.Valid() && c in AllCards(p.zones, p.body)
    modifies p`zones, p`body, p`nextNode
    ensures p.Valid() && p.nextNode == old(p.nextNode) + 1
    ensures req == Request("DELETE", "/delete_task/" + JsText(IdOf(c)), map[])
    ensures ParentOf(old(p.zones), old(p.body), c.node).Some?
    ensures Succeeded(reply) ==>
              p.zones == DetachZones(old(p.zones), c.node) && p.body == Without(old(p.body), c.node)
              && note != null && fresh(note) && note.Valid() && note.timeLeft == 5 && note.counting
              && !note.isCollab
              && note.data == TakeSnapshot(c, ParentOf(old(p.zones), old(p.body), c.node).value, old(p.nextNode), false)
    ensures !Succeeded(reply) ==>
              note == null && p.zones == ReplaceZones(old(p.zones), c.(fading := false))
              && p.body == Replace(old(p.body), c.(fading := false))
  {
    InPage(p.zones, p.body, c);
    var parent := ParentOf(p.zones, p.body, c.node).value;
    var copy := p.FreshNode();
    var data := TakeSnapshot(c, parent, copy, false);
    req := Request("DELETE", "/delete_task/" + JsText(IdOf(c)), map[]);
    if Succeeded(reply) {
      p.Remove(c.node);
      note := new UndoNotification(data, false);
    } else {
      // The fade set at the click is undone.
      p.Patch(c.(fading := false));
      note := null;
    }
  }

  /** The zones after the collaboration delete removed card `n` from `parent`: an emptied zone
      gets its `.empty-state` placeholder. */
  function WithPlaceholder(zs: seq<Zone>, parent: Parent): (r: seq<Zone>)
    requires parent.InZone? ==> parent.z < |zs|
    ensures parent.InZone? && zs[parent.z].cards == [] && !zs[parent.z].placeholder
            ==> r == zs[parent.z := zs[parent.z].(placeholder := true)]
    ensures !(parent.InZone? && zs[parent.z].cards == [] && !zs[parent.z].placeholder) ==> r == zs
  {
    if parent.InZone? && zs[parent.z].cards == [] && !zs[parent.z].placeholder
    then zs[parent.z := zs[parent.z].(placeholder := true)] else zs
  }

  /** `deleteCollabTaskWithUndo(taskElement, taskId)` and its reply: like the personal deletion,
      and in addition an emptied origin zone gets exactly one `.empty-state`, and a refusal shows
      the server's error. */
  method DeleteCollabTaskWithUndo(p: Page, c: Card, reply: Reply) returns (req: Request, note: UndoNotification?)
    requires p.Valid() && c in AllCards(p.zones, p.body)
    modifies p`zones, p`body, p`nextNode, p`alerts
    ensures p.Valid() && p.nextNode == old(p.nextNode) + 1
    ensures req == Request("DELETE", "/delete_collab_task/" + JsText(IdOf(c)), map[])
    ensures ParentOf(old(p.zones), old(p.body), c.node).Some?
    ensures Succeeded(reply) ==>
              var parent := ParentOf(old(p.zones), old(p.body), c.node).value;
              p.zones == WithPlaceholder(DetachZones(old(p.zones), c.node), parent)
              && p.body == Without(old(p.body), c.node) && p.alerts == old(p.alerts)
              && note != null && fresh(note) && note.Valid() && note.timeLeft == 5 && note.counting
              && note.isCollab && note.data == TakeSnapshot(c, parent, old(p.nextNode), true)
    ensures !Succeeded(reply) ==>
              note == null && p.zones == ReplaceZones(old(p.zones), c.(fading := false))
              && p.body == Replace(old(p.body), c.(fading := false))
    ensures !Succeeded(reply) && reply.Obj? ==> p.alerts == old(p.alerts) + [AlertText(reply)]
    ensures reply.NetworkError? ==> p.alerts == old(p.alerts)
  {
    InPage(p.zones, p.body, c);
    var parent := ParentOf(p.zones, p.body, c.node).value;
    var copy := p.FreshNode();
    var data := TakeSnapshot(c, parent, copy, true);
    req := Request("DELETE", "/delete_collab_task/" + JsText(IdOf(c)), map[]);
    if Succeeded(reply) {
      RemoveFromCollab(p, c.node, parent);
      note := new UndoNotification(data, true);
    } else {
      RefuseCollab(p, c, reply);
      note := null;
    }
  }

  /** The collaboration success path: the card goes and an emptied origin zone gets its
      placeholder. */
  method RemoveFromCollab(p: Page, n: nat, parent: Parent)
    requires p.Valid() && (parent.InZone? ==> parent.z < |p.zones|)
    modifies p`zones, p`body
    ensures p.Valid()
    ensures p.zones == WithPlaceholder(DetachZones(old(p.zones), n), parent)
    ensures p.body == Without(old(p.body), n)
  {
    p.Remove(n);
    if parent.InZone? && p.zones[parent.z].cards == [] && !p.zones[parent.z].placeholder {
      p.SetZone(parent.z, p.zones[parent.z].(placeholder := true));
    }
  }

  /** The collaboration failure path: the fade is undone and a parsed refusal is alerted. */
  method RefuseCollab(p: Page, c: Card, reply: Reply)
    requires p.Valid()
    modifies p`zones, p`body, p`alerts
    ensures p.Valid()
    ensures p.zones == ReplaceZones(old(p.zones), c.(fading := false))
    ensures p.body == Replace(old(p.body), c.(fading := false))
    ensures reply.Obj? ==> p.alerts == old(p.alerts) + [AlertText(reply)]
    ensures !reply.Obj? ==> p.alerts == old(p.alerts)
  {
    p.Patch(c.(fading := false));
    if reply.Obj? {
      p.alerts := p.alerts + [AlertText(reply)];
    }
  }

  // ---- undo ------------------------------------------------------------------------------------

  /** The element Undo puts back: the clone, or its current state if an earlier Undo already put
      it on the page. */
  function Restorable(zs: seq<Zone>, body: seq<Card>, clone: Card): (r: Card)
    ensures r.node == clone.node
  {
    match FindNode(AllCards(zs, body), clone.node)
    case Some(cur) => cur
    case None => clone
  }

  /** `document.body.querySelector('.empty-state')`: the first zone holding a placeholder. */
  function FirstPlaceholder(zs: seq<Zone>): (r: Option<nat>)
    ensures r.Some? ==> r.value < |zs| && zs[r.value].placeholder
    ensures r.Some? ==> forall j :: 0 <= j < r.value ==> !zs[j].placeholder
    ensures r.None? ==> forall j :: 0 <= j < |zs| ==> !zs[j].placeholder
  {
    if zs == [] then None
    else if zs[0].placeholder then Some(0)
    else match FirstPlaceholder(zs[1..])
      case None => None
      case Some(i) => Some(i + 1)
  }

  /** The zones after `parent.querySelector('.empty-state')?.remove()`. */
  function DropPlaceholder(zs: seq<Zone>, parent: Parent): (r: seq<Zone>)
    requires parent.InZone? ==> parent.z < |zs|
    ensures |r| == |zs|
    ensures parent.InZone? ==> r == zs[parent.z := zs[parent.z].(placeholder := false)]
    ensures parent.InBody? && FirstPlaceholder(zs).Some? ==>
              r == zs[FirstPlaceholder(zs).value := zs[FirstPlaceholder(zs).value].(placeholder := false)]
    ensures parent.InBody? && FirstPlaceholder(zs).None? ==> r == zs
  {
    if parent.InZone? then zs[parent.z := zs[parent.z].(placeholder := false)]
    else match FirstPlaceholder(zs)
      case Some(j) => zs[j := zs[j].(placeholder := false)]
      case None => zs
  }

  /** The restored element before its handlers are attached: the server's id, and on the
      collaboration path the server's `created_by` in an existing meta line. */
  function Restored(base: Card, reply: Reply, collab: bool): (r: Card)
    requires reply.Obj?
    ensures r.node == base.node && r.dataId == Some(JsText(Field(reply, "id")))
    ensures collab && base.meta.Some? ==> r.meta == Some("Created by: " + JsText(Field(reply, "created_by")))
    ensures !collab || base.meta.None? ==> r.meta == base.meta
    ensures r.(dataId := base.dataId, meta := base.meta) == base
  {
    base.(dataId := Some(JsText(Field(reply, "id"))),
          meta := if collab && base.meta.Some? then Some("Created by: " + JsText(Field(reply, "created_by"))) else base.meta)
  }

  /** The personal reply path: the element goes back into its parent, then gets its handlers and
      a seconds display. */
  method PutBack(p: Page, parent: Parent, e: Card)
    requires p.Valid() && e.node < p.nextNode && (parent.InZone? ==> parent.z < |p.zones|)
    modifies p`zones, p`body
    ensures p.Valid() && Occ(p.zones, p.body, e.node) == 1
    ensures var final := AddSecondsDisplay(Attached(e));
            p.zones == ReplaceZones(AppendZones(old(p.zones), parent, e), final)
            && p.body == Replace(AppendBody(old(p.body), parent, e), final)
  {
    p.AppendTo(parent, e);
    p.Patch(AddSecondsDisplay(Attached(e)));
  }

  /** The collaboration reply path: the element goes back into its parent, the parent's
      placeholder goes, then the handlers are attached. */
  method PutBackCollab(p: Page, parent: Parent, e: Card)
    requires p.Valid() && e.node < p.nextNode && (parent.InZone? ==> parent.z < |p.zones|)
    modifies p`zones, p`body
    ensures p.Valid() && Occ(p.zones, p.body, e.node) == 1
    ensures p.zones == ReplaceZones(DropPlaceholder(AppendZones(old(p.zones), parent, e), parent), Attached(e))
    ensures p.body == Replace(AppendBody(old(p.body), parent, e), Attached(e))
  {
    p.AppendTo(parent, e);
    if parent.InZone? {
      p.ClearPlaceholder(parent.z);
    } else {
      var j := FirstPlaceholder(p.zones);
      if j.Some? {
        p.ClearPlaceholder(j.value);
      }
    }
    p.Patch(Attached(e));
  }

  /** The reply to Undo's create request: a parsed reply (even an error body) puts the clone
      back into its original parent with the reply's id; a failed request changes nothing. */
  method RestoreFromReply(p: Page, data: Snapshot, collab: bool, reply: Reply)
    requires p.Valid() && data.element.node < p.nextNode
    requires data.parent.InZone? ==> data.parent.z < |p.zones|
    modifies p`zones, p`body
    ensures p.Valid()
    ensures reply.NetworkError? ==> p.zones == old(p.zones) && p.body == old(p.body)
    ensures reply.Obj? ==>
              var parent := data.parent;
              var e := Restored(Restorable(old(p.zones), old(p.body), data.element), reply, collab);
              var zs := AppendZones(old(p.zones), parent, e);
              var bd := AppendBody(old(p.body), parent, e);
              Occ(p.zones, p.body, e.node) == 1
              && (!collab ==>
                    var final := AddSecondsDisplay(Attached(e));
                    p.zones == ReplaceZones(zs, final) && p.body == Replace(bd, final))
              && (collab ==>
                    var final := Attached(e);
                    p.zones == ReplaceZones(DropPlaceholder(zs, parent), final) && p.body == Replace(bd, final))
  {
    if reply.Obj? {
      var e := Restored(Restorable(p.zones, p.body, data.element), reply, collab);
      if collab {
        PutBackCollab(p, data.parent, e);
      } else {
        PutBack(p, data.parent, e);
      }
    }
  }

  /** The first click on Undo, its create request and the reply. The interval is cleared, the
      request sent and "Task restored!" shown at the click, whatever the reply; the reply is
      handled by `RestoreFromReply`. The click may come while the countdown runs or in the
      300 ms the notification takes to slide out. */
  method UndoClick(p: Page, note: UndoNotification, reply: Reply) returns (req: Request)
    requires p.Valid() && note.Valid() && note.present && !note.clicked
    requires note.data.element.node < p.nextNode
    requires note.data.parent.InZone? ==> note.data.parent.z < |p.zones|
    modifies p`zones, p`body, p`toasts, note`counting, note`clicked
    ensures p.Valid() && note.Valid() && !note.counting && note.clicked
    ensures req == AddTaskRequest(note.data.name, note.data.priority, note.data.date, note.data.time,
                          note.isCollab, p.ListId())
    ensures p.toasts == old(p.toasts) + ["Task restored!"]
    ensures reply.NetworkError? ==> p.zones == old(p.zones) && p.body == old(p.body)
    ensures reply.Obj? ==>
              var parent := note.data.parent;
              var e := Restored(Restorable(old(p.zones), old(p.body), note.data.element), reply, note.isCollab);
              var zs := AppendZones(old(p.zones), parent, e);
              var bd := AppendBody(old(p.body), parent, e);
              Occ(p.zones, p.body, e.node) == 1
              && (!note.isCollab ==>
                    var final := AddSecondsDisplay(Attached(e));
                    p.zones == ReplaceZones(zs, final) && p.body == Replace(bd, final))
              && (note.isCollab ==>
                    var final := Attached(e);
                    p.zones == ReplaceZones(DropPlaceholder(zs, parent), final) && p.body == Replace(bd, final))
  {
    note.counting, note.clicked := false, true;
    req := AddTaskRequest(note.data.name, note.data.priority, note.data.date, note.data.time,
                          note.isCollab, p.ListId());
    p.toasts := p.toasts + ["Task restored!"];
    RestoreFromReply(p, note.data, note.isCollab, reply);
  }

  // ---- snapshots of cards built by createTaskElement --------------------------------------------

  /** The snapshot time of a built card whose time holds no clock: the whole `.task-time` text,
      line breaks and indentation included. */
  lemma SnapshotTimeAbsent(t: string)
    requires FirstTime(t).None?
    ensures ReplaceTime(TimeCell(t)) == TimeCell(t)
  {
    var a, b := "\n" + Spaces(16) + "\n" + Spaces(16), "\n" + Spaces(12);
    assert TimeCell(t) == a + t + b;
    FirstTimeShift(a, t, b);
  }

  /** The snapshot time of a built card whose one-line time holds a clock. The `.task-time` text
      spans three lines and only the line holding the clock is replaced, so the clock comes back
      framed by the template's line breaks and indentation. */
  lemma SnapshotTimePresent(t: string)
    requires NoLineTerminators(t) && FirstTime(t).Some?
    ensures ReplaceTime(TimeCell(t)) == "\n" + Spaces(16) + "\n" + MatchText(t, FirstTime(t).value) + "\n" + Spaces(12)
  {
    var s16 := Spaces(16);
    var pre, line, post := "\n" + s16 + "\n", s16 + t, "\n" + Spaces(12);
    assert TimeCell(t) == pre + line + post;
    LineTime(s16, t);
    ReplaceTimeLine(pre, line, post);
  }

  lemma LineTime(a: string, t: string)
    requires NoTimeChars(a) && NoLineTerminators(a) && NoLineTerminators(t) && FirstTime(t).Some?
    ensures NoLineTerminators(a + t) && FirstTime(a + t).Some?
    ensures MatchText(a + t, FirstTime(a + t).value) == MatchText(t, FirstTime(t).value)
  {
    var k := FirstTime(t).value;
    assert a + t == a + t + "";
    FirstTimeShift(a, t, "");
    HourLenShift(a, t, "", |a| + k);
    SliceInMiddle(a, t, "", k, k + HourLenAt(t, k) + 3);
  }

  /** Deleting a card built from a reply records what the reply said: its name, date and
      priority, the `created_by` of a collaboration task, and (see `SnapshotTimeAbsent` and `SnapshotTimePresent`) the
      time. */
  lemma SnapshotOfBuiltCard(node: nat, task: Reply, collab: bool, p: Priority, parent: Parent, copy: nat)
    requires task.Obj? && Field(task, "priority") == Str(PriorityName(p))
    ensures var c := BuildCard(node, task, collab).value;
            var s := TakeSnapshot(c, parent, copy, collab);
            s.name == JsText(Field(task, "name")) && s.date == JsText(Field(task, "date"))
            && s.priority == PriorityName(p) && s.time == ReplaceTime(TimeCell(JsText(Field(task, "time"))))
            && s.id == Str(JsText(Field(task, "id")))
            && (collab ==> s.createdBy == Str(JsText(Field(task, "created_by"))))
  {
    var c := BuildCard(node, task, collab).value;
    PrioOfName(p);
    assert c.prio == {p};
    if collab {
      ReplacePrefix("Created by: ", JsText(Field(task, "created_by")));
    }
  }
}
