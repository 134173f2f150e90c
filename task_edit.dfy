/** The edit modal of a card (get-it-done/static/taskEdit.js): it is pre-filled from the card,
    sends the edited fields, and on success patches the card and re-sorts a single-list page. */
module TaskEdit {

  import opened Common
  import opened Text
  import opened Json
  import opened Board
  import opened TaskEvents
  import opened Sort
  import opened TaskSort

  // ---- what a date or time input accepts as its value -----------------------------------------

  predicate IsLeapYear(y: nat) {
    y % 400 == 0 || (y % 4 == 0 && y % 100 != 0)
  }

  function DaysInMonth(y: nat, m: nat): nat
    requires 1 <= m <= 12
  {
    if m == 2 then (if IsLeapYear(y) then 29 else 28)
    else if m == 4 || m == 6 || m == 9 || m == 11 then 30
    else 31
  }

  /** A valid date string of HTML: `yyyy-mm-dd` with a year of four or more digits greater than
      zero and a month and day naming a day of the calendar. */
  predicate IsDateString(s: string) {
    |s| >= 10 && s[|s| - 6] == '-' && s[|s| - 3] == '-'
    && AllDigits(s[..|s| - 6]) && TwoDigits(s[|s| - 5..|s| - 3]) && TwoDigits(s[|s| - 2..])
    && var y := DigitsValue(s[..|s| - 6]);
       var m := DigitsValue(s[|s| - 5..|s| - 3]);
       var d := DigitsValue(s[|s| - 2..]);
       y > 0 && 1 <= m <= 12 && 1 <= d <= DaysInMonth(y, m)
  }

  /** A valid time string of HTML: `hh:mm`, optionally followed by `:ss` and then by `.` and one
      to three digits, with hours below 24 and minutes and seconds below 60. */
  predicate IsTimeString(s: string) {
    (|s| == 5 || |s| == 8 || 10 <= |s| <= 12)
    && TwoDigits(s[..2]) && s[2] == ':' && TwoDigits(s[3..5])
    && DigitsValue(s[..2]) <= 23 && DigitsValue(s[3..5]) <= 59
    && (|s| >= 8 ==> s[5] == ':' && TwoDigits(s[6..8]) && DigitsValue(s[6..8]) <= 59)
    && (|s| >= 10 ==> s[8] == '.' && AllDigits(s[9..]))
  }

  /** Setting the `value` of an `<input type="date">`: anything but a valid date string is
      replaced by the empty string. */
  function DateValue(s: string): (r: string)
    ensures r == s || r == ""
    ensures r != "" <==> IsDateString(s)
  {
    if IsDateString(s) then s else ""
  }

  /** Setting the `value` of an `<input type="time">`. */
  function TimeValue(s: string): (r: string)
    ensures r == s || r == ""
    ensures r != "" <==> IsTimeString(s)
  {
    if IsTimeString(s) then s else ""
  }

  /** No carriage return and no line feed in `s`. */
  predicate NoLineBreak(s: string) {
    forall i :: 0 <= i < |s| ==> s[i] != '\n' && s[i] != '\r'
  }

  /** Setting the `value` of an `<input type="text">`: line feeds and carriage returns are
      stripped and every other character is kept, in order. */
  function TextValue(s: string): (r: string)
    ensures NoLineBreak(r) && |r| <= |s|
    ensures r == s <==> NoLineBreak(s)
    ensures forall ch :: ch in r <==> ch in s && ch != '\n' && ch != '\r'
  {
    if s == [] then []
    else
      var rest := TextValue(s[1..]);
      assert forall ch :: ch in s <==> ch == s[0] || ch in s[1..];
      assert NoLineBreak(s) <==> s[0] != '\n' && s[0] != '\r' && NoLineBreak(s[1..]) by {
        assert forall i :: 0 < i < |s| ==> s[i] == s[1..][i - 1];
      }
      if s[0] == '\n' || s[0] == '\r' then rest else [s[0]] + rest
  }

  /** Trimming keeps a name free of line breaks. */
  lemma TrimNoLineBreak(s: string)
    requires NoLineBreak(s)
    ensures NoLineBreak(JsTrim(s))
  {
    var t := TrimStart(s, IsJsSpace);
    TrimStartSpec(s, IsJsSpace);
    TrimEndSpec(t, IsJsSpace);
    var r := JsTrim(s);
    forall i | 0 <= i < |r| ensures r[i] != '\n' && r[i] != '\r' {
      assert r[i] == t[i] == s[|s| - |t| + i];
    }
  }

  /** Neither kind of value starts or ends with whitespace or contains the clock emoji. */
  lemma DateEdges(s: string)
    requires IsDateString(s)
    ensures !IsJsSpace(s[0]) && !IsJsSpace(s[|s| - 1])
    ensures forall i :: 0 <= i < |s| ==> s[i] != '\U{1F550}'
  {
    assert s[0] == s[..|s| - 6][0];
    assert s[|s| - 1] == s[|s| - 2..][1];
    forall i | 0 <= i < |s| ensures s[i] != '\U{1F550}' {
      if i < |s| - 6 {
        assert s[i] == s[..|s| - 6][i];
      } else if |s| - 5 <= i < |s| - 3 {
        assert s[i] == s[|s| - 5..|s| - 3][i - (|s| - 5)];
      } else if |s| - 2 <= i {
        assert s[i] == s[|s| - 2..][i - (|s| - 2)];
      }
    }
  }

  lemma TimeEdges(s: string)
    requires IsTimeString(s)
    ensures !IsJsSpace(s[0]) && !IsJsSpace(s[|s| - 1])
    ensures forall i :: 0 <= i < |s| ==> s[i] != '\U{1F550}'
  {
    assert s[0] == s[..2][0];
    if |s| == 5 {
      assert s[4] == s[3..5][1];
    } else if |s| == 8 {
      assert s[7] == s[6..8][1];
    } else {
      assert s[|s| - 1] == s[9..][|s| - 10];
    }
    forall i | 0 <= i < |s| ensures s[i] != '\U{1F550}' {
      if i < 2 {
        assert s[i] == s[..2][i];
      } else if 3 <= i < 5 {
        assert s[i] == s[3..5][i - 3];
      } else if 6 <= i < 8 {
        assert s[i] == s[6..8][i - 6];
      } else if 9 <= i {
        assert s[i] == s[9..][i - 9];
      }
    }
  }

  /** `replace('🕐 ', '')` leaves a string without the clock emoji alone. */
  lemma NoClock(s: string)
    requires forall i :: 0 <= i < |s| ==> s[i] != '\U{1F550}'
    ensures ReplaceFirst(s, "\U{1F550} ", "") == s
  {
    assert "\U{1F550} "[0] == '\U{1F550}';
    forall j: nat | j < |s| ensures !OccursAt(s, "\U{1F550} ", j) {
      assert s[j] != '\U{1F550}';
    }
    ReplaceAbsent(s, "\U{1F550} ", "");
  }

  /** Trimming a date or time value, or the empty value, gives it back. */
  lemma TrimValue(s: string)
    requires s == "" || IsDateString(s) || IsTimeString(s)
    ensures JsTrim(s) == s
    ensures ReplaceFirst(s, "\U{1F550} ", "") == s
  {
    if IsDateString(s) {
      DateEdges(s);
    } else if IsTimeString(s) {
      TimeEdges(s);
    }
    TrimIdempotent(s, IsJsSpace);
    NoClock(s);
  }

  // ---- the modal's fields ---------------------------------------------------------------------

  /** The values of the modal's name input, priority select, date input and time input. */
  datatype EditFields = EditFields(name: string, priority: Priority, date: string, time: string)

  /** Name, date and time hold values their inputs accept. */
  predicate Sanitized(f: EditFields) {
    TextValue(f.name) == f.name && DateValue(f.date) == f.date && TimeValue(f.time) == f.time
  }

  /** The option the priority select shows: the last of high, mid and low that the card carries
      as a class, or the first option, high, when it carries none. */
  function PrefillPriority(prio: set<Priority>): (r: Priority)
    ensures r == Low <==> Low in prio
    ensures r == Mid <==> Mid in prio && Low !in prio
    ensures r == High <==> Mid !in prio && Low !in prio
  {
    if Low in prio then Low else if Mid in prio then Mid else High
  }

  /** The values the modal opens with: the name as the card shows it, without line breaks, the
      trimmed date, and the trimmed time with a leading clock emoji and space removed, each date
      and time kept only when its input accepts it. */
  function Prefill(c: Card): (r: EditFields)
    ensures Sanitized(r)
    ensures r.name == TextValue(c.name) && (r.name == c.name <==> NoLineBreak(c.name))
    ensures r.priority == PrefillPriority(c.prio)
    ensures IsDateString(JsTrim(c.date)) <==> r.date == JsTrim(c.date) && r.date != ""
    ensures !IsDateString(JsTrim(c.date)) ==> r.date == ""
    ensures var t := ReplaceFirst(JsTrim(c.time), "\U{1F550} ", "");
            (IsTimeString(t) <==> r.time == t && r.time != "") && (!IsTimeString(t) ==> r.time == "")
  {
    EditFields(TextValue(c.name), PrefillPriority(c.prio), DateValue(JsTrim(c.date)),
               TimeValue(ReplaceFirst(JsTrim(c.time), "\U{1F550} ", "")))
  }

  /** The edit request: `PUT /edit_collab_task/<id>` for a collaboration card,
      `PUT /edit_task/<id>` otherwise, with the trimmed name and the other values as they are. */
  function EditRequest(taskId: string, collab: bool, f: EditFields): (r: Request)
    ensures r.verb == "PUT" && r.body.Keys == {"name", "date", "time", "priority"}
    ensures r.body["name"] == Str(JsTrim(f.name)) && r.body["priority"] == Str(PriorityName(f.priority))
    ensures r.body["date"] == Str(f.date) && r.body["time"] == Str(f.time)
    ensures collab ==> r.url == "/edit_collab_task/" + taskId
    ensures !collab ==> r.url == "/edit_task/" + taskId
  {
    Request("PUT", (if collab then "/edit_collab_task/" else "/edit_task/") + taskId,
            map["name" := Str(JsTrim(f.name)), "date" := Str(f.date), "time" := Str(f.time),
                "priority" := Str(PriorityName(f.priority))])
  }

  /** The card after a successful save: new name (trimmed), date, time (after the clock icon,
      which renders as a space), badge and priority class. The `.date-time` element, which the
      single-list sort reads, is not touched. */
  function Edited(c: Card, f: EditFields): (r: Card)
    ensures r.node == c.node && r.dataId == c.dataId && r.collab == c.collab
    ensures r.name == JsTrim(f.name) && r.prio == {f.priority} && r.badge == Capitalize(PriorityName(f.priority))
    ensures r.date == f.date && r.time == " " + f.time
    ensures r.dateTime == c.dateTime && DateTimeText(r) == DateTimeText(c)
    ensures r.(name := c.name, date := c.date, time := c.time, badge := c.badge, prio := c.prio) == c
  {
    c.(name := JsTrim(f.name), date := f.date, time := " " + f.time,
       badge := Capitalize(PriorityName(f.priority)), prio := {f.priority})
  }

  /** Saving and opening the modal again shows what was saved, with the name trimmed. */
  lemma EditRoundTrip(c: Card, f: EditFields)
    requires Sanitized(f)
    ensures Prefill(Edited(c, f)) == f.(name := JsTrim(f.name))
  {
    var e := Edited(c, f);
    TrimNoLineBreak(f.name);
    TrimValue(f.date);
    TrimValue(f.time);
    TrimLead(f.time);
    assert Prefill(e).date == f.date;
    assert Prefill(e).time == f.time;
    assert PrefillPriority({f.priority}) == f.priority;
  }

  /** The space the clock icon leaves before an edited time trims away. */
  lemma TrimLead(t: string)
    requires t == "" || IsTimeString(t)
    ensures JsTrim(" " + t) == t
  {
    TrimPadded(" ", t, "", IsJsSpace);
    assert " " + t + "" == " " + t;
    TrimValue(t);
  }

  /** The text of the `.task-time` cell of a built card trims to the time it was built from, when
      that time has no whitespace at its ends. */
  lemma TrimTimeCell(t: string)
    requires t == "" || (!IsJsSpace(t[0]) && !IsJsSpace(t[|t| - 1]))
    ensures JsTrim(TimeCell(t)) == t
  {
    var a := "\n" + Spaces(16) + "\n" + Spaces(16);
    var b := "\n" + Spaces(12);
    assert TimeCell(t) == a + t + b;
    assert forall i :: 0 <= i < |a| ==> IsJsSpace(a[i]) by {
      forall i | 0 <= i < |a| ensures IsJsSpace(a[i]) {
        if 1 <= i < 17 {
          assert a[i] == Spaces(16)[i - 1];
        } else if 18 <= i {
          assert a[i] == Spaces(16)[i - 18];
        }
      }
    }
    assert forall i :: 0 <= i < |b| ==> IsJsSpace(b[i]) by {
      forall i | 0 <= i < |b| ensures IsJsSpace(b[i]) {
        if 1 <= i {
          assert b[i] == Spaces(12)[i - 1];
        }
      }
    }
    TrimPadded(a, t, b, IsJsSpace);
    TrimIdempotent(t, IsJsSpace);
  }

  /** Editing a card just built from a create reply opens with the reply's name, priority, date
      and time, when they are values the inputs accept. */
  lemma PrefillOfBuiltCard(node: nat, task: Reply, collab: bool, f: EditFields)
    requires task.Obj? && Sanitized(f)
    requires Field(task, "name") == Str(f.name) && Field(task, "priority") == Str(PriorityName(f.priority))
    requires Field(task, "date") == Str(f.date) && Field(task, "time") == Str(f.time)
    ensures BuildCard(node, task, collab).Some?
    ensures Prefill(BuildCard(node, task, collab).value) == f
  {
    var c := BuildCard(node, task, collab).value;
    TrimValue(f.date);
    if f.time != "" {
      TimeEdges(f.time);
    }
    TrimTimeCell(f.time);
    TrimValue(f.time);
    PrioOfName(f.priority);
    assert c.prio == {f.priority};
  }

  // ---- the modal ------------------------------------------------------------------------------

  /** The save button's label: "Save", "Saving..." or "Error". */
  datatype SaveLabel = Save | Saving | SaveFailed

  /** An open (or closed) edit modal for the card of identity `node`, with data-id text `taskId`.
      `resets` counts the pending 2000 ms timers that restore the save button. */
  class EditModal {
    const node: nat
    const taskId: string
    const collab: bool
    var fields: EditFields
    var open: bool
    var button: SaveLabel
    var disabled: bool
    var shaking: bool
    var focused: bool
    var resets: nat

    ghost predicate Valid()
      reads this
    {
      Sanitized(fields)
    }

    /** `openEditModal(card, taskId, isCollabTask)`: the form and its backdrop are shown and
        the name input takes the focus. */
    constructor (c: Card, id: string, isCollab: bool)
      ensures Valid()
      ensures node == c.node && taskId == id && collab == isCollab && fields == Prefill(c)
      ensures open && button == Save && !disabled && !shaking && focused && resets == 0
    {
      node, taskId, collab := c.node, id, isCollab;
      fields := Prefill(c);
      open, button, disabled, shaking, focused, resets := true, Save, false, false, true, 0;
    }

    /** Cancel, a click on the backdrop, or Escape inside the form: the form and the backdrop
        are removed. */
    method Close()
      modifies this`open
      ensures !open
    {
      open := false;
    }

    /** Typing or pasting into the inputs; each input keeps only a value it accepts. */
    method Type(name: string, priority: Priority, date: string, time: string)
      modifies this`fields
      ensures Valid()
      ensures fields == EditFields(TextValue(name), priority, DateValue(date), TimeValue(time))
    {
      fields := EditFields(TextValue(name), priority, DateValue(date), TimeValue(time));
    }

    /** Submitting the form. A removed form, or a disabled save button, submits nothing. The
        name input is `required`, so with an empty name the browser fires no `submit` event
        and nothing here changes. A name of whitespace only shakes and focuses the name input;
        otherwise the button reads "Saving...", is disabled, and the edit request is sent. */
    method Submit() returns (req: Option<Request>)
      modifies this`button, this`disabled, this`shaking, this`focused
      ensures !open || old(disabled) || fields.name == "" ==>
                req.None? && button == old(button) && disabled == old(disabled)
                && shaking == old(shaking) && focused == old(focused)
      ensures open && !old(disabled) && fields.name != "" && JsTrim(fields.name) == "" ==>
                req.None? && shaking && focused && button == old(button) && !disabled
      ensures open && !old(disabled) && JsTrim(fields.name) != "" ==>
                req == Some(EditRequest(taskId, collab, fields)) && button == Saving && disabled
                && shaking == old(shaking) && focused == old(focused)
    {
      if !open || disabled || fields.name == "" {
        return None;
      }
      if JsTrim(fields.name) == "" {
        shaking, focused := true, true;
        return None;
      }
      button, disabled := Saving, true;
      req := Some(EditRequest(taskId, collab, fields));
    }

    /** The 2000 ms timer after an error: the button reads "Save" again and is enabled. */
    method ResetSave()
      requires resets > 0
      modifies this`button, this`disabled, this`resets
      ensures button == Save && !disabled && resets == old(resets) - 1
    {
      button, disabled, resets := Save, false, resets - 1;
    }
  }

  /** The card patch of a successful save, applied to the element wherever it now is; an element
      no longer on the page changes nothing that is shown. */
  method PatchEdited(p: Page, n: nat, f: EditFields)
    requires p.Valid()
    modifies p`zones, p`body
    ensures p.Valid()
    ensures var found := FindNode(AllCards(old(p.zones), old(p.body)), n);
            (found.None? ==> p.zones == old(p.zones) && p.body == old(p.body))
            && (found.Some? ==> p.zones == ReplaceZones(old(p.zones), Edited(found.value, f))
                                && p.body == Replace(old(p.body), Edited(found.value, f)))
  {
    var found := FindNode(AllCards(p.zones, p.body), n);
    if found.Some? {
      p.Patch(Edited(found.value, f));
    }
  }

  /** The reply to the edit request. A successful reply patches the card with the values the
      inputs hold now, closes the modal and, for a personal card, sorts the list; any other
      parsed reply changes nothing (the button keeps reading "Saving..."); a failed request makes
      the button read "Error" and schedules its reset. */
  method Receive(p: Page, m: EditModal, reply: Reply)
    requires p.Valid()
    modifies p`zones, p`body, m`open, m`button, m`resets
    ensures p.Valid()
    ensures reply.NetworkError? ==>
              m.button == SaveFailed && m.resets == old(m.resets) + 1 && m.open == old(m.open)
              && p.zones == old(p.zones) && p.body == old(p.body)
    ensures reply.Obj? && !Succeeded(reply) ==>
              m.button == old(m.button) && m.resets == old(m.resets) && m.open == old(m.open)
              && p.zones == old(p.zones) && p.body == old(p.body)
    ensures Succeeded(reply) ==>
              !m.open && m.button == old(m.button) && m.resets == old(m.resets)
              && var found := FindNode(AllCards(old(p.zones), old(p.body)), m.node);
                 var zs := if found.Some? then ReplaceZones(old(p.zones), Edited(found.value, m.fields)) else old(p.zones);
                 (found.Some? ==> p.body == Replace(old(p.body), Edited(found.value, m.fields)))
                 && (found.None? ==> p.body == old(p.body))
                 && (m.collab ==> p.zones == zs)
                 && (!m.collab && FirstZone(zs, NotYetStartedSel).None? ==> p.zones == zs)
                 && (!m.collab && FirstZone(zs, NotYetStartedSel).Some? ==>
                       var t := FirstZone(zs, NotYetStartedSel).value;
                       p.zones == zs[t := zs[t].(cards := SortCards(zs[t].cards, DateTimeKey(p.parse)))])
  {
    if reply.NetworkError? {
      m.button, m.resets := SaveFailed, m.resets + 1;
      return;
    }
    if !Succeeded(reply) {
      return;
    }
    PatchEdited(p, m.node, m.fields);
    m.open := false;
    if !m.collab {
      SortTasks(p);
    }
  }
}
