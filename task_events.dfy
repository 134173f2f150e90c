/** Building a card from a server reply, wiring its handlers, and the hover seconds display
    (get-it-done/static/taskEvents.js). */
module TaskEvents {

  import opened Common
  import opened Text
  import opened Json
  import opened Board

  function Spaces(n: nat): (r: string)
    ensures |r| == n && forall i :: 0 <= i < n ==> r[i] == ' '
  {
    if n == 0 then "" else " " + Spaces(n - 1)
  }

  /** The text content of the `.task-time` cell the card template produces around the time: the
      template's line breaks and indentation, the (empty) clock icon, then the time. */
  function TimeCell(time: string): string {
    "\n" + Spaces(16) + "\n" + Spaces(16) + time + "\n" + Spaces(12)
  }

  /** The priorities named among the tokens of a `class` attribute. */
  function PrioOf(classes: string): (r: set<Priority>)
    ensures forall p :: p in r <==> PriorityName(p) in Words(classes)
  {
    set p: Priority | p in {High, Mid, Low} && PriorityName(p) in Words(classes)
  }

  /** `createTaskElement(task)` on a page that is (`collab`) or is not a collaboration page, with
      the new element's identity `node`. It throws, and builds nothing, unless `task.priority` is
      a string, because the badge calls `charAt` on it. */
  function BuildCard(node: nat, task: Reply, collab: bool): (r: Option<Card>)
    requires task.Obj?
    ensures r.Some? <==> Field(task, "priority").Str?
    ensures r.Some? ==> var c := r.value; var pr := Field(task, "priority").s;
              c.node == node && c.dataId == Some(JsText(Field(task, "id")))
              && c.name == JsText(Field(task, "name")) && c.date == JsText(Field(task, "date"))
              && c.prio == PrioOf("task-card " + pr) && c.badge == Capitalize(pr)
              && c.time == TimeCell(JsText(Field(task, "time")))
              && c.collab == collab && c.draggable && c.wired && !c.dragging && !c.fading
              && c.dateTime.None? && c.seconds.None? && c.stale == ""
              && (collab ==> c.meta == Some("Created by: " + JsText(Field(task, "created_by"))))
              && (!collab ==> c.meta.None?)
  {
    match Field(task, "priority")
    case Str(pr) =>
      var built := Card(node, Some(JsText(Field(task, "id"))), JsText(Field(task, "name")),
                        PrioOf("task-card " + pr), Capitalize(pr), JsText(Field(task, "date")),
                        TimeCell(JsText(Field(task, "time"))), None, "", None,
                        if collab then Some("Created by: " + JsText(Field(task, "created_by"))) else None,
                        collab, true, false, false, false);
      Some(AddSecondsDisplay(Attached(built)))
    case _ => None
  }

  /** The class attribute `task-card <p>` for one of the three priorities names exactly that
      priority. */
  lemma {:induction false} PrioOfName(p: Priority)
    ensures PrioOf("task-card " + PriorityName(p)) == {p}
  {
    var w := PriorityName(p);
    WordsSingle(w);
    WordsAfter("task-card", w);
    assert "task-card " + w == "task-card" + " " + w;
    assert Words("task-card " + w) == ["task-card", w];
  }

  /** A first token followed by a space and the rest. */
  lemma WordsAfter(w: string, s: string)
    requires w != [] && forall i :: 0 <= i < |w| ==> !IsAsciiSpace(w[i])
    ensures Words(w + " " + s) == [w] + Words(s)
  {
    var t := w + " " + s;
    WordAtPrefix(w, " " + s);
    assert t == w + (" " + s);
    assert t[0] == w[0];
    assert t[|w|..] == " " + s;
    assert Words(t) == [w] + Words(" " + s);
    assert (" " + s)[1..] == s;
  }

  lemma {:induction false} WordAtPrefix(w: string, s: string)
    requires forall i :: 0 <= i < |w| ==> !IsAsciiSpace(w[i])
    requires s != [] && IsAsciiSpace(s[0])
    ensures WordAt(w + s) == w
  {
    if w != [] {
      assert (w + s)[1..] == w[1..] + s;
      WordAtPrefix(w[1..], s);
    } else {
      assert w + s == s;
    }
  }

  /** `attachTaskEvents`: drag, delete and edit handlers are attached and the card is draggable. */
  function Attached(c: Card): (r: Card)
    ensures r.wired && r.draggable
    ensures r.(wired := c.wired, draggable := c.draggable) == c
  {
    c.(wired := true, draggable := true)
  }

  /** The value of `taskDiv.dataset.id`, read from the card as it is now. `attachTaskEvents`
      captures it when the handlers are attached. The only step that changes a `data-id`, the
      undo, does so on a clone without listeners and attaches a fresh set right after, so with
      one Undo click per notification the two agree. */
  function IdOf(c: Card): (v: Js)
    ensures c.dataId.Some? ==> v == Str(c.dataId.value)
    ensures c.dataId.None? ==> v == Undefined
  {
    if c.dataId.Some? then Str(c.dataId.value) else Undefined
  }

  /** What a click on a card's icons leads to. */
  datatype Action = NoAction | DeleteTask(id: Js) | DeleteCollabTask(id: Js) | OpenEdit(id: Js, collab: bool)

  /** A click on the trash icon, with the answer to the confirmation dialog. */
  function OnDeleteClick(c: Card, confirmed: bool): (a: Action)
    ensures a != NoAction <==> c.wired && confirmed
    ensures a.DeleteCollabTask? <==> c.wired && confirmed && c.collab
    ensures a.DeleteTask? <==> c.wired && confirmed && !c.collab
    ensures a != NoAction ==> a.id == IdOf(c)
  {
    if !c.wired || !confirmed then NoAction
    else if c.collab then DeleteCollabTask(IdOf(c))
    else DeleteTask(IdOf(c))
  }

  /** A click on the pen icon. */
  function OnEditClick(c: Card): (a: Action)
    ensures c.wired ==> a == OpenEdit(IdOf(c), c.collab)
    ensures !c.wired ==> a == NoAction
  {
    if c.wired then OpenEdit(IdOf(c), c.collab) else NoAction
  }

  /** The text content of the `.date-time` element: its own text, then the texts of the seconds
      displays appended to it. */
  function DateTimeText(c: Card): string {
    if c.dateTime.None? then "" else c.dateTime.value + c.stale + (if c.seconds.Some? then c.seconds.value else "")
  }

  /** `addSecondsDisplay`: a card with a `.date-time` element gets a new, empty seconds display
      (an earlier display's text stays in the element's text); any other card is left alone. */
  function AddSecondsDisplay(c: Card): (r: Card)
    ensures c.dateTime.None? ==> r == c
    ensures c.dateTime.Some? ==> r.seconds == Some("") && r.(seconds := c.seconds, stale := c.stale) == c
    ensures DateTimeText(r) == DateTimeText(c)
  {
    if c.dateTime.None? then c
    else c.(stale := c.stale + (if c.seconds.Some? then c.seconds.value else ""), seconds := Some(""))
  }

  predicate AllDigits(d: string) {
    forall i :: 0 <= i < |d| ==> IsDigit(d[i])
  }

  /** Two digits. */
  predicate TwoDigits(d: string) {
    |d| == 2 && IsDigit(d[0]) && IsDigit(d[1])
  }

  /** The `mouseenter` text: the first `H:MM` or `HH:MM` in the trimmed date-time text, with the
      hours padded to two digits, followed by `:` and the random `seconds` padded to two digits.
      No match leaves the display as it was. */
  function HoverText(text: string, seconds: nat): (r: Option<string>)
    requires seconds < 60
    ensures r.None? <==> FirstTime(JsTrim(text)).None?
    ensures r.Some? ==> var t := JsTrim(text); var m := MatchText(t, FirstTime(t).value);
              r.value == Pad2(m[..|m| - 3]) + m[|m| - 3..] + ":" + Pad2(Decimal(seconds))
  {
    var t := JsTrim(text);
    match FirstTime(t)
    case None => None
    case Some(k) =>
      var h := HourLenAt(t, k);
      HoverFields(t, k);
      Some(PaddedField(t[k..k + h]) + ":" + PaddedField(t[k + h + 1..k + h + 3]) + ":" + Pad2(Decimal(seconds)))
  }

  /** The shown text has the shape HH:MM:SS. */
  lemma HoverShape(text: string, seconds: nat)
    requires seconds < 60 && HoverText(text, seconds).Some?
    ensures var r := HoverText(text, seconds).value;
            |r| == 8 && TwoDigits(r[0..2]) && r[2] == ':' && TwoDigits(r[3..5]) && r[5] == ':'
            && TwoDigits(r[6..8])
  {
    var t := JsTrim(text);
    var k := FirstTime(t).value;
    var h := HourLenAt(t, k);
    var m := MatchText(t, k);
    HoverFields(t, k);
    PadDecimalSmall(seconds);
    ClockShape(Pad2(m[..|m| - 3]), t[k + h + 1..k + h + 3], Pad2(Decimal(seconds)));
  }

  lemma ClockShape(hh: string, mm: string, ss: string)
    requires TwoDigits(hh) && TwoDigits(mm) && |ss| == 2 && forall i :: 0 <= i < 2 ==> IsDigit(ss[i])
    ensures var r := hh + (":" + mm) + ":" + ss;
            |r| == 8 && TwoDigits(r[0..2]) && r[2] == ':' && TwoDigits(r[3..5]) && r[5] == ':'
            && TwoDigits(r[6..8])
  {
    var r := hh + (":" + mm) + ":" + ss;
    assert r[0..2] == hh && r[3..5] == mm && r[6..8] == ss;
  }

  /** `parseInt(d).toString().padStart(2, '0')` for a captured field of digits. */
  function PaddedField(d: string): string
    requires AllDigits(d)
  {
    Pad2(Decimal(DigitsValue(d)))
  }

  /** The two captured fields of a match read back as written, the hours padded. */
  lemma HoverFields(t: string, k: nat)
    requires HourLenAt(t, k) > 0
    ensures var h := HourLenAt(t, k);
            var m := MatchText(t, k);
            AllDigits(t[k..k + h]) && AllDigits(t[k + h + 1..k + h + 3])
            && t[k..k + h] == m[..|m| - 3]
            && PaddedField(t[k..k + h]) == Pad2(m[..|m| - 3])
            && PaddedField(t[k + h + 1..k + h + 3]) == t[k + h + 1..k + h + 3]
            && m[|m| - 3..] == ":" + t[k + h + 1..k + h + 3]
            && TwoDigits(Pad2(m[..|m| - 3])) && TwoDigits(t[k + h + 1..k + h + 3])
  {
    var h := HourLenAt(t, k);
    var m := MatchText(t, k);
    var hours, minutes := t[k..k + h], t[k + h + 1..k + h + 3];
    assert m[..|m| - 3] == hours;
    assert m[|m| - 3..] == ":" + minutes;
    PadDecimalOfDigits(hours);
    PadDecimalOfDigits(minutes);
  }

  /** `mouseenter` over the card's date-time. */
  function Hovered(c: Card, seconds: nat): (r: Card)
    requires seconds < 60
    ensures c.dateTime.Some? && c.seconds.Some? && HoverText(DateTimeText(c), seconds).Some?
            ==> r == c.(seconds := HoverText(DateTimeText(c), seconds))
    ensures c.dateTime.None? || c.seconds.None? || HoverText(DateTimeText(c), seconds).None? ==> r == c
  {
    if c.dateTime.Some? && c.seconds.Some? then
      match HoverText(DateTimeText(c), seconds)
      case Some(t) => c.(seconds := Some(t))
      case None => c
    else c
  }

  /** `mouseleave`: the seconds display is emptied. */
  function Left(c: Card): (r: Card)
    ensures c.seconds.Some? ==> r == c.(seconds := Some(""))
    ensures c.seconds.None? ==> r == c
  {
    if c.seconds.Some? then c.(seconds := Some("")) else c
  }

  /** `createTaskElement`: the element takes a fresh identity whether or not the build throws;
      whether the page is a collaboration page is decided now. */
  method CreateTaskElement(p: Page, task: Reply) returns (r: Option<Card>)
    requires p.Valid() && task.Obj?
    modifies p`nextNode
    ensures p.Valid() && p.nextNode == old(p.nextNode) + 1
    ensures r == BuildCard(old(p.nextNode), task, p.IsCollaboration())
    ensures r.Some? ==> Occ(p.zones, p.body, r.value.node) == 0 && r.value.node < p.nextNode
  {
    var n := p.FreshNode();
    r := BuildCard(n, task, p.IsCollaboration());
  }

  /** The hover handlers act on card `c` in place, as it now stands on the page. */
  method MouseEnter(p: Page, c: Card, seconds: nat)
    requires p.Valid() && c in AllCards(p.zones, p.body) && seconds < 60
    modifies p`zones, p`body
    ensures p.Valid()
    ensures p.zones == ReplaceZones(old(p.zones), Hovered(c, seconds))
    ensures p.body == Replace(old(p.body), Hovered(c, seconds))
  {
    p.Patch(Hovered(c, seconds));
  }

  method MouseLeave(p: Page, c: Card)
    requires p.Valid() && c in AllCards(p.zones, p.body)
    modifies p`zones, p`body
    ensures p.Valid()
    ensures p.zones == ReplaceZones(old(p.zones), Left(c)) && p.body == Replace(old(p.body), Left(c))
  {
    p.Patch(Left(c));
  }
}
