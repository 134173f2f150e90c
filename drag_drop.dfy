/** Drag and drop of cards between the status columns, with re-sorting of the target zone
    (static/taskDragDrop.js). Each drop is one atomic step: the request, the reply and the DOM
    changes it causes. */
module DragDrop {

  import opened Common
  import opened Json
  import opened Board
  import opened Sort

  /** The timestamp the comparator reads: `new Date("<task-date> <task-time>")`. */
  function DateKey(parse: string -> Option<int>): Card -> Option<int> {
    (c: Card) => parse(c.date + " " + c.time)
  }

  /** A zone as `sortTasks()` leaves it: drop zones sorted, the others untouched. */
  function SortedIfDropZone(z: Zone, key: Card -> Option<int>): Zone {
    if DropZoneSel in z.sels then z.(cards := SortCards(z.cards, key)) else z
  }

  /** `sortTasks(container)`: only `container` is sorted; `sortTasks()` sorts every drop zone
      independently. */
  method SortTasks(p: Page, container: Option<nat>)
    requires p.Valid() && (container.Some? ==> container.value < |p.zones|)
    modifies p`zones
    ensures p.Valid() && |p.zones| == |old(p.zones)|
    ensures container.Some? ==> var t := container.value;
              p.zones == old(p.zones)[t := old(p.zones[t]).(cards := SortCards(old(p.zones[t].cards), DateKey(p.parse)))]
    ensures container.None? ==>
              forall j :: 0 <= j < |p.zones| ==> p.zones[j] == SortedIfDropZone(old(p.zones[j]), DateKey(p.parse))
  {
    var key := DateKey(p.parse);
    if container.Some? {
      SortZone(p, container.value, key);
    } else {
      var i := 0;
      while i < |p.zones|
        invariant p.Valid() && |p.zones| == |old(p.zones)| && 0 <= i <= |p.zones|
        invariant forall j :: 0 <= j < i ==> p.zones[j] == SortedIfDropZone(old(p.zones[j]), key)
        invariant forall j :: i <= j < |p.zones| ==> p.zones[j] == old(p.zones[j])
      {
        if DropZoneSel in p.zones[i].sels {
          SortZone(p, i, key);
        }
        i := i + 1;
      }
    }
  }

  /** The text of the status toast. A status that is none of the three and not the name of a
      member of `Object.prototype` reads `undefined` from the map. */
  function ToastText(status: string): (r: string)
    ensures ValidStatus(status) <==> r != "Task undefined!"
  {
    if status == "backlog" then "Task moved to Backlog!"
    else if status == "in-progress" then "Task moved to In Progress!"
    else if status == "completed" then "Task moved to Completed!"
    else "Task undefined!"
  }

  /** The target zone as the success path leaves it before the append: a personal move clears a
      `data-empty="true"` zone and drops the attribute, a collaboration move clears a zone holding
      an `.empty-state`. Clearing removes every child, placeholder included. */
  function Cleared(z: Zone, collab: bool): (r: Zone)
    ensures r.sels == z.sels && r.status == z.status && r.dragOver == z.dragOver
    ensures collab ==> !r.placeholder && r.emptyAttr == z.emptyAttr
    ensures collab ==> r.cards == if z.placeholder then [] else z.cards
    ensures !collab ==> !r.emptyAttr && (z.emptyAttr ==> !r.placeholder && r.cards == [])
    ensures !collab && !z.emptyAttr ==> r == z
  {
    if collab then (if z.placeholder then z.(cards := [], placeholder := false) else z)
    else if z.emptyAttr then z.(cards := [], placeholder := false, emptyAttr := false)
    else z
  }

  /** The zones after the success path moved `c` into zone `t` (before any re-sort). */
  function Moved(zs: seq<Zone>, t: nat, c: Card, collab: bool): seq<Zone>
    requires t < |zs|
  {
    var ds := DetachZones(zs, c.node);
    var cl := Cleared(ds[t], collab);
    ds[t := cl.(cards := cl.cards + [c])]
  }

  /** `taskElement.remove()`, the clearing of the target, and `targetZone.appendChild(taskElement)`. */
  method MoveCard(p: Page, t: nat, c: Card, collab: bool)
    requires p.Valid() && t < |p.zones| && c.node < p.nextNode
    modifies p`zones, p`body
    ensures p.Valid()
    ensures p.zones == Moved(old(p.zones), t, c, collab) && p.body == Without(old(p.body), c.node)
    ensures Occ(p.zones, p.body, c.node) == 1 && c in p.zones[t].cards
    ensures collab ==> !p.zones[t].placeholder
    ensures !collab && old(p.zones[t].emptyAttr) ==> !p.zones[t].placeholder && p.zones[t].cards == [c]
  {
    p.Remove(c.node);
    var z := p.zones[t];
    var cl := Cleared(z, collab);
    p.SetZone(t, cl);
    assert Occ(p.zones, p.body, c.node) == 0;
    DetachAbsent(p.zones, p.body, c.node);
    p.AppendToZone(t, c);
  }

  /** A card found by `querySelector` is on the page, so its identity was handed out. */
  lemma FoundIsLive(zs: seq<Zone>, body: seq<Card>, next: nat, c: Card)
    requires PageOk(zs, body, next) && c in AllCards(zs, body)
    ensures c.node < next
  {
    InPage(zs, body, c);
  }

  /** The guard of the drop handler: a card with the dragged id exists and the column has a
      non-empty `data-status`. */
  predicate DropGuard(found: Option<Card>, status: Option<string>) {
    found.Some? && status.Some? && status.value != ""
  }

  /** The status request a drop of card `c` sends. */
  function MoveRequest(taskId: string, status: string, c: Card): (r: Request)
    ensures r.verb == "PUT" && r.body == map["status" := Str(status)]
    ensures c.collab ==> r.url == "/update_collab_task_status/" + taskId
    ensures !c.collab ==> r.url == "/update_task_status/" + taskId
  {
    Request("PUT", (if c.collab then "/update_collab_task_status/" else "/update_task_status/") + taskId,
            map["status" := Str(status)])
  }

  /** Sorting zone `t` keeps every card in it and every count of the page. */
  lemma SortedZoneKeeps(zs: seq<Zone>, body: seq<Card>, t: nat, key: Card -> Option<int>, c: Card)
    requires t < |zs| && c in zs[t].cards
    ensures var after := zs[t := zs[t].(cards := SortCards(zs[t].cards, key))];
            c in after[t].cards && forall n :: Occ(after, body, n) == Occ(zs, body, n)
  {
    var after := zs[t := zs[t].(cards := SortCards(zs[t].cards, key))];
    SortPerm(zs[t].cards, key);
    assert c in multiset(zs[t].cards);
    assert c in multiset(after[t].cards);
    forall n ensures Occ(after, body, n) == Occ(zs, body, n) {
      SortCount(zs[t].cards, key, n);
      ZoneCountUpdate(zs, t, after[t], n);
    }
  }

  /** The success path of a move: the card goes into zone `t`, the zone is sorted, and the toast
      for `status` is shown. */
  method MoveAndSort(p: Page, t: nat, c: Card, status: string)
    requires p.Valid() && t < |p.zones| && c.node < p.nextNode
    modifies p`zones, p`body, p`toasts
    ensures p.Valid()
    ensures var mv := Moved(old(p.zones), t, c, c.collab);
            p.zones == mv[t := mv[t].(cards := SortCards(mv[t].cards, DateKey(p.parse)))]
    ensures p.body == Without(old(p.body), c.node)
    ensures Occ(p.zones, p.body, c.node) == 1 && c in p.zones[t].cards
    ensures p.toasts == old(p.toasts) + [ToastText(status)]
  {
    MoveCard(p, t, c, c.collab);
    SortedZoneKeeps(p.zones, p.body, t, DateKey(p.parse), c);
    SortZone(p, t, DateKey(p.parse));
    p.toasts := p.toasts + [ToastText(status)];
  }

  /** The drop handler of zone `t`, followed by the reply to its request: the zone loses
      `drag-over`; a failed guard sends nothing; a success moves the card into the zone, sorts the
      zone and shows the toast; any other reply reloads the page. */
  method Drop(p: Page, t: nat, taskId: string, reply: Reply) returns (req: Option<Request>)
    requires p.Valid() && t < |p.zones| && DropZoneSel in p.zones[t].sels
    modifies p`zones, p`body, p`toasts, p`reloads
    ensures p.Valid()
    ensures var found := FindById(old(p.zones), old(p.body), taskId);
            var status := old(p.zones[t].status);
            var z0 := old(p.zones)[t := old(p.zones[t]).(dragOver := false)];
            if !DropGuard(found, status) then
              req.None? && p.zones == z0 && p.body == old(p.body)
              && p.toasts == old(p.toasts) && p.reloads == old(p.reloads)
            else
              var c := found.value;
              req == Some(MoveRequest(taskId, status.value, c))
              && (Succeeded(reply) ==>
                    var mv := Moved(z0, t, c, c.collab);
                    p.zones == mv[t := mv[t].(cards := SortCards(mv[t].cards, DateKey(p.parse)))]
                    && p.body == Without(old(p.body), c.node)
                    && Occ(p.zones, p.body, c.node) == 1 && c in p.zones[t].cards
                    && p.toasts == old(p.toasts) + [ToastText(status.value)] && p.reloads == old(p.reloads))
              && (!Succeeded(reply) ==>
                    p.zones == z0 && p.body == old(p.body)
                    && p.toasts == old(p.toasts) && p.reloads == old(p.reloads) + 1)
  {
    // The lookup and the status are read before the flag is dropped; the flag does not affect them.
    var found := FindById(p.zones, p.body, taskId);
    var status := p.zones[t].status;
    p.SetZone(t, p.zones[t].(dragOver := false));
    if !DropGuard(found, status) {
      return None;
    }
    var c := found.value;
    FoundIsLive(old(p.zones), old(p.body), p.nextNode, c);
    req := Some(MoveRequest(taskId, status.value, c));
    if Succeeded(reply) {
      MoveAndSort(p, t, c, status.value);
    } else {
      p.reloads := p.reloads + 1;
    }
  }

  /** `dragstart` on card `c`, as it now stands on the page: the card gets the `dragging` class and its `data-id` goes into the transfer
      (`"undefined"` when it has none). */
  method DragStart(p: Page, c: Card) returns (transfer: string)
    requires p.Valid() && c in AllCards(p.zones, p.body)
    modifies p`zones, p`body
    ensures p.Valid()
    ensures transfer == if c.dataId.Some? then c.dataId.value else "undefined"
    ensures p.zones == ReplaceZones(old(p.zones), c.(dragging := true))
    ensures p.body == Replace(old(p.body), c.(dragging := true))
  {
    transfer := if c.dataId.Some? then c.dataId.value else "undefined";
    p.Patch(c.(dragging := true));
  }

  /** A zone with `drag-over` removed if it is a drop zone. */
  function Calm(z: Zone): (r: Zone)
    ensures DropZoneSel in z.sels ==> !r.dragOver
    ensures r.(dragOver := z.dragOver) == z
  {
    if DropZoneSel in z.sels then z.(dragOver := false) else z
  }

  /** `dragend` on card `c`, as it now stands on the page: the card loses `dragging`, and every drop zone loses `drag-over`, whatever became
      of the drop. */
  method DragEnd(p: Page, c: Card)
    requires p.Valid() && c in AllCards(p.zones, p.body)
    modifies p`zones, p`body
    ensures p.Valid()
    ensures var patched := ReplaceZones(old(p.zones), c.(dragging := false));
            |p.zones| == |patched| && forall j :: 0 <= j < |p.zones| ==> p.zones[j] == Calm(patched[j])
    ensures p.body == Replace(old(p.body), c.(dragging := false))
    ensures forall j :: 0 <= j < |p.zones| && DropZoneSel in p.zones[j].sels ==> !p.zones[j].dragOver
  {
    p.Patch(c.(dragging := false));
    CalmAll(p);
  }

  /** `document.querySelectorAll('.drop-zone').forEach(z => z.classList.remove('drag-over'))`. */
  method CalmAll(p: Page)
    requires p.Valid()
    modifies p`zones
    ensures p.Valid()
    ensures |p.zones| == |old(p.zones)| && forall j :: 0 <= j < |p.zones| ==> p.zones[j] == Calm(old(p.zones[j]))
  {
    var i := 0;
    while i < |p.zones|
      invariant p.Valid() && |p.zones| == |old(p.zones)| && 0 <= i <= |p.zones|
      invariant forall j :: 0 <= j < i ==> p.zones[j] == Calm(old(p.zones[j]))
      invariant forall j :: i <= j < |p.zones| ==> p.zones[j] == old(p.zones[j])
    {
      p.SetZone(i, Calm(p.zones[i]));
      i := i + 1;
    }
  }

  /** `dragover` on drop zone `t`. */
  method DragOver(p: Page, t: nat)
    requires p.Valid() && t < |p.zones| && DropZoneSel in p.zones[t].sels
    modifies p`zones
    ensures p.Valid()
    ensures p.zones == old(p.zones)[t := old(p.zones[t]).(dragOver := true)]
  {
    p.SetZone(t, p.zones[t].(dragOver := true));
  }

  /** `dragleave` on drop zone `t`: the flag goes only when the mouse pointer left for an element outside the
      zone. */
  method DragLeave(p: Page, t: nat, relatedInside: bool)
    requires p.Valid() && t < |p.zones| && DropZoneSel in p.zones[t].sels
    modifies p`zones
    ensures p.Valid()
    ensures relatedInside ==> p.zones == old(p.zones)
    ensures !relatedInside ==> p.zones == old(p.zones)[t := old(p.zones[t]).(dragOver := false)]
  {
    if !relatedInside {
      p.SetZone(t, p.zones[t].(dragOver := false));
    }
  }
}
