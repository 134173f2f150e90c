/** The drag-and-drop variant of the single-list page (get-it-done/static/taskDragDrop.js). Its
    drag handlers, guard, request and target clearing are those of `DragDrop`; the difference is
    that a successful move does not re-sort, so the card stays last in its new zone. */
module DragDropLite {

  import opened Common
  import opened Json
  import opened Board
  import opened DragDrop

  /** The drop handler of zone `t` and the reply to its request, without the re-sort. */
  method Drop(p: Page, t: nat, taskId: string, reply: Reply) returns (req: Option<Request>)
    requires p.Valid() && t < |p.zones| && DropZoneSel in p.zones[t].sels
    modifies p`zones, p`body, p`toasts, p`reloads
    ensures p.Valid()
    ensures var found := FindById(old(p.zones), old(p.body), taskId);
            var status := old(p.zones[t].status);
            var z0 := old(p.zones)[t := old(p.zones[t]).(dragOver := false)];
            if !DropGuard(found, status) then
              req.None? && p.zones == z0 && p.body == old(p.body)
              && p.toasts == old(p.toasts) && p.reloads == old(p.reloads)
            else
              var c := found.value;
              req == Some(MoveRequest(taskId, status.value, c))
              && (Succeeded(reply) ==>
                    p.zones == Moved(z0, t, c, c.collab) && p.body == Without(old(p.body), c.node)
                    && Occ(p.zones, p.body, c.node) == 1
                    && |p.zones[t].cards| > 0 && p.zones[t].cards[|p.zones[t].cards| - 1] == c
                    && p.toasts == old(p.toasts) + [ToastText(status.value)] && p.reloads == old(p.reloads))
              && (!Succeeded(reply) ==>
                    p.zones == z0 && p.body == old(p.body)
                    && p.toasts == old(p.toasts) && p.reloads == old(p.reloads) + 1)
  {
    var found := FindById(p.zones, p.body, taskId);
    var status := p.zones[t].status;
    p.SetZone(t, p.zones[t].(dragOver := false));
    if !DropGuard(found, status) {
      return None;
    }
    var c := found.value;
    FoundIsLive(old(p.zones), old(p.body), p.nextNode, c);
    req := Some(MoveRequest(taskId, status.value, c));
    if Succeeded(reply) {
      MoveCard(p, t, c, c.collab);
      p.toasts := p.toasts + [ToastText(status.value)];
    } else {
      p.reloads := p.reloads + 1;
    }
  }
}
