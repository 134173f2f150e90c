/** The browser page of the to-do board as the client scripts see it.

    The document is flattened into a sequence of card containers (`zones`), in document order,
    each holding its own card children, plus the cards appended straight to `document.body`.
    Every card carries a DOM identity (`node`) besides its `data-id` attribute, because cards
    restored by undo or built from an error reply may share a `data-id`. The page invariant
    is that every DOM identity occurs at most once. */
module Board {

  import opened Common
  import opened Text
  import opened Json

  datatype Priority = High | Mid | Low

  /** The class name of a priority, as cards, badges and the edit select spell it. */
  function PriorityName(p: Priority): string {
    match p
    case High => "high"
    case Mid => "mid"
    case Low => "low"
  }

  /** A `.task-card` element. `seconds` is the text of the live seconds display installed on the
      `.date-time` element, `stale` the text of displays copied by `cloneNode` whose listeners were
      lost; both are part of the `.date-time` element's text. */
  datatype Card = Card(
    node: nat,                  // DOM identity
    dataId: Option<string>,     // the `data-id` attribute
    name: string,               // text of `.task-name`
    prio: set<Priority>,        // which of the classes high, mid, low the card carries
    badge: string,              // text of `.task-priority-badge`
    date: string,               // text of `.task-date`
    time: string,               // text of `.task-time`
    dateTime: Option<string>,   // own text of `.date-time`, if the card has one
    stale: string,
    seconds: Option<string>,
    meta: Option<string>,       // text of `.task-meta small`, if present
    collab: bool,               // has the `data-collab` attribute
    draggable: bool,
    wired: bool,                // drag, delete and edit listeners attached
    dragging: bool,             // class `dragging`
    fading: bool)               // the fade-out animation is set

  /** Selectors the creation fallback chain and the sorts look containers up by; a container
      records which of them it matches: `.drop-zone`, `.not-yet-started`, `#task-card`,
      `.task-container`, `[data-status="backlog"] .drop-zone`, `[data-status="backlog"]` and
      `.column[data-status="backlog"]`. */
  datatype Sel = DropZoneSel | NotYetStartedSel | TaskCardIdSel | TaskContainerSel
               | BacklogDropZoneSel | BacklogAttrSel | BacklogColumnSel

  /** A card container: its selectors, the `data-status` of the `.column` it sits in, its cards,
      whether it holds an `.empty-state` placeholder, whether it carries `data-empty="true"`, and
      the `drag-over` class. */
  datatype Zone = Zone(
    sels: set<Sel>,
    status: Option<string>,
    cards: seq<Card>,
    placeholder: bool,
    emptyAttr: bool,
    dragOver: bool)

  /** Where a card sits: in a zone (by index) or directly in `document.body`. */
  datatype Parent = InZone(z: nat) | InBody

  // ---- counting DOM identities ------------------------------------------------------------

  function CountNode(cs: seq<Card>, n: nat): nat {
    if cs == [] then 0 else (if cs[0].node == n then 1 else 0) + CountNode(cs[1..], n)
  }

  function ZoneCount(zs: seq<Zone>, n: nat): nat {
    if zs == [] then 0 else CountNode(zs[0].cards, n) + ZoneCount(zs[1..], n)
  }

  /** How many times DOM identity `n` occurs on the page. */
  function Occ(zs: seq<Zone>, body: seq<Card>, n: nat): nat {
    ZoneCount(zs, n) + CountNode(body, n)
  }

  /** The page invariant: no element is in two places, and fresh identities are unused. */
  ghost predicate PageOk(zs: seq<Zone>, body: seq<Card>, next: nat) {
    (forall n :: Occ(zs, body, n) <= 1) && (forall n :: next <= n ==> Occ(zs, body, n) == 0)
  }

  /** The cards with identity `n` removed, the others kept in order. */
  function Without(cs: seq<Card>, n: nat): (r: seq<Card>)
    ensures forall c :: c in r <==> c in cs && c.node != n
  {
    if cs == [] then [] else (if cs[0].node == n then [] else [cs[0]]) + Without(cs[1..], n)
  }

  function NodesOf(cs: seq<Card>): set<nat> {
    set c | c in cs :: c.node
  }

  /** Every container with the element of identity `n` removed (`element.remove()`). */
  function DetachZones(zs: seq<Zone>, n: nat): (r: seq<Zone>)
    ensures |r| == |zs|
    ensures forall i :: 0 <= i < |zs| ==> r[i] == zs[i].(cards := Without(zs[i].cards, n))
  {
    if zs == [] then [] else [zs[0].(cards := Without(zs[0].cards, n))] + DetachZones(zs[1..], n)
  }

  lemma {:induction false} CountAppend(a: seq<Card>, b: seq<Card>, n: nat)
    ensures CountNode(a + b, n) == CountNode(a, n) + CountNode(b, n)
  {
    if a != [] {
      assert (a + b)[1..] == a[1..] + b;
      CountAppend(a[1..], b, n);
    } else {
      assert a + b == b;
    }
  }

  lemma {:induction false} CountWithout(cs: seq<Card>, n: nat, m: nat)
    ensures CountNode(Without(cs, n), m) == if m == n then 0 else CountNode(cs, m)
  {
    if cs != [] {
      CountWithout(cs[1..], n, m);
      CountAppend(if cs[0].node == n then [] else [cs[0]], Without(cs[1..], n), m);
    }
  }

  lemma {:induction false} CountZero(cs: seq<Card>, n: nat)
    ensures CountNode(cs, n) == 0 <==> forall c :: c in cs ==> c.node != n
  {
    if cs != [] {
      CountZero(cs[1..], n);
      assert forall c :: c in cs <==> c == cs[0] || c in cs[1..];
    }
  }

  lemma {:induction false} WithoutAbsent(cs: seq<Card>, n: nat)
    requires CountNode(cs, n) == 0
    ensures Without(cs, n) == cs
  {
    if cs != [] {
      WithoutAbsent(cs[1..], n);
    }
  }

  lemma {:induction false} ZoneCountUpdate(zs: seq<Zone>, t: nat, z: Zone, n: nat)
    requires t < |zs|
    ensures ZoneCount(zs[t := z], n) + CountNode(zs[t].cards, n) == ZoneCount(zs, n) + CountNode(z.cards, n)
  {
    if t > 0 {
      assert zs[t := z][1..] == zs[1..][t - 1 := z];
      ZoneCountUpdate(zs[1..], t - 1, z, n);
    }
  }

  lemma {:induction false} ZoneCountAt(zs: seq<Zone>, t: nat, n: nat)
    requires t < |zs|
    ensures CountNode(zs[t].cards, n) <= ZoneCount(zs, n)
  {
    if t > 0 {
      ZoneCountAt(zs[1..], t - 1, n);
    }
  }

  lemma {:induction false} DetachCount(zs: seq<Zone>, n: nat, m: nat)
    ensures ZoneCount(DetachZones(zs, n), m) == if m == n then 0 else ZoneCount(zs, m)
  {
    if zs != [] {
      DetachCount(zs[1..], n, m);
      CountWithout(zs[0].cards, n, m);
      assert DetachZones(zs, n)[1..] == DetachZones(zs[1..], n);
    }
  }

  /** Removing an element keeps the invariant and takes that one identity off the page. */
  lemma DetachOk(zs: seq<Zone>, body: seq<Card>, next: nat, n: nat)
    requires PageOk(zs, body, next)
    ensures PageOk(DetachZones(zs, n), Without(body, n), next)
    ensures forall m :: Occ(DetachZones(zs, n), Without(body, n), m) == if m == n then 0 else Occ(zs, body, m)
  {
    forall m ensures Occ(DetachZones(zs, n), Without(body, n), m) == if m == n then 0 else Occ(zs, body, m) {
      DetachCount(zs, n, m);
      CountWithout(body, n, m);
    }
  }

  /** Removing an identity the page does not hold changes nothing. */
  lemma DetachAbsent(zs: seq<Zone>, body: seq<Card>, n: nat)
    requires Occ(zs, body, n) == 0
    ensures DetachZones(zs, n) == zs && Without(body, n) == body
  {
    forall j | 0 <= j < |zs| ensures Without(zs[j].cards, n) == zs[j].cards {
      ZoneCountAt(zs, j, n);
      WithoutAbsent(zs[j].cards, n);
    }
    WithoutAbsent(body, n);
  }

  /** Putting a card whose identity is absent from the page at the end of zone `t`. */
  lemma AppendOk(zs: seq<Zone>, body: seq<Card>, next: nat, t: nat, z: Zone, c: Card)
    requires PageOk(zs, body, next) && t < |zs| && c.node < next && Occ(zs, body, c.node) == 0
    requires forall m :: CountNode(z.cards, m) <= CountNode(zs[t].cards, m)
    ensures PageOk(zs[t := z.(cards := z.cards + [c])], body, next)
    ensures forall m :: Occ(zs[t := z.(cards := z.cards + [c])], body, m)
                         == Occ(zs, body, m) - CountNode(zs[t].cards, m) + CountNode(z.cards, m) + (if m == c.node then 1 else 0)
  {
    var zs2 := zs[t := z.(cards := z.cards + [c])];
    forall m ensures Occ(zs2, body, m)
                     == Occ(zs, body, m) - CountNode(zs[t].cards, m) + CountNode(z.cards, m) + (if m == c.node then 1 else 0)
                  && CountNode(zs[t].cards, m) <= Occ(zs, body, m) {
      ZoneCountUpdate(zs, t, z.(cards := z.cards + [c]), m);
      ZoneCountAt(zs, t, m);
      CountAppend(z.cards, [c], m);
      assert CountNode(z.cards, m) <= CountNode(zs[t].cards, m);
    }
    assert PageOk(zs2, body, next);
  }

  /** Putting a card whose identity is absent from the page at the end of the body. */
  lemma AppendBodyOk(zs: seq<Zone>, body: seq<Card>, next: nat, c: Card)
    requires PageOk(zs, body, next) && c.node < next && Occ(zs, body, c.node) == 0
    ensures PageOk(zs, body + [c], next)
    ensures forall m :: Occ(zs, body + [c], m) == Occ(zs, body, m) + (if m == c.node then 1 else 0)
  {
    forall m ensures Occ(zs, body + [c], m) == Occ(zs, body, m) + (if m == c.node then 1 else 0) {
      CountAppend(body, [c], m);
    }
  }

  /** Changing the cards of a zone in a way that never adds an occurrence keeps the invariant. */
  lemma ShrinkOk(zs: seq<Zone>, body: seq<Card>, next: nat, t: nat, z: Zone)
    requires PageOk(zs, body, next) && t < |zs|
    requires forall m :: CountNode(z.cards, m) <= CountNode(zs[t].cards, m)
    ensures PageOk(zs[t := z], body, next)
    ensures forall m :: Occ(zs[t := z], body, m) <= Occ(zs, body, m)
  {
    var zs2 := zs[t := z];
    forall m ensures Occ(zs2, body, m) <= Occ(zs, body, m) {
      ZoneCountUpdate(zs, t, z, m);
      assert CountNode(z.cards, m) <= CountNode(zs[t].cards, m);
    }
    assert PageOk(zs2, body, next);
  }

  // ---- finding elements --------------------------------------------------------------------

  function Flatten(zs: seq<Zone>): seq<Card> {
    if zs == [] then [] else zs[0].cards + Flatten(zs[1..])
  }

  /** Every card of the page in document order. */
  function AllCards(zs: seq<Zone>, body: seq<Card>): seq<Card> {
    Flatten(zs) + body
  }

  lemma {:induction false} FlattenCount(zs: seq<Zone>, n: nat)
    ensures CountNode(Flatten(zs), n) == ZoneCount(zs, n)
  {
    if zs != [] {
      FlattenCount(zs[1..], n);
      CountAppend(zs[0].cards, Flatten(zs[1..]), n);
    }
  }

  /** A card found anywhere in the document is counted on the page. */
  lemma InPage(zs: seq<Zone>, body: seq<Card>, c: Card)
    requires c in AllCards(zs, body)
    ensures Occ(zs, body, c.node) >= 1
  {
    FlattenCount(zs, c.node);
    CountAppend(Flatten(zs), body, c.node);
    CountZero(AllCards(zs, body), c.node);
  }

  /** Index of the first card carrying `data-id` equal to `id`. */
  function FirstWithId(cs: seq<Card>, id: string): (r: Option<nat>)
    ensures r.Some? ==> r.value < |cs| && cs[r.value].dataId == Some(id)
    ensures r.Some? ==> forall j :: 0 <= j < r.value ==> cs[j].dataId != Some(id)
    ensures r.None? ==> forall j :: 0 <= j < |cs| ==> cs[j].dataId != Some(id)
  {
    if cs == [] then None
    else if cs[0].dataId == Some(id) then Some(0)
    else match FirstWithId(cs[1..], id)
      case None => None
      case Some(i) => Some(i + 1)
  }

  /** `document.querySelector('[data-id="<id>"]')`: the first such card in document order. */
  function FindById(zs: seq<Zone>, body: seq<Card>, id: string): (r: Option<Card>)
    ensures r.Some? ==> r.value in AllCards(zs, body) && r.value.dataId == Some(id)
    ensures r.None? ==> forall c :: c in AllCards(zs, body) ==> c.dataId != Some(id)
  {
    var all := AllCards(zs, body);
    match FirstWithId(all, id)
    case None => None
    case Some(i) => Some(all[i])
  }

  /** The card with DOM identity `n`, if the page holds it. */
  function FindNode(cs: seq<Card>, n: nat): (r: Option<Card>)
    ensures r.Some? ==> r.value in cs && r.value.node == n
    ensures r.None? ==> CountNode(cs, n) == 0
  {
    if cs == [] then None else if cs[0].node == n then Some(cs[0]) else FindNode(cs[1..], n)
  }

  /** The parent element of identity `n`: the first zone holding it, else the body. */
  function ParentOf(zs: seq<Zone>, body: seq<Card>, n: nat): (r: Option<Parent>)
    ensures r.Some? && r.value.InZone? ==> r.value.z < |zs| && CountNode(zs[r.value.z].cards, n) > 0
    ensures r == Some(InBody) ==> CountNode(body, n) > 0
    ensures r.None? ==> Occ(zs, body, n) == 0
  {
    if zs == [] then (if CountNode(body, n) > 0 then Some(InBody) else None)
    else if CountNode(zs[0].cards, n) > 0 then Some(InZone(0))
    else match ParentOf(zs[1..], body, n)
      case Some(InZone(z)) => Some(InZone(z + 1))
      case other => other
  }

  /** Every card with identity `c.node` replaced by `c`, order kept. */
  function Replace(cs: seq<Card>, c: Card): (r: seq<Card>)
    ensures |r| == |cs|
    ensures forall i :: 0 <= i < |cs| ==> r[i] == if cs[i].node == c.node then c else cs[i]
  {
    if cs == [] then [] else [if cs[0].node == c.node then c else cs[0]] + Replace(cs[1..], c)
  }

  function ReplaceZones(zs: seq<Zone>, c: Card): (r: seq<Zone>)
    ensures |r| == |zs|
    ensures forall i :: 0 <= i < |zs| ==> r[i] == zs[i].(cards := Replace(zs[i].cards, c))
  {
    if zs == [] then [] else [zs[0].(cards := Replace(zs[0].cards, c))] + ReplaceZones(zs[1..], c)
  }

  lemma {:induction false} ReplaceCount(cs: seq<Card>, c: Card, m: nat)
    ensures CountNode(Replace(cs, c), m) == CountNode(cs, m)
  {
    if cs != [] {
      ReplaceCount(cs[1..], c, m);
      assert Replace(cs, c)[1..] == Replace(cs[1..], c);
    }
  }

  lemma {:induction false} ReplaceZonesCount(zs: seq<Zone>, c: Card, m: nat)
    ensures ZoneCount(ReplaceZones(zs, c), m) == ZoneCount(zs, m)
  {
    if zs != [] {
      ReplaceZonesCount(zs[1..], c, m);
      ReplaceCount(zs[0].cards, c, m);
      assert ReplaceZones(zs, c)[1..] == ReplaceZones(zs[1..], c);
    }
  }

  /** Patching an element in place moves nothing. */
  lemma ReplaceOk(zs: seq<Zone>, body: seq<Card>, next: nat, c: Card)
    requires PageOk(zs, body, next)
    ensures PageOk(ReplaceZones(zs, c), Replace(body, c), next)
    ensures forall m :: Occ(ReplaceZones(zs, c), Replace(body, c), m) == Occ(zs, body, m)
  {
    forall m ensures Occ(ReplaceZones(zs, c), Replace(body, c), m) == Occ(zs, body, m) {
      ReplaceZonesCount(zs, c, m);
      ReplaceCount(body, c, m);
    }
  }

  /** The containers after `parent.appendChild(c)`: the element leaves wherever it was and
      becomes the last child of its new parent. */
  function AppendZones(zs: seq<Zone>, p: Parent, c: Card): (r: seq<Zone>)
    requires p.InZone? ==> p.z < |zs|
    ensures |r| == |zs|
  {
    var ds := DetachZones(zs, c.node);
    if p.InZone? then ds[p.z := ds[p.z].(cards := ds[p.z].cards + [c])] else ds
  }

  /** The body's own cards after `parent.appendChild(c)`. */
  function AppendBody(body: seq<Card>, p: Parent, c: Card): seq<Card> {
    if p.InZone? then Without(body, c.node) else Without(body, c.node) + [c]
  }

  /** `document.querySelector(sel)` among the containers: the first one matching. */
  function FirstZone(zs: seq<Zone>, sel: Sel): (r: Option<nat>)
    ensures r.Some? ==> r.value < |zs| && sel in zs[r.value].sels
    ensures r.Some? ==> forall j :: 0 <= j < r.value ==> sel !in zs[j].sels
    ensures r.None? ==> forall j :: 0 <= j < |zs| ==> sel !in zs[j].sels
  {
    if zs == [] then None
    else if sel in zs[0].sels then Some(0)
    else match FirstZone(zs[1..], sel)
      case None => None
      case Some(i) => Some(i + 1)
  }

  /** Some card of the page carries `data-collab`. */
  predicate AnyCollab(cs: seq<Card>) {
    exists i :: 0 <= i < |cs| && cs[i].collab
  }

  /** What the page's scripts know and change. `listInput` is the value of the
      `#collab-list-id` input, if the page has one; `parse` stands for `new Date(text)` read back
      as a number (None for an invalid date). */
  class Page {
    const listInput: Option<string>
    const parse: string -> Option<int>
    /** Whether the page counted as a collaboration page when the scripts were loaded. */
    const loadCollab: bool
    var zones: seq<Zone>
    var body: seq<Card>
    var nextNode: nat
    var toasts: seq<string>
    var alerts: seq<string>
    var reloads: nat

    ghost predicate Valid()
      reads this
    {
      PageOk(zones, body, nextNode)
    }

    /** `document.querySelector('[data-collab="true"]') || document.getElementById('collab-list-id')`,
        evaluated now. */
    function IsCollaboration(): bool
      reads this
    {
      listInput.Some? || AnyCollab(AllCards(zones, body))
    }

    /** `LIST_ID` as the creation and deletion scripts computed it at load time: the input's
        value on a collaboration page (undefined if the input is missing), `null` elsewhere. */
    function ListId(): Js {
      if !loadCollab then Null else if listInput.Some? then Str(listInput.value) else Undefined
    }

    constructor (zs: seq<Zone>, bd: seq<Card>, next: nat, input: Option<string>, parser: string -> Option<int>)
      requires PageOk(zs, bd, next)
      ensures Valid()
      ensures zones == zs && body == bd && nextNode == next && listInput == input && parse == parser
      ensures loadCollab == IsCollaboration()
      ensures toasts == [] && alerts == [] && reloads == 0
    {
      zones, body, nextNode := zs, bd, next;
      listInput, parse := input, parser;
      loadCollab := input.Some? || AnyCollab(AllCards(zs, bd));
      toasts, alerts, reloads := [], [], 0;
    }

    /** A new element identity (`document.createElement`, `cloneNode`). */
    method FreshNode() returns (n: nat)
      requires Valid()
      modifies this`nextNode
      ensures Valid()
      ensures n == old(nextNode) && nextNode == n + 1 && Occ(zones, body, n) == 0
    {
      n := nextNode;
      nextNode := nextNode + 1;
    }

    /** `element.remove()` for identity `n`; removing an element that is not there does nothing. */
    method Remove(n: nat)
      requires Valid()
      modifies this`zones, this`body
      ensures Valid()
      ensures zones == DetachZones(old(zones), n) && body == Without(old(body), n)
      ensures forall m :: Occ(zones, body, m) == if m == n then 0 else old(Occ(zones, body, m))
    {
      DetachOk(zones, body, nextNode, n);
      zones, body := DetachZones(zones, n), Without(body, n);
    }

    /** `parent.appendChild(c)`: the element leaves wherever it was and becomes the last child of
        zone `t`. */
    method AppendToZone(t: nat, c: Card)
      requires Valid() && t < |zones| && c.node < nextNode
      modifies this`zones, this`body
      ensures Valid()
      ensures var zs := DetachZones(old(zones), c.node);
              zones == zs[t := zs[t].(cards := zs[t].cards + [c])]
      ensures body == Without(old(body), c.node)
      ensures Occ(zones, body, c.node) == 1 && zones[t].cards[|zones[t].cards| - 1] == c
    {
      Remove(c.node);
      AppendOk(zones, body, nextNode, t, zones[t], c);
      zones := zones[t := zones[t].(cards := zones[t].cards + [c])];
    }

    /** `document.body.appendChild(c)`. */
    method AppendToBody(c: Card)
      requires Valid() && c.node < nextNode
      modifies this`zones, this`body
      ensures Valid()
      ensures zones == DetachZones(old(zones), c.node) && body == Without(old(body), c.node) + [c]
      ensures Occ(zones, body, c.node) == 1
    {
      Remove(c.node);
      AppendBodyOk(zones, body, nextNode, c);
      body := body + [c];
    }

    /** Appends `c` to its recorded parent. */
    method AppendTo(p: Parent, c: Card)
      requires Valid() && c.node < nextNode && (p.InZone? ==> p.z < |zones|)
      modifies this`zones, this`body
      ensures Valid()
      ensures Occ(zones, body, c.node) == 1
      ensures zones == AppendZones(old(zones), p, c) && body == AppendBody(old(body), p, c)
    {
      if p.InZone? {
        AppendToZone(p.z, c);
      } else {
        AppendToBody(c);
      }
    }

    /** Changes the element of identity `c.node` in place (text, attributes, classes). */
    method Patch(c: Card)
      requires Valid()
      modifies this`zones, this`body
      ensures Valid()
      ensures zones == ReplaceZones(old(zones), c) && body == Replace(old(body), c)
      ensures forall m :: Occ(zones, body, m) == old(Occ(zones, body, m))
    {
      ReplaceOk(zones, body, nextNode, c);
      zones, body := ReplaceZones(zones, c), Replace(body, c);
    }

    /** Sets zone `t` to `z` when that never adds an element (clearing it, reordering it, toggling
        its flags). */
    method SetZone(t: nat, z: Zone)
      requires Valid() && t < |zones|
      requires forall m :: CountNode(z.cards, m) <= CountNode(zones[t].cards, m)
      modifies this`zones
      ensures Valid()
      ensures zones == old(zones)[t := z]
      ensures forall m :: Occ(zones, body, m) <= old(Occ(zones, body, m))
    {
      ShrinkOk(zones, body, nextNode, t, z);
      zones := zones[t := z];
    }

    /** Removes the `.empty-state` placeholder of zone `t`. */
    method ClearPlaceholder(t: nat)
      requires Valid() && t < |zones|
      modifies this`zones
      ensures Valid() && zones == old(zones)[t := old(zones[t]).(placeholder := false)]
      ensures forall m :: Occ(zones, body, m) == old(Occ(zones, body, m))
    {
      ghost var before := zones;
      SetZone(t, zones[t].(placeholder := false));
      forall m ensures Occ(zones, body, m) == Occ(before, body, m) {
        ZoneCountUpdate(before, t, zones[t], m);
      }
    }
  }
}
