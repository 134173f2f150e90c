/** The sort of the single-list page (get-it-done/static/taskSort.js): only the
    `.not-yet-started` container is reordered, by the comparator of `Sort`, with the timestamp
    read from the card's `.date-time` text. */
module TaskSort {

  import opened Common
  import opened Board
  import opened Sort
  import opened TaskEvents

  /** `new Date(`${card.querySelector('.date-time')?.textContent}`)`: a card without a
      `.date-time` element yields the text `undefined`. */
  function DateTimeKey(parse: string -> Option<int>): Card -> Option<int> {
    (c: Card) => parse(if c.dateTime.Some? then DateTimeText(c) else "undefined")
  }

  /** `sortTasks()`: the first `.not-yet-started` container is sorted in place; without one the
      call does nothing. Zones and cards outside that container do not move. */
  method SortTasks(p: Page)
    requires p.Valid()
    modifies p`zones
    ensures p.Valid()
    ensures FirstZone(old(p.zones), NotYetStartedSel).None? ==> p.zones == old(p.zones)
    ensures FirstZone(old(p.zones), NotYetStartedSel).Some? ==>
              var t := FirstZone(old(p.zones), NotYetStartedSel).value;
              p.zones == old(p.zones)[t := old(p.zones[t]).(cards := SortCards(old(p.zones[t].cards), DateTimeKey(p.parse)))]
  {
    var container := FirstZone(p.zones, NotYetStartedSel);
    if container.None? {
      return;
    }
    SortZone(p, container.value, DateTimeKey(p.parse));
  }

  /** The cards of a given rank that have no `.date-time` element, in order. */
  function Undated(cs: seq<Card>, r: Option<nat>): seq<Card> {
    if cs == [] then []
    else Undated(cs[..|cs| - 1], r) + (if Rank(cs[|cs| - 1]) == r && cs[|cs| - 1].dateTime.None? then [cs[|cs| - 1]] else [])
  }

  /** Cards built by `createTaskElement` carry no `.date-time`. Since `new Date("undefined")` is
      invalid, their timestamps compare as NaN, and when every card has a rank, cards of one
      rank among them keep the order in which they were inserted. */
  lemma UndatedKeepOrder(cs: seq<Card>, r: Option<nat>, parse: string -> Option<int>)
    requires parse("undefined").None?
    requires forall i :: 0 <= i < |cs| ==> cs[i].dateTime.None? && Rank(cs[i]).Some?
    ensures Undated(SortCards(cs, DateTimeKey(parse)), r) == Undated(cs, r)
  {
    var key := DateTimeKey(parse);
    SortPerm(cs, key);
    forall c | c in SortCards(cs, key) ensures c.dateTime.None? {
      assert c in multiset(SortCards(cs, key));
      assert c in multiset(cs);
    }
    UndatedIsGroup(cs, r, parse);
    UndatedIsGroup(SortCards(cs, key), r, parse);
    assert Coherent(cs, key);
    SortStable(cs, r, None, key);
  }

  lemma {:induction false} UndatedIsGroup(cs: seq<Card>, r: Option<nat>, parse: string -> Option<int>)
    requires parse("undefined").None?
    requires forall c :: c in cs ==> c.dateTime.None?
    ensures Undated(cs, r) == Group(cs, r, None, DateTimeKey(parse))
  {
    if cs != [] {
      assert cs[|cs| - 1] in cs;
      assert forall c :: c in cs[..|cs| - 1] ==> c in cs;
      UndatedIsGroup(cs[..|cs| - 1], r, parse);
    }
  }
}
