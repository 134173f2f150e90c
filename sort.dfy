/** The card comparator both client sorts use, and the array sort it is handed to.

    The comparator ranks a card by the first of the classes high, mid, low it carries (1, 2,
    3). Cards of different rank compare by rank; a card without any of the three classes has no
    rank, and the subtraction then yields NaN, which the array sort treats as "equal". Cards of
    the same rank (or both without one) compare by timestamp, where an unreadable date is NaN
    and so again "equal". `Array.prototype.sort` is stable; it is modelled as a stable insertion
    sort that inserts each card after the rightmost card it does not sort before.

    The language fixes the result of the sort only for a consistent comparator. Here that means
    every card has a rank, and within a rank either every timestamp is readable or none is
    (`Coherent`). Then every stable sort gives the same order, and the lemmas on order below
    assume it. Otherwise (an unranked card among ranked ones, or readable and unreadable
    timestamps in one rank) the order is implementation-defined and `SortCards` is one of the
    permitted outcomes. */
module Sort {

  import opened Common
  import opened Board

  datatype Ordering = Less | Equal | Greater

  /** 1, 2 or 3 for the first of high, mid, low found on the card. */
  function Rank(c: Card): (r: Option<nat>)
    ensures r.Some? <==> High in c.prio || Mid in c.prio || Low in c.prio
    ensures r == Some(1) <==> High in c.prio
    ensures r == Some(2) <==> High !in c.prio && Mid in c.prio
    ensures r == Some(3) <==> High !in c.prio && Mid !in c.prio && Low in c.prio
  {
    if High in c.prio then Some(1)
    else if Mid in c.prio then Some(2)
    else if Low in c.prio then Some(3)
    else None
  }

  function Sign(d: int): Ordering {
    if d < 0 then Less else if d > 0 then Greater else Equal
  }

  /** The comparator, with its NaN results read as "equal". */
  function Compare(a: Card, b: Card, ts: Card -> Option<int>): Ordering {
    if Rank(a) != Rank(b) then
      (if Rank(a).Some? && Rank(b).Some? then Sign(Rank(a).value - Rank(b).value) else Equal)
    else if ts(a).Some? && ts(b).Some? then Sign(ts(a).value - ts(b).value)
    else Equal
  }

  /** Inserts `x` after the rightmost card it does not sort before. */
  function Insert(x: Card, s: seq<Card>, ts: Card -> Option<int>): (r: seq<Card>)
    ensures |r| == |s| + 1
  {
    if s == [] then [x]
    else if Compare(x, s[|s| - 1], ts) == Less then Insert(x, s[..|s| - 1], ts) + [s[|s| - 1]]
    else s + [x]
  }

  /** `Array.from(cards).sort(comparator)`. */
  function SortCards(cs: seq<Card>, ts: Card -> Option<int>): (r: seq<Card>)
    ensures |r| == |cs|
  {
    if cs == [] then [] else Insert(cs[|cs| - 1], SortCards(cs[..|cs| - 1], ts), ts)
  }

  // ---- permutation -------------------------------------------------------------------------

  lemma {:induction false} InsertPerm(x: Card, s: seq<Card>, ts: Card -> Option<int>)
    ensures multiset(Insert(x, s, ts)) == multiset(s) + multiset{x}
  {
    if s != [] && Compare(x, s[|s| - 1], ts) == Less {
      InsertPerm(x, s[..|s| - 1], ts);
      assert s == s[..|s| - 1] + [s[|s| - 1]];
    }
  }

  /** Sorting is a permutation: the zone ends with exactly the cards it had. */
  lemma {:induction false} SortPerm(cs: seq<Card>, ts: Card -> Option<int>)
    ensures multiset(SortCards(cs, ts)) == multiset(cs)
  {
    if cs != [] {
      var init, last := cs[..|cs| - 1], cs[|cs| - 1];
      assert multiset(SortCards(init, ts)) == multiset(init) by {
        SortPerm(init, ts);
      }
      assert multiset(SortCards(cs, ts)) == multiset(SortCards(init, ts)) + multiset{last} by {
        InsertPerm(last, SortCards(init, ts), ts);
      }
      assert cs == init + [last];
    }
  }

  lemma {:induction false} InsertCount(x: Card, s: seq<Card>, ts: Card -> Option<int>, n: nat)
    ensures CountNode(Insert(x, s, ts), n) == CountNode(s, n) + (if x.node == n then 1 else 0)
  {
    if s == [] {
    } else if Compare(x, s[|s| - 1], ts) == Less {
      InsertCount(x, s[..|s| - 1], ts, n);
      CountAppend(Insert(x, s[..|s| - 1], ts), [s[|s| - 1]], n);
      CountAppend(s[..|s| - 1], [s[|s| - 1]], n);
      assert s == s[..|s| - 1] + [s[|s| - 1]];
    } else {
      CountAppend(s, [x], n);
    }
  }

  /** Sorting moves no element into or out of the zone. */
  lemma {:induction false} SortCount(cs: seq<Card>, ts: Card -> Option<int>, n: nat)
    ensures CountNode(SortCards(cs, ts), n) == CountNode(cs, n)
  {
    if cs != [] {
      SortCount(cs[..|cs| - 1], ts, n);
      InsertCount(cs[|cs| - 1], SortCards(cs[..|cs| - 1], ts), ts, n);
      CountAppend(cs[..|cs| - 1], [cs[|cs| - 1]], n);
      assert cs == cs[..|cs| - 1] + [cs[|cs| - 1]];
    }
  }

  // ---- stability -----------------------------------------------------------------------------

  /** The cards of `cs` whose rank is `r` and whose timestamp is `t`, in order. */
  function Group(cs: seq<Card>, r: Option<nat>, t: Option<int>, ts: Card -> Option<int>): seq<Card> {
    if cs == [] then []
    else Group(cs[..|cs| - 1], r, t, ts)
         + (if Rank(cs[|cs| - 1]) == r && ts(cs[|cs| - 1]) == t then [cs[|cs| - 1]] else [])
  }

  lemma {:induction false} GroupAppend(a: seq<Card>, b: seq<Card>, r: Option<nat>, t: Option<int>, ts: Card -> Option<int>)
    ensures Group(a + b, r, t, ts) == Group(a, r, t, ts) + Group(b, r, t, ts)
    decreases |b|
  {
    if b == [] {
      assert a + b == a;
    } else {
      assert (a + b)[..|a + b| - 1] == a + b[..|b| - 1];
      GroupAppend(a, b[..|b| - 1], r, t, ts);
    }
  }

  /** Cards with the same rank and the same timestamp always compare equal, so a card that
      sorts before another differs from it in rank or in timestamp. */
  lemma LessDiffers(a: Card, b: Card, ts: Card -> Option<int>)
    requires Compare(a, b, ts) == Less
    ensures Rank(a) != Rank(b) || ts(a) != ts(b)
  {
  }

  lemma {:induction false} InsertGroup(x: Card, s: seq<Card>, r: Option<nat>, t: Option<int>, ts: Card -> Option<int>)
    ensures Group(Insert(x, s, ts), r, t, ts)
            == Group(s, r, t, ts) + (if Rank(x) == r && ts(x) == t then [x] else [])
  {
    if s == [] {
      assert Group([x], r, t, ts) == Group([], r, t, ts) + (if Rank(x) == r && ts(x) == t then [x] else []);
    } else if Compare(x, s[|s| - 1], ts) == Less {
      InsertGroup(x, s[..|s| - 1], r, t, ts);
      InsertGroupBefore(x, s[..|s| - 1], s[|s| - 1], r, t, ts);
      assert s == s[..|s| - 1] + [s[|s| - 1]];
    } else {
      GroupAppend(s, [x], r, t, ts);
    }
  }

  /** The step of `InsertGroup` where `x` moves in front of the last card. */
  lemma InsertGroupBefore(x: Card, init: seq<Card>, last: Card, r: Option<nat>, t: Option<int>, ts: Card -> Option<int>)
    requires Compare(x, last, ts) == Less
    requires Group(Insert(x, init, ts), r, t, ts)
             == Group(init, r, t, ts) + (if Rank(x) == r && ts(x) == t then [x] else [])
    ensures Group(Insert(x, init + [last], ts), r, t, ts)
            == Group(init + [last], r, t, ts) + (if Rank(x) == r && ts(x) == t then [x] else [])
  {
    var s := init + [last];
    assert s[..|s| - 1] == init && s[|s| - 1] == last;
    assert Insert(x, s, ts) == Insert(x, init, ts) + [last];
    GroupAppend(Insert(x, init, ts), [last], r, t, ts);
    GroupAppend(init, [last], r, t, ts);
    LessDiffers(x, last, ts);
  }

  /** Every card has a rank, and cards of one rank have either all readable or all unreadable
      timestamps: the comparator then compares consistently. */
  predicate Coherent(cs: seq<Card>, ts: Card -> Option<int>) {
    (forall i :: 0 <= i < |cs| ==> Rank(cs[i]).Some?)
    && forall i, j :: 0 <= i < |cs| && 0 <= j < |cs| && Rank(cs[i]) == Rank(cs[j]) ==>
         (ts(cs[i]).Some? <==> ts(cs[j]).Some?)
  }

  lemma CoherentPrefix(cs: seq<Card>, ts: Card -> Option<int>)
    requires Coherent(cs, ts) && cs != []
    ensures Coherent(cs[..|cs| - 1], ts)
  {
    var init := cs[..|cs| - 1];
    assert forall i :: 0 <= i < |init| ==> init[i] == cs[i];
  }

  /** Stability: with a consistent comparator, cards of equal rank and equal timestamp keep
      their prior relative order. */
  lemma {:induction false} SortStable(cs: seq<Card>, r: Option<nat>, t: Option<int>, ts: Card -> Option<int>)
    requires Coherent(cs, ts)
    ensures Group(SortCards(cs, ts), r, t, ts) == Group(cs, r, t, ts)
  {
    if cs != [] {
      CoherentPrefix(cs, ts);
      SortStable(cs[..|cs| - 1], r, t, ts);
      InsertGroup(cs[|cs| - 1], SortCards(cs[..|cs| - 1], ts), r, t, ts);
    }
  }

  // ---- order -----------------------------------------------------------------------------------

  /** Every card in `cs` has a rank. */
  predicate AllRanked(cs: seq<Card>) {
    forall i :: 0 <= i < |cs| ==> Rank(cs[i]).Some?
  }

  /** Ranks never decrease along `cs`. */
  predicate RankSorted(cs: seq<Card>)
    requires AllRanked(cs)
  {
    forall i, j :: 0 <= i < j < |cs| ==> Rank(cs[i]).value <= Rank(cs[j]).value
  }

  /** The cards of `Insert(x, s)` are `x` and the cards of `s`. */
  lemma InsertElems(x: Card, s: seq<Card>, ts: Card -> Option<int>)
    ensures forall c :: c in Insert(x, s, ts) <==> c == x || c in s
  {
    InsertPerm(x, s, ts);
    forall c ensures c in Insert(x, s, ts) <==> c == x || c in s {
      assert c in Insert(x, s, ts) <==> c in multiset(Insert(x, s, ts));
      assert c in s <==> c in multiset(s);
    }
  }

  lemma RankSnoc(s: seq<Card>, x: Card)
    requires AllRanked(s) && RankSorted(s) && Rank(x).Some?
    requires forall c :: c in s ==> Rank(c).Some? && Rank(c).value <= Rank(x).value
    ensures AllRanked(s + [x]) && RankSorted(s + [x])
  {
    var r := s + [x];
    forall i, j | 0 <= i < j < |r| ensures Rank(r[i]).value <= Rank(r[j]).value {
      if j == |s| {
        assert r[i] in s;
      }
    }
  }

  lemma {:induction false} InsertRankSorted(x: Card, s: seq<Card>, ts: Card -> Option<int>)
    requires Rank(x).Some? && AllRanked(s) && RankSorted(s)
    ensures AllRanked(Insert(x, s, ts)) && RankSorted(Insert(x, s, ts))
  {
    if s != [] {
      var init, last := s[..|s| - 1], s[|s| - 1];
      assert forall c :: c in init ==> Rank(c).Some? && Rank(c).value <= Rank(last).value by {
        forall c | c in init ensures Rank(c).Some? && Rank(c).value <= Rank(last).value {
          var i :| 0 <= i < |init| && init[i] == c;
          assert s[i] == c;
        }
      }
      if Compare(x, last, ts) == Less {
        InsertRankSorted(x, init, ts);
        InsertElems(x, init, ts);
        RankSnoc(Insert(x, init, ts), last);
      } else {
        assert s == init + [last];
        RankSnoc(s, x);
      }
    }
  }

  /** With a consistent comparator, a lower rank always sorts before a higher one, whatever the
      dates and times. */
  lemma {:induction false} SortRankSorted(cs: seq<Card>, ts: Card -> Option<int>)
    requires Coherent(cs, ts)
    ensures AllRanked(SortCards(cs, ts)) && RankSorted(SortCards(cs, ts))
  {
    if cs != [] {
      CoherentPrefix(cs, ts);
      SortRankSorted(cs[..|cs| - 1], ts);
      InsertRankSorted(cs[|cs| - 1], SortCards(cs[..|cs| - 1], ts), ts);
    }
  }

  /** Every card has a rank and a readable timestamp: the comparator is then a total order on
      (rank, timestamp). */
  predicate Consistent(cs: seq<Card>, ts: Card -> Option<int>) {
    forall i :: 0 <= i < |cs| ==> Rank(cs[i]).Some? && ts(cs[i]).Some?
  }

  /** `a` may come before `b`: lower rank, or the same rank and an earlier or equal timestamp. */
  predicate Before(a: Card, b: Card, ts: Card -> Option<int>)
    requires Rank(a).Some? && Rank(b).Some? && ts(a).Some? && ts(b).Some?
  {
    Rank(a).value < Rank(b).value || (Rank(a) == Rank(b) && ts(a).value <= ts(b).value)
  }

  predicate FullySorted(cs: seq<Card>, ts: Card -> Option<int>)
    requires Consistent(cs, ts)
  {
    forall i, j :: 0 <= i < j < |cs| ==> Before(cs[i], cs[j], ts)
  }

  lemma FullSnoc(s: seq<Card>, x: Card, ts: Card -> Option<int>)
    requires Consistent(s, ts) && FullySorted(s, ts) && Rank(x).Some? && ts(x).Some?
    requires forall c :: c in s ==> Rank(c).Some? && ts(c).Some? && Before(c, x, ts)
    ensures Consistent(s + [x], ts) && FullySorted(s + [x], ts)
  {
    var r := s + [x];
    forall i, j | 0 <= i < j < |r| ensures Before(r[i], r[j], ts) {
      if j == |s| {
        assert r[i] in s;
      }
    }
  }

  lemma {:induction false} InsertFullySorted(x: Card, s: seq<Card>, ts: Card -> Option<int>)
    requires Rank(x).Some? && ts(x).Some? && Consistent(s, ts) && FullySorted(s, ts)
    ensures Consistent(Insert(x, s, ts), ts) && FullySorted(Insert(x, s, ts), ts)
  {
    if s != [] {
      var init, last := s[..|s| - 1], s[|s| - 1];
      assert forall c :: c in init ==> Rank(c).Some? && ts(c).Some? && Before(c, last, ts) by {
        forall c | c in init ensures Rank(c).Some? && ts(c).Some? && Before(c, last, ts) {
          var i :| 0 <= i < |init| && init[i] == c;
          assert s[i] == c;
        }
      }
      if Compare(x, last, ts) == Less {
        InsertFullySorted(x, init, ts);
        InsertElems(x, init, ts);
        FullSnoc(Insert(x, init, ts), last, ts);
      } else {
        assert s == init + [last];
        assert forall c :: c in s ==> c in init || c == last;
        FullSnoc(s, x, ts);
      }
    }
  }

  /** When every card has a rank and a readable timestamp, the zone ends sorted by rank and then
      by ascending timestamp. */
  lemma {:induction false} SortFullySorted(cs: seq<Card>, ts: Card -> Option<int>)
    requires Consistent(cs, ts)
    ensures Consistent(SortCards(cs, ts), ts) && FullySorted(SortCards(cs, ts), ts)
  {
    if cs != [] {
      SortFullySorted(cs[..|cs| - 1], ts);
      InsertFullySorted(cs[|cs| - 1], SortCards(cs[..|cs| - 1], ts), ts);
    }
  }

  // ---- re-appending the sorted cards ------------------------------------------------------------

  /** The cards of `cs` whose identity is not in `ns`, in order. */
  function Rest(cs: seq<Card>, ns: set<nat>): (r: seq<Card>)
    ensures forall c :: c in r <==> c in cs && c.node !in ns
  {
    if cs == [] then [] else (if cs[0].node in ns then [] else [cs[0]]) + Rest(cs[1..], ns)
  }

  lemma {:induction false} RestNone(cs: seq<Card>)
    ensures Rest(cs, {}) == cs
  {
    if cs != [] {
      RestNone(cs[1..]);
    }
  }

  lemma {:induction false} RestWithout(cs: seq<Card>, ns: set<nat>, n: nat)
    ensures Without(Rest(cs, ns), n) == Rest(cs, ns + {n})
  {
    if cs != [] {
      RestWithout(cs[1..], ns, n);
      WithoutAppend(if cs[0].node in ns then [] else [cs[0]], Rest(cs[1..], ns), n);
    }
  }

  lemma {:induction false} WithoutAppend(a: seq<Card>, b: seq<Card>, n: nat)
    ensures Without(a + b, n) == Without(a, n) + Without(b, n)
  {
    if a == [] {
      assert a + b == b;
    } else {
      assert (a + b)[1..] == a[1..] + b;
      WithoutAppend(a[1..], b, n);
    }
  }

  lemma RestAll(cs: seq<Card>, ns: set<nat>)
    requires forall c :: c in cs ==> c.node in ns
    ensures Rest(cs, ns) == []
  {
    if Rest(cs, ns) != [] {
      assert Rest(cs, ns)[0] in Rest(cs, ns);
    }
  }

  /** Two positions of a sequence in which no identity occurs twice hold different identities. */
  lemma {:induction false} DistinctAt(cs: seq<Card>, i: nat, j: nat)
    requires forall n :: CountNode(cs, n) <= 1
    requires i < j < |cs|
    ensures cs[i].node != cs[j].node
  {
    if i == 0 {
      assert CountNode(cs, cs[0].node) <= 1;
      CountZero(cs[1..], cs[0].node);
      assert cs[j] == cs[1..][j - 1];
      assert cs[1..][j - 1] in cs[1..];
    } else {
      forall n ensures CountNode(cs[1..], n) <= 1 {
        assert CountNode(cs, n) >= CountNode(cs[1..], n);
      }
      DistinctAt(cs[1..], i - 1, j - 1);
    }
  }

  lemma NodesSnoc(cs: seq<Card>, x: Card)
    ensures NodesOf(cs + [x]) == NodesOf(cs) + {x.node}
  {
    forall n | n in NodesOf(cs + [x]) ensures n in NodesOf(cs) + {x.node} {
      var c :| c in cs + [x] && c.node == n;
      assert c in cs || c == x;
    }
    forall n | n in NodesOf(cs) ensures n in NodesOf(cs + [x]) {
      var c :| c in cs && c.node == n;
      assert c in cs + [x];
    }
    assert x in cs + [x];
  }

  /** The card at position `i` is not among those before it. */
  lemma FreshAt(sorted: seq<Card>, i: nat)
    requires forall n :: CountNode(sorted, n) <= 1
    requires i < |sorted|
    ensures CountNode(sorted[..i], sorted[i].node) == 0
  {
    var done := sorted[..i];
    forall c | c in done ensures c.node != sorted[i].node {
      var k :| 0 <= k < i && done[k] == c;
      DistinctAt(sorted, k, i);
    }
    CountZero(done, sorted[i].node);
  }

  /** One `appendChild` of the loop below: the `i`-th sorted card moves behind those already
      moved. */
  lemma ReorderStep(cs: seq<Card>, sorted: seq<Card>, i: nat)
    requires forall n :: CountNode(sorted, n) <= 1
    requires i < |sorted|
    ensures Without(Rest(cs, NodesOf(sorted[..i])) + sorted[..i], sorted[i].node) + [sorted[i]]
            == Rest(cs, NodesOf(sorted[..i + 1])) + sorted[..i + 1]
  {
    FreshAt(sorted, i);
    MoveOne(cs, sorted[..i], sorted[i]);
    assert sorted[..i + 1] == sorted[..i] + [sorted[i]];
  }

  /** `ReorderStep` for the moved cards `done` and the next card `x`. */
  lemma MoveOne(cs: seq<Card>, done: seq<Card>, x: Card)
    requires CountNode(done, x.node) == 0
    ensures Without(Rest(cs, NodesOf(done)) + done, x.node) + [x]
            == Rest(cs, NodesOf(done + [x])) + (done + [x])
  {
    var r := Rest(cs, NodesOf(done) + {x.node});
    assert Without(Rest(cs, NodesOf(done)) + done, x.node) == r + done by {
      DropMoved(cs, done, x);
    }
    assert Rest(cs, NodesOf(done + [x])) == r by {
      NodesSnoc(done, x);
    }
    assert (r + done) + [x] == r + (done + [x]);
  }

  /** A card not yet moved leaves the unmoved part, and the moved part stays as it is. */
  lemma DropMoved(cs: seq<Card>, done: seq<Card>, x: Card)
    requires CountNode(done, x.node) == 0
    ensures Without(Rest(cs, NodesOf(done)) + done, x.node) == Rest(cs, NodesOf(done) + {x.node}) + done
  {
    WithoutAbsent(done, x.node);
    WithoutAppend(Rest(cs, NodesOf(done)), done, x.node);
    RestWithout(cs, NodesOf(done), x.node);
  }

  /** Once every card is moved, nothing of the former order is left ahead of them. */
  lemma ReorderDone(cs: seq<Card>, sorted: seq<Card>)
    requires forall n :: CountNode(sorted, n) == CountNode(cs, n)
    ensures Rest(cs, NodesOf(sorted)) == []
  {
    forall c | c in cs ensures c.node in NodesOf(sorted) {
      CountZero(cs, c.node);
      CountZero(sorted, c.node);
      var d :| d in sorted && d.node == c.node;
    }
    RestAll(cs, NodesOf(sorted));
  }

  /** `tasks.forEach(task => zone.appendChild(task))`: each card, taken in the order of `sorted`,
      leaves its place among the zone's children and becomes the last child. When `sorted` is a
      rearrangement of the children, they end up in exactly its order. */
  method Reorder(cs: seq<Card>, sorted: seq<Card>) returns (r: seq<Card>)
    requires forall n :: CountNode(cs, n) <= 1
    requires forall n :: CountNode(sorted, n) == CountNode(cs, n)
    ensures r == sorted
  {
    r := cs;
    RestNone(cs);
    assert NodesOf(sorted[..0]) == {};
    assert r == Rest(cs, {}) + [];
    assert forall n :: CountNode(sorted, n) <= 1;
    var i := 0;
    while i < |sorted|
      invariant 0 <= i <= |sorted|
      invariant r == Rest(cs, NodesOf(sorted[..i])) + sorted[..i]
    {
      ReorderStep(cs, sorted, i);
      r := Without(r, sorted[i].node) + [sorted[i]];
      i := i + 1;
    }
    ReorderDone(cs, sorted);
    assert sorted[..i] == sorted;
  }

  /** No identity occurs twice among the children of one zone. */
  lemma ZoneDistinct(zs: seq<Zone>, body: seq<Card>, next: nat, t: nat)
    requires PageOk(zs, body, next) && t < |zs|
    ensures forall n :: CountNode(zs[t].cards, n) <= 1
  {
    forall n ensures CountNode(zs[t].cards, n) <= 1 {
      ZoneCountAt(zs, t, n);
      assert Occ(zs, body, n) <= 1;
    }
  }

  /** Sorts the cards of zone `t` by the comparator with timestamp `key` and re-appends them in
      that order; nothing else on the page changes. */
  method SortZone(p: Page, t: nat, key: Card -> Option<int>)
    requires p.Valid() && t < |p.zones|
    modifies p`zones
    ensures p.Valid()
    ensures p.zones == old(p.zones)[t := old(p.zones[t]).(cards := SortCards(old(p.zones[t].cards), key))]
  {
    var z := p.zones[t];
    var sorted := SortCards(z.cards, key);
    ZoneDistinct(p.zones, p.body, p.nextNode, t);
    forall n ensures CountNode(sorted, n) == CountNode(z.cards, n) {
      SortCount(z.cards, key, n);
    }
    var cs := Reorder(z.cards, sorted);
    p.SetZone(t, z.(cards := cs));
  }
}
