/** The project carousel: a current index over a non-empty list, moved by
    the previous/next buttons and by the autoplay timer, and a display role
    for every card derived from it. */
module Carousel {
  import ProjectData

  /** `nextProject`: one step forward, wrapping from the last card to the first. */
  function Next(current: nat, total: nat): (r: nat)
    requires current < total
    ensures r < total
    ensures r == (current + 1) % total
  {
    if current == total - 1 then
      ModUnique(total, total, 1, 0);
      0
    else
      ModUnique(current + 1, total, 0, current + 1);
      current + 1
  }

  /** `prevProject`: one step back, wrapping from the first card to the last. */
  function Prev(current: nat, total: nat): (r: nat)
    requires current < total
    ensures r < total
    ensures r == (current - 1 + total) % total
  {
    if current == 0 then
      ModUnique(total - 1, total, 0, total - 1);
      total - 1
    else
      ModUnique(current - 1 + total, total, 1, current - 1);
      current - 1
  }

  /** Each step undoes the other. */
  lemma PrevNextInverse(current: nat, total: nat)
    requires current < total
    ensures Prev(Next(current, total), total) == current
    ensures Next(Prev(current, total), total) == current
  {
  }

  /** `n` forward steps. */
  function Advance(current: nat, total: nat, n: nat): (r: nat)
    requires current < total
    ensures r < total
  {
    if n == 0 then current else Next(Advance(current, total, n - 1), total)
  }

  /** `n` forward steps move the index by `n` modulo the length. */
  lemma {:induction false} AdvanceIsShift(current: nat, total: nat, n: nat)
    requires current < total
    ensures Advance(current, total, n) == (current + n) % total
  {
    if n > 0 {
      AdvanceIsShift(current, total, n - 1);
      NextOfMod(current + n - 1, total);
    }
  }

  /** A full cycle of `total` forward steps returns to the starting card. */
  lemma FullCycle(current: nat, total: nat)
    requires current < total
    ensures Advance(current, total, total) == current
  {
    AdvanceIsShift(current, total, total);
    ModUnique(current + total, total, 1, current);
  }

  /** The display role of one card. */
  datatype Position = Center | Left | Right | Hidden

  /** `getPosition`: the current card is centred; with fewer than three
      cards every other card is hidden; otherwise the card before the
      current one goes left, the card after it goes right, and the rest
      are hidden. */
  function GetPosition(index: nat, current: nat, total: nat): (p: Position)
    requires index < total && current < total
    ensures p == Center <==> index == current
    ensures total < 3 ==> p == Center || p == Hidden
    ensures total >= 3 ==> (p == Left <==> index == Prev(current, total))
    ensures total >= 3 ==> (p == Right <==> index == Next(current, total))
    ensures p == Hidden <==>
              index != current && (total < 3 || (index != Prev(current, total) && index != Next(current, total)))
  {
    if total < 3 then
      if index == current then Center else Hidden
    else if index == current then Center
    else
      var leftIndex := if current == 0 then total - 1 else current - 1;
      if index == leftIndex then Left
      else
        var rightIndex := if current == total - 1 then 0 else current + 1;
        if index == rightIndex then Right else Hidden
  }

  /** The roles of all cards, in list order, as the carousel renders them. */
  function Positions(current: nat, total: nat): (ps: seq<Position>)
    requires current < total
    ensures |ps| == total
    ensures forall i :: 0 <= i < total ==> ps[i] == GetPosition(i, current, total)
  {
    seq(total, i requires 0 <= i < total => GetPosition(i, current, total))
  }

  /** Exactly one card is centred; with three or more cards exactly one is
      left and exactly one is right, and with fewer none is. */
  lemma RoleCounts(current: nat, total: nat)
    requires current < total
    ensures multiset(Positions(current, total))[Center] == 1
    ensures multiset(Positions(current, total))[Left] == (if total >= 3 then 1 else 0)
    ensures multiset(Positions(current, total))[Right] == (if total >= 3 then 1 else 0)
  {
    var ps := Positions(current, total);
    OccursOnce(ps, Center, current);
    if total >= 3 {
      OccursOnce(ps, Left, Prev(current, total));
      OccursOnce(ps, Right, Next(current, total));
    } else {
      assert Left !in ps;
      assert Right !in ps;
    }
  }

  /** A value found at exactly one index of a sequence occurs in it once. */
  lemma OccursOnce<T>(ps: seq<T>, p: T, k: nat)
    requires k < |ps|
    requires forall i :: 0 <= i < |ps| ==> (ps[i] == p <==> i == k)
    ensures multiset(ps)[p] == 1
  {
    assert ps == ps[..k] + [ps[k]] + ps[k + 1..];
    assert p !in ps[..k];
    assert p !in ps[k + 1..];
  }

  /** After a forward step the card that was right is centred and the old
      centre goes left; the old left card becomes the right one when there
      are exactly three cards and is hidden when there are more. */
  lemma NextShiftsRoles(current: nat, total: nat)
    requires current < total && total >= 3
    ensures var n := Next(current, total);
            && GetPosition(n, current, total) == Right
            && GetPosition(n, n, total) == Center
            && GetPosition(current, n, total) == Left
            && GetPosition(Prev(current, total), n, total) == (if total == 3 then Right else Hidden)
  {
  }

  /** After a backward step the card that was left is centred and the old
      centre goes right. */
  lemma PrevShiftsRoles(current: nat, total: nat)
    requires current < total && total >= 3
    ensures var p := Prev(current, total);
            && GetPosition(p, current, total) == Left
            && GetPosition(p, p, total) == Center
            && GetPosition(current, p, total) == Right
  {
  }

  /** The inputs that move the carousel: the two buttons and an autoplay
      tick, which is the same move as the next button. */
  datatype Nav = PrevClick | NextClick | AutoplayTick

  function Apply(current: nat, total: nat, e: Nav): (r: nat)
    requires current < total
    ensures r < total
  {
    match e
    case PrevClick => Prev(current, total)
    case NextClick => Next(current, total)
    case AutoplayTick => Next(current, total)
  }

  /** The index after a run of inputs. */
  function Replay(current: nat, total: nat, events: seq<Nav>): (r: nat)
    requires current < total
    ensures r < total
    decreases |events|
  {
    if |events| == 0 then current
    else Apply(Replay(current, total, events[..|events| - 1]), total, events[|events| - 1])
  }

  /** Net displacement of a run: forward moves minus backward moves. */
  function Displacement(events: seq<Nav>): int
    decreases |events|
  {
    if |events| == 0 then 0
    else Displacement(events[..|events| - 1]) + (if events[|events| - 1] == PrevClick then -1 else 1)
  }

  /** Any interleaving of clicks and ticks lands on the start index moved by
      the net displacement, taken modulo the length (never out of range). */
  lemma {:induction false} ReplayIsDisplacement(current: nat, total: nat, events: seq<Nav>)
    requires current < total
    ensures Replay(current, total, events) == (current + Displacement(events)) % total
    decreases |events|
  {
    if |events| > 0 {
      var init := events[..|events| - 1];
      ReplayIsDisplacement(current, total, init);
      var a := current + Displacement(init);
      if events[|events| - 1] == PrevClick {
        PrevOfMod(a, total);
      } else {
        NextOfMod(a, total);
      }
    }
  }

  /** A step forward from `a` reduced modulo `total` lands on `a + 1` reduced. */
  lemma NextOfMod(a: int, total: nat)
    requires total > 0
    ensures Next(a % total, total) == (a + 1) % total
  {
    var q, m := a / total, a % total;
    assert a == total * q + m;
    if m == total - 1 {
      ModUnique(a + 1, total, q + 1, 0);
    } else {
      ModUnique(a + 1, total, q, m + 1);
    }
  }

  /** A step back from `a` reduced modulo `total` lands on `a - 1` reduced. */
  lemma PrevOfMod(a: int, total: nat)
    requires total > 0
    ensures Prev(a % total, total) == (a - 1) % total
  {
    var q, m := a / total, a % total;
    assert a == total * q + m;
    if m == 0 {
      ModUnique(a - 1, total, q - 1, total - 1);
    } else {
      ModUnique(a - 1, total, q, m - 1);
    }
  }

  /** Euclidean division is unique: a remainder in range determines `a % t`. */
  lemma ModUnique(a: int, t: int, q: int, m: int)
    requires t > 0 && 0 <= m < t && a == q * t + m
    ensures a % t == m
  {
    var q', m' := a / t, a % t;
    assert a == t * q' + m';
    var d := q - q';
    assert t * d == m' - m;
    if d >= 1 {
      MulAtLeast(t, d);
    } else if d <= -1 {
      MulAtLeast(t, -d);
    }
  }

  lemma MulAtLeast(t: int, d: int)
    requires t > 0 && d >= 1
    ensures t * d >= t
    decreases d
  {
    if d > 1 {
      MulAtLeast(t, d - 1);
      assert t * d == t * (d - 1) + t;
    }
  }

  /** The live catalogue has at least three cards, so the carousel always
      shows exactly one left and one right card. */
  lemma CatalogueAlwaysHasSides(current: nat)
    requires current < |ProjectData.Projects|
    ensures |ProjectData.Projects| >= 3
    ensures multiset(Positions(current, |ProjectData.Projects|))[Left] == 1
    ensures multiset(Positions(current, |ProjectData.Projects|))[Right] == 1
  {
    RoleCounts(current, |ProjectData.Projects|);
  }

  /** The worked example: five cards with the third one current. */
  lemma FiveCardsExample()
    ensures GetPosition(1, 2, 5) == Left
    ensures GetPosition(2, 2, 5) == Center
    ensures GetPosition(3, 2, 5) == Right
    ensures GetPosition(0, 2, 5) == Hidden
    ensures GetPosition(4, 2, 5) == Hidden
  {
  }
}
