/**
 Where the desktop puts its icons: those it remembers go where they were, moved
 out from under the status bar and the dock; the others take the first slot of a
 grid that no earlier icon occupies.
 */
module IconGrid {

  const CELL_W := 88
  const CELL_H := 76
  const MAX_ICONS := 64

  datatype Point = Point(x: int, y: int)
  datatype Area = Area(x: int, y: int, w: int, h: int)

  /** Division as in C, towards zero. */
  function Quotient(a: int, b: int): int
    requires b > 0
  {
    if a >= 0 then a / b else -(-a / b)
  }

  function Rows(a: Area): (n: int)
    ensures n >= 1
  {
    var n := Quotient(a.h - 24, CELL_H);
    if n > 0 then n else 1
  }

  /** Slots run down the first column, then down the next. */
  function Slot(a: Area, k: nat): Point { Point(a.x + 12 + (k / Rows(a)) * CELL_W, a.y + 12 + (k % Rows(a)) * CELL_H) }

  lemma SlotsDiffer(a: Area, j: nat, k: nat)
    requires Slot(a, j) == Slot(a, k)
    ensures j == k
  {
    var n := Rows(a);
    assert j / n == k / n && j % n == k % n;
    assert j == j / n * n + j % n && k == k / n * n + k % n;
  }

  predicate Taken(earlier: seq<Point>, p: Point) { exists i :: 0 <= i < |earlier| && earlier[i] == p }

  /** `k` is the first slot no earlier icon has. */
  predicate FirstFree(a: Area, earlier: seq<Point>, k: nat) {
    !Taken(earlier, Slot(a, k)) && forall j: nat :: j < k ==> Taken(earlier, Slot(a, j))
  }

  predicate AllTaken(a: Area, earlier: seq<Point>) { forall k: nat :: k < MAX_ICONS ==> Taken(earlier, Slot(a, k)) }

  ghost predicate InFirstFree(a: Area, earlier: seq<Point>, p: Point) {
    exists k: nat :: k < MAX_ICONS && FirstFree(a, earlier, k) && p == Slot(a, k)
  }

  // ---- counting ----

  function SlotSet(a: Area, n: nat): set<Point> {
    if n == 0 then {} else SlotSet(a, n - 1) + {Slot(a, n - 1)}
  }

  lemma {:induction false} SlotSetSize(a: Area, n: nat)
    ensures |SlotSet(a, n)| == n
    ensures forall p :: p in SlotSet(a, n) ==> exists k: nat :: k < n && p == Slot(a, k)
  {
    if n > 0 {
      SlotSetSize(a, n - 1);
      if Slot(a, n - 1) in SlotSet(a, n - 1) {
        var k: nat :| k < n - 1 && Slot(a, n - 1) == Slot(a, k);
        SlotsDiffer(a, n - 1, k);
      }
    }
  }

  function Members(s: seq<Point>): set<Point> { if s == [] then {} else Members(s[1..]) + {s[0]} }

  lemma {:induction false} MembersBound(s: seq<Point>)
    ensures |Members(s)| <= |s|
    ensures forall p :: Taken(s, p) ==> p in Members(s)
  {
    if s != [] {
      MembersBound(s[1..]);
      forall p | Taken(s, p) ensures p in Members(s) {
        var i :| 0 <= i < |s| && s[i] == p;
        if i > 0 {
          assert s[1..][i - 1] == p;
        }
      }
    }
  }

  lemma {:induction false} SubsetSize<T>(a: set<T>, b: set<T>)
    requires a <= b
    ensures |a| <= |b|
    decreases |a|
  {
    if a != {} {
      var x :| x in a;
      SubsetSize(a - {x}, b - {x});
    }
  }

  /** Fewer icons than slots leave one free. */
  lemma SomeSlotFree(a: Area, earlier: seq<Point>, n: nat)
    requires forall k: nat :: k < n ==> Taken(earlier, Slot(a, k))
    ensures n <= |earlier|
  {
    SlotSetSize(a, n);
    MembersBound(earlier);
    forall p | p in SlotSet(a, n) ensures p in Members(earlier) {
      var k: nat :| k < n && p == Slot(a, k);
    }
    SubsetSize(SlotSet(a, n), Members(earlier));
  }

  // ---- placing ----

  /**
   The first free slot, whatever the work area and wherever the earlier icons
   are; with fewer earlier icons than slots the search never comes up empty.
   */
  method AutoPlace(a: Area, earlier: seq<Point>) returns (p: Point)
    ensures if AllTaken(a, earlier) then p == Slot(a, 0) else InFirstFree(a, earlier, p)
    ensures |earlier| < MAX_ICONS ==> !AllTaken(a, earlier) && !Taken(earlier, p)
  {
    var slot := 0;
    while slot < MAX_ICONS
      invariant 0 <= slot <= MAX_ICONS && forall j: nat :: j < slot ==> Taken(earlier, Slot(a, j))
    {
      var q := Slot(a, slot);
      var taken, j := false, 0;
      while j < |earlier|
        invariant 0 <= j <= |earlier| && !taken && forall i :: 0 <= i < j ==> earlier[i] != q
      {
        if earlier[j] == q {
          taken := true;
          break;
        }
        j := j + 1;
      }
      if !taken {
        assert FirstFree(a, earlier, slot);
        return q;
      }
      slot := slot + 1;
    }
    SomeSlotFree(a, earlier, MAX_ICONS);
    p := Point(a.x + 12, a.y + 12);
  }

  // A remembered position, or none.
  datatype Icon = Remembered(at: Point) | New

  function Clamp(v: int, low: int, high: int): int {
    var raised := if v < low then low + 12 else v;
    if raised > high then high else raised
  }

  /** A remembered position brought into the work area. */
  function Nudged(a: Area, p: Point): Point {
    Point(Clamp(p.x, a.x, a.x + a.w - CELL_W), Clamp(p.y, a.y, a.y + a.h - CELL_H))
  }

  predicate Within(v: int, low: int, high: int) { low <= v <= high }

  /** Clamping leaves a value alone when it is in range, or when the range is empty and the value its upper end. */
  lemma ClampedWithin(v: int, low: int, high: int)
    ensures Within(Clamp(v, low, high), low, high) <==> low <= high
    ensures Clamp(v, low, high) == v <==> Within(v, low, high) || v == high
    ensures Clamp(Clamp(v, low, high), low, high) == Clamp(v, low, high)
  {
  }

  /**
   A remembered icon ends up inside exactly in an area that holds a cell; there it
   stays put if and only if it was inside already. In any area bringing it in
   twice is bringing it in once.
   */
  lemma NudgedInside(a: Area, p: Point)
    ensures var q := Nudged(a, p);
            Within(q.x, a.x, a.x + a.w - CELL_W) && Within(q.y, a.y, a.y + a.h - CELL_H) <==> a.w >= CELL_W && a.h >= CELL_H
    ensures a.w >= CELL_W && a.h >= CELL_H ==>
              (Nudged(a, p) == p <==> Within(p.x, a.x, a.x + a.w - CELL_W) && Within(p.y, a.y, a.y + a.h - CELL_H))
    ensures Nudged(a, Nudged(a, p)) == Nudged(a, p)
  {
    ClampedWithin(p.x, a.x, a.x + a.w - CELL_W);
    ClampedWithin(p.y, a.y, a.y + a.h - CELL_H);
  }

  /** What a rescan promises of one icon, given those before it. */
  ghost predicate WellPlaced(a: Area, icon: Icon, earlier: seq<Point>, p: Point) {
    match icon
    case Remembered(at) => p == Nudged(a, at)
    case New => InFirstFree(a, earlier, p)
  }

  method Rescan(a: Area, icons: seq<Icon>) returns (places: seq<Point>)
    requires |icons| <= MAX_ICONS
    ensures AllPlaced(a, icons, places)
  {
    places := [];
    var i := 0;
    while i < |icons|
      invariant 0 <= i <= |icons| && |places| == i
      invariant forall j :: 0 <= j < i ==> WellPlaced(a, icons[j], places[..j], places[j])
    {
      var p;
      if icons[i].Remembered? {
        p := Nudged(a, icons[i].at);
      } else {
        p := AutoPlace(a, places);
      }
      var more := places + [p];
      forall j | 0 <= j <= i ensures WellPlaced(a, icons[j], more[..j], more[j]) {
        assert more[..j] == places[..j];
        assert j == i ==> places[..j] == places;
      }
      places := more;
      i := i + 1;
    }
  }

  // ---- which icons are apart ----

  /** The cells at two places have a point in common. */
  predicate Overlap(p: Point, q: Point) { -CELL_W < p.x - q.x < CELL_W && -CELL_H < p.y - q.y < CELL_H }

  lemma SlotsApart(a: Area, j: nat, k: nat)
    requires j != k
    ensures !Overlap(Slot(a, j), Slot(a, k))
  {
    var n := Rows(a);
    if j / n == k / n && j % n == k % n {
      SlotsDiffer(a, j, k);
    }
  }

  ghost predicate OnGrid(a: Area, p: Point) { exists k: nat :: p == Slot(a, k) }

  ghost predicate AllPlaced(a: Area, icons: seq<Icon>, places: seq<Point>) {
    |places| == |icons| && forall i :: 0 <= i < |icons| ==> WellPlaced(a, icons[i], places[..i], places[i])
  }

  /**
   A new icon is not put where an earlier one is, and its cell is clear of every
   earlier icon on the grid: of those that were new themselves, and of those
   remembered in a slot.
   */
  lemma NewIconsApart(a: Area, icons: seq<Icon>, places: seq<Point>, i: nat, j: nat)
    requires AllPlaced(a, icons, places) && j < i < |icons| && icons[i].New?
    ensures places[i] != places[j]
    ensures icons[j].New? ==> OnGrid(a, places[j])
    ensures OnGrid(a, places[j]) ==> !Overlap(places[i], places[j])
  {
    assert places[..i][j] == places[j];
    assert Taken(places[..i], places[j]);
    assert WellPlaced(a, icons[i], places[..i], places[i]) && WellPlaced(a, icons[j], places[..j], places[j]);
    if OnGrid(a, places[j]) {
      var k: nat :| k < MAX_ICONS && FirstFree(a, places[..i], k) && places[i] == Slot(a, k);
      var m: nat :| places[j] == Slot(a, m);
      SlotsApart(a, k, m);
    }
  }

  lemma SlotZero(a: Area)
    ensures Slot(a, 0) == Point(a.x + 12, a.y + 12)
  {
  }

  /** A new icon takes the first slot unless an earlier one has it, and is clear of that slot then. */
  lemma FirstSlot(a: Area, earlier: seq<Point>, p: Point)
    requires InFirstFree(a, earlier, p)
    ensures if Taken(earlier, Slot(a, 0)) then !Overlap(Slot(a, 0), p) else p == Slot(a, 0)
  {
    var k: nat :| k < MAX_ICONS && FirstFree(a, earlier, k) && p == Slot(a, k);
    assert k > 0 ==> Taken(earlier, Slot(a, 0));
    if k > 0 {
      SlotsApart(a, 0, k);
    }
  }

  lemma TakenOne(p: Point, q: Point)
    ensures Taken([p], q) <==> p == q
  {
    assert [p][0] == p;
  }

  /** Behind one remembered icon a new one overlaps it exactly when that is less than a cell from the first slot and not in it. */
  lemma OverlapsRememberedIff(a: Area, at: Point, places: seq<Point>)
    requires AllPlaced(a, [Remembered(at), New], places)
    ensures places[0] == Nudged(a, at)
    ensures Nudged(a, at) != Slot(a, 0) ==> places[1] == Slot(a, 0)
    ensures Overlap(places[0], places[1]) <==> Nudged(a, at) != Slot(a, 0) && Overlap(Nudged(a, at), Slot(a, 0))
  {
    var icons := [Remembered(at), New];
    assert WellPlaced(a, icons[0], places[..0], places[0]) && WellPlaced(a, icons[1], places[..1], places[1]);
    assert places[..1] == [Nudged(a, at)];
    TakenOne(Nudged(a, at), Slot(a, 0));
    FirstSlot(a, places[..1], places[1]);
  }

  /** One pixel off the first slot: the new icon overlaps it. */
  lemma OnePixelOff(places: seq<Point>)
    requires AllPlaced(Area(0, 0, 1000, 1000), [Remembered(Point(13, 12)), New], places)
    ensures places == [Point(13, 12), Point(12, 12)] && Overlap(places[0], places[1])
  {
    OverlapsRememberedIff(Area(0, 0, 1000, 1000), Point(13, 12), places);
    SlotZero(Area(0, 0, 1000, 1000));
  }

  predicate AllDiffer(places: seq<Point>) { forall i, j :: 0 <= j < i < |places| ==> places[i] != places[j] }

  /** No two icons share a place exactly when none is remembered where an earlier one is. */
  lemma AllDifferIff(a: Area, icons: seq<Icon>, places: seq<Point>)
    requires AllPlaced(a, icons, places)
    ensures AllDiffer(places) <==>
            forall i, j :: 0 <= j < i < |icons| && icons[i].Remembered? ==> Nudged(a, icons[i].at) != places[j]
  {
    forall i | 0 <= i < |icons| && icons[i].Remembered? ensures places[i] == Nudged(a, icons[i].at) {
      assert WellPlaced(a, icons[i], places[..i], places[i]);
    }
    forall i, j | 0 <= j < i < |icons| && icons[i].New? ensures places[i] != places[j] {
      NewIconsApart(a, icons, places, i, j);
    }
  }

  /** The first `n` icons are remembered and the others new. */
  predicate RememberedFirst(icons: seq<Icon>, n: nat) {
    n <= |icons| && forall i :: 0 <= i < |icons| ==> (icons[i].Remembered? <==> i < n)
  }

  /** With the remembered ones first, exactly when those differ among themselves. */
  lemma FirstDifferIff(a: Area, icons: seq<Icon>, places: seq<Point>, n: nat)
    requires AllPlaced(a, icons, places) && RememberedFirst(icons, n)
    ensures AllDiffer(places) <==> forall i, j :: 0 <= j < i < n ==> Nudged(a, icons[i].at) != Nudged(a, icons[j].at)
  {
    AllDifferIff(a, icons, places);
    forall i | 0 <= i < n ensures places[i] == Nudged(a, icons[i].at) {
      assert WellPlaced(a, icons[i], places[..i], places[i]);
    }
  }

  /** A new icon in the first slot, and one remembered there. */
  lemma RememberedOnNew(places: seq<Point>)
    requires AllPlaced(Area(0, 0, 1000, 1000), [New, Remembered(Point(12, 12))], places)
    ensures places[0] == places[1] == Point(12, 12)
  {
    var a, icons := Area(0, 0, 1000, 1000), [New, Remembered(Point(12, 12))];
    assert WellPlaced(a, icons[0], places[..0], places[0]) && WellPlaced(a, icons[1], places[..1], places[1]);
    FirstSlot(a, places[..0], places[0]);
    SlotZero(a);
  }
}
