/**
 What the rows of the tree view mean: their paths, and how the flat list gives the
 tree back. A row's children are the rows one level deeper that follow it, up to
 the next row that is no deeper than itself.
 */
module TreePaths {
  import opened TreeView

  // ---- paths ----

  predicate EndsInSlash(dir: string) { |dir| > 0 && dir[|dir| - 1] == '/' }

  /** Everything in front of a name in a directory. */
  function Stem(dir: string): string { if dir == [] || EndsInSlash(dir) then dir else dir + "/" }

  function FullPath(dir: string, name: string): string { Stem(dir) + name }

  /** The path put together in a row is the full path exactly when that fits, and no double slash is cut at the very end. */
  lemma JoinIff(dir: string, name: string)
    ensures Join(dir, name) == FullPath(dir, name) <==>
            |FullPath(dir, name)| < PATH_MAX && (|dir| < PATH_MAX - 1 || dir[PATH_MAX - 3] != '/')
  {
    if |dir| <= PATH_MAX - 2 {
      assert dir[..|dir|] == dir;
      if |FullPath(dir, name)| < PATH_MAX {
        assert name[..|name|] == name;
      }
    } else if |FullPath(dir, name)| < PATH_MAX {
      var base := dir[..PATH_MAX - 2];
      assert EndsInSlash(dir) && name == [] && base + "/" == dir;
      assert base[|base| - 1] == dir[PATH_MAX - 3];
    }
  }

  /** So a path has one slash between directory and name, and none is added where there is one. */
  lemma PathOf(dir: string, name: string)
    requires |dir| + 1 + |name| < PATH_MAX && dir != []
    ensures Join(dir, name) == if EndsInSlash(dir) then dir + name else dir + "/" + name
  {
    JoinIff(dir, name);
  }

  lemma StemReaches(dir: string, name: string, dir': string, name': string)
    requires '/' !in name && FullPath(dir, name) == FullPath(dir', name')
    ensures |Stem(dir')| <= |Stem(dir)|
  {
    var p, n, m := FullPath(dir, name), |Stem(dir)|, |Stem(dir')|;
    assert forall i :: n <= i < |p| ==> p[i] == name[i - n];
    assert m > 0 ==> p[m - 1] == '/';
  }

  /** A path tells its name and its directory: what is behind the last slash, and what is before. */
  lemma PathsDiffer(dir: string, name: string, dir': string, name': string)
    requires '/' !in name && '/' !in name' && FullPath(dir, name) == FullPath(dir', name')
    ensures name == name' && Stem(dir) == Stem(dir')
    ensures !EndsInSlash(dir) && !EndsInSlash(dir') ==> dir == dir'
  {
    var p, n := FullPath(dir, name), |Stem(dir)|;
    StemReaches(dir, name, dir', name');
    StemReaches(dir', name', dir, name);
    assert p[n..] == name == name' && p[..n] == Stem(dir) == Stem(dir');
  }

  /** One read shows a whole directory exactly when that has at most 64 entries, and its first 64 otherwise. */
  lemma ListingIff(fs: FileSystem, dir: string)
    requires dir in fs
    ensures Listing(fs, dir) == fs[dir] <==> |fs[dir]| <= SCRATCH
    ensures Listing(fs, dir) <= fs[dir] && |Listing(fs, dir)| == Min(|fs[dir]|, SCRATCH)
  {
    assert fs[dir][..|fs[dir]|] == fs[dir];
  }

  // ---- one level of the tree ----

  /** A row shows an entry of a directory. */
  predicate Shows(r: Row, dir: string, e: Dirent) {
    && r.isDir == e.isDir && r.name == e.name[..Min(|e.name|, NAME_MAX - 1)]
    && (|FullPath(dir, e.name)| < PATH_MAX - 1 ==> r.path == FullPath(dir, e.name))
  }

  predicate AllShow(rows: seq<Row>, dir: string, es: seq<Dirent>) {
    |rows| == |es| && forall k :: 0 <= k < |es| ==> Shows(rows[k], dir, es[k])
  }

  lemma NewRowShows(dir: string, e: Dirent, depth: nat)
    ensures Shows(NewRow(dir, e, depth), dir, e) && Shows(Marked(NewRow(dir, e, depth)), dir, e)
  {
    JoinIff(dir, e.name);
  }

  lemma Associate<T>(a: seq<T>, b: seq<T>, c: seq<T>)
    ensures a + (b + c) == a + b + c
  {
  }

  function Direct(rows: seq<Row>, depth: nat): seq<Row> {
    if rows == [] then []
    else (if rows[0].depth == depth then [rows[0]] else []) + Direct(rows[1..], depth)
  }

  lemma {:induction false} DirectJoin(a: seq<Row>, b: seq<Row>, depth: nat)
    ensures Direct(a + b, depth) == Direct(a, depth) + Direct(b, depth)
  {
    if a == [] {
      assert a + b == b;
    } else {
      var own := if a[0].depth == depth then [a[0]] else [];
      assert (a + b)[0] == a[0] && (a + b)[1..] == a[1..] + b;
      DirectJoin(a[1..], b, depth);
      Associate(own, Direct(a[1..], depth), Direct(b, depth));
    }
  }

  predicate AllBelow(rows: seq<Row>, depth: nat) { forall k :: 0 <= k < |rows| ==> rows[k].depth >= depth }

  lemma {:induction false} NoneDirect(rows: seq<Row>, depth: nat)
    requires AllBelow(rows, depth + 1)
    ensures Direct(rows, depth) == []
  {
    if rows != [] {
      NoneDirect(rows[1..], depth);
    }
  }

  /** The rows that follow an entry's own: its children, and theirs. */
  function Inner(fs: FileSystem, open: seq<string>, r: Row): seq<Row> {
    if Pending(open, r) && r.depth < MAX_DEPTH then WalkEntries(fs, open, r.path, Listing(fs, r.path), r.depth + 1) else []
  }

  function Head(open: seq<string>, r: Row): Row { if Pending(open, r) then Marked(r) else r }

  lemma WalkSplits(fs: FileSystem, open: seq<string>, dir: string, es: seq<Dirent>, depth: nat)
    requires depth <= MAX_DEPTH && es != []
    ensures var r := NewRow(dir, es[0], depth);
            WalkEntries(fs, open, dir, es, depth) ==
            [Head(open, r)] + Inner(fs, open, r) + WalkEntries(fs, open, dir, es[1..], depth)
  {
    var r := NewRow(dir, es[0], depth);
    assert [r] + [] == [r];
  }

  lemma {:induction false} WalkBelow(fs: FileSystem, open: seq<string>, dir: string, es: seq<Dirent>, depth: nat)
    requires depth <= MAX_DEPTH
    ensures AllBelow(WalkEntries(fs, open, dir, es, depth), depth)
    ensures es != [] ==> WalkEntries(fs, open, dir, es, depth) != [] && WalkEntries(fs, open, dir, es, depth)[0].depth == depth
    decreases MAX_DEPTH - depth, |es|
  {
    if es != [] {
      var r := NewRow(dir, es[0], depth);
      WalkSplits(fs, open, dir, es, depth);
      InnerBelow(fs, open, r);
      WalkBelow(fs, open, dir, es[1..], depth);
    }
  }

  lemma {:induction false} InnerBelow(fs: FileSystem, open: seq<string>, r: Row)
    requires r.depth <= MAX_DEPTH
    ensures AllBelow(Inner(fs, open, r), r.depth + 1)
    decreases MAX_DEPTH - r.depth, 0
  {
    if Pending(open, r) && r.depth < MAX_DEPTH {
      WalkBelow(fs, open, r.path, Listing(fs, r.path), r.depth + 1);
    }
  }

  /** The rows of one level are the entries of the directory, in order. */
  lemma {:induction false} DirectIs(fs: FileSystem, open: seq<string>, dir: string, es: seq<Dirent>, depth: nat)
    requires depth <= MAX_DEPTH
    ensures AllShow(Direct(WalkEntries(fs, open, dir, es, depth), depth), dir, es)
    decreases |es|
  {
    if es != [] {
      var r := NewRow(dir, es[0], depth);
      var rest := WalkEntries(fs, open, dir, es[1..], depth);
      WalkSplits(fs, open, dir, es, depth);
      InnerBelow(fs, open, r);
      NoneDirect(Inner(fs, open, r), depth);
      DirectJoin([Head(open, r)] + Inner(fs, open, r), rest, depth);
      DirectJoin([Head(open, r)], Inner(fs, open, r), depth);
      assert [Head(open, r)][1..] == [] && Direct([Head(open, r)], depth) == [Head(open, r)];
      DirectIs(fs, open, dir, es[1..], depth);
      NewRowShows(dir, es[0], depth);
    }
  }

  // ---- the whole tree ----

  /** How many rows from the front are deeper than `depth`. */
  function Deeper(rows: seq<Row>, depth: nat): (n: nat)
    ensures n <= |rows|
  {
    if rows == [] || rows[0].depth <= depth then 0 else 1 + Deeper(rows[1..], depth)
  }

  /** The rows under row `i`. */
  function Under(rows: seq<Row>, i: nat): seq<Row>
    requires i < |rows|
  {
    rows[i + 1..][..Deeper(rows[i + 1..], rows[i].depth)]
  }

  lemma {:induction false} DeeperStops(a: seq<Row>, b: seq<Row>, depth: nat)
    requires b == [] || b[0].depth <= depth
    ensures Deeper(a + b, depth) == Deeper(a, depth)
  {
    if a == [] {
      assert a + b == b;
    } else {
      assert (a + b)[0] == a[0] && (a + b)[1..] == a[1..] + b;
      DeeperStops(a[1..], b, depth);
    }
  }

  lemma {:induction false} DeeperAll(a: seq<Row>, depth: nat)
    requires AllBelow(a, depth + 1)
    ensures Deeper(a, depth) == |a|
  {
    if a != [] {
      DeeperAll(a[1..], depth);
    }
  }

  /** A row in front of a part of the list sees the part and stops where that stops. */
  lemma UnderWithin(front: seq<Row>, part: seq<Row>, back: seq<Row>, i: nat)
    requires i < |part| && (back == [] || back[0].depth <= part[i].depth)
    ensures var rows := front + part + back; rows[|front| + i] == part[i] && Under(rows, |front| + i) == Under(part, i)
  {
    var rows := front + part + back;
    assert rows[|front| + i + 1..] == part[i + 1..] + back;
    DeeperStops(part[i + 1..], back, part[i].depth);
  }

  /** What is under a row of a walk is the walk of its directory, if it is open and not too deep, and nothing otherwise. */
  ghost predicate WellNested(fs: FileSystem, open: seq<string>, rows: seq<Row>, i: nat)
    requires i < |rows|
  {
    var r := rows[i];
    && (r.scanned <==> r.isDir && r.path in open) && r.expanded == r.scanned && r.depth <= MAX_DEPTH
    && Under(rows, i) == if r.scanned && r.depth < MAX_DEPTH
                         then WalkEntries(fs, open, r.path, Listing(fs, r.path), r.depth + 1) else []
  }

  lemma HeadUnder(head: Row, inner: seq<Row>, rest: seq<Row>)
    requires AllBelow(inner, head.depth + 1) && (rest == [] || rest[0].depth <= head.depth)
    ensures Under([head] + inner + rest, 0) == inner
  {
    assert ([head] + inner + rest)[1..] == inner + rest;
    DeeperStops(inner, rest, head.depth);
    DeeperAll(inner, head.depth);
  }

  lemma HeadNested(fs: FileSystem, open: seq<string>, r: Row, rest: seq<Row>)
    requires !r.scanned && !r.expanded && r.depth <= MAX_DEPTH
    requires AllBelow(Inner(fs, open, r), r.depth + 1) && (rest == [] || rest[0].depth <= r.depth)
    ensures WellNested(fs, open, [Head(open, r)] + Inner(fs, open, r) + rest, 0)
  {
    HeadUnder(Head(open, r), Inner(fs, open, r), rest);
  }

  lemma NestedWithin(fs: FileSystem, open: seq<string>, front: seq<Row>, part: seq<Row>, back: seq<Row>, i: nat)
    requires i < |part| && (back == [] || back[0].depth <= part[i].depth) && WellNested(fs, open, part, i)
    ensures WellNested(fs, open, front + part + back, |front| + i)
  {
    UnderWithin(front, part, back, i);
  }

  lemma NestedBehind(fs: FileSystem, open: seq<string>, front: seq<Row>, part: seq<Row>, k: nat, rows: seq<Row>, i: nat)
    requires k < |part| && WellNested(fs, open, part, k)
    requires rows == front + part && i == |front| + k
    ensures WellNested(fs, open, rows, i)
  {
    NestedWithin(fs, open, front, part, [], k);
    assert front + part + [] == rows;
  }

  ghost predicate AllNested(fs: FileSystem, open: seq<string>, rows: seq<Row>) {
    forall i :: 0 <= i < |rows| ==> WellNested(fs, open, rows, i)
  }

  lemma InnerPart(fs: FileSystem, open: seq<string>, head: Row, inner: seq<Row>, rest: seq<Row>, i: nat)
    requires AllBelow(inner, head.depth + 1) && (rest == [] || rest[0].depth <= head.depth)
    requires 0 < i <= |inner| && WellNested(fs, open, inner, i - 1)
    ensures WellNested(fs, open, [head] + inner + rest, i)
  {
    NestedWithin(fs, open, [head], inner, rest, i - 1);
  }

  /** An entry's row, what is under it, and the rows of the entries after it. */
  lemma PartsNested(fs: FileSystem, open: seq<string>, head: Row, inner: seq<Row>, rest: seq<Row>, rows: seq<Row>)
    requires AllBelow(inner, head.depth + 1) && (rest == [] || rest[0].depth <= head.depth)
    requires rows == [head] + inner + rest && WellNested(fs, open, rows, 0)
    requires AllNested(fs, open, inner) && AllNested(fs, open, rest)
    ensures AllNested(fs, open, rows)
  {
    forall i | 0 <= i < |rows| ensures WellNested(fs, open, rows, i) {
      if 0 < i <= |inner| {
        InnerPart(fs, open, head, inner, rest, i);
      } else if i > 0 {
        NestedBehind(fs, open, [head] + inner, rest, i - 1 - |inner|, rows, i);
      }
    }
  }

  lemma {:induction false} WalkNested(fs: FileSystem, open: seq<string>, dir: string, es: seq<Dirent>, depth: nat)
    requires depth <= MAX_DEPTH
    ensures AllNested(fs, open, WalkEntries(fs, open, dir, es, depth))
    decreases MAX_DEPTH - depth, |es|
  {
    if es != [] {
      var r := NewRow(dir, es[0], depth);
      WalkSplits(fs, open, dir, es, depth);
      WalkBelow(fs, open, dir, es[1..], depth);
      WalkNested(fs, open, dir, es[1..], depth);
      InnerBelow(fs, open, r);
      InnerNested(fs, open, r);
      HeadNested(fs, open, r, WalkEntries(fs, open, dir, es[1..], depth));
      PartsNested(fs, open, Head(open, r), Inner(fs, open, r), WalkEntries(fs, open, dir, es[1..], depth),
                  WalkEntries(fs, open, dir, es, depth));
    }
  }

  lemma {:induction false} InnerNested(fs: FileSystem, open: seq<string>, r: Row)
    requires r.depth <= MAX_DEPTH
    ensures AllNested(fs, open, Inner(fs, open, r))
    decreases MAX_DEPTH - r.depth, 0
  {
    if Pending(open, r) && r.depth < MAX_DEPTH {
      WalkNested(fs, open, r.path, Listing(fs, r.path), r.depth + 1);
    }
  }

  /** Under a row, one level deeper and in order, are the entries of its directory, if it is an open one and not too deep. */
  ghost predicate ShowsUnder(fs: FileSystem, open: seq<string>, rows: seq<Row>, i: nat)
    requires i < |rows|
  {
    var r, under := rows[i], Under(rows, i);
    && (r.expanded <==> r.isDir && r.path in open)
    && (if r.expanded && r.depth < MAX_DEPTH then AllShow(Direct(under, r.depth + 1), r.path, Listing(fs, r.path))
        else under == [])
  }

  lemma NestedShows(fs: FileSystem, open: seq<string>, rows: seq<Row>, i: nat)
    requires i < |rows| && WellNested(fs, open, rows, i)
    ensures ShowsUnder(fs, open, rows, i)
  {
    var r := rows[i];
    if r.scanned && r.depth < MAX_DEPTH {
      DirectIs(fs, open, r.path, Listing(fs, r.path), r.depth + 1);
    }
  }

  /**
   The flat list is the tree: the rows at the top are the entries of the directory
   shown, in order, and under each row are those of its own, if it is open.
   */
  lemma ListIsTree(fs: FileSystem, open: seq<string>, dir: string, i: nat)
    requires i < |Walk(fs, open, dir)|
    ensures AllShow(Direct(Walk(fs, open, dir), 0), dir, Listing(fs, dir))
    ensures ShowsUnder(fs, open, Walk(fs, open, dir), i)
  {
    DirectIs(fs, open, dir, Listing(fs, dir), 0);
    WalkNested(fs, open, dir, Listing(fs, dir), 0);
    NestedShows(fs, open, Walk(fs, open, dir), i);
  }

  // ---- every list that is built, cut short or not ----

  ghost predicate InDirectory(fs: FileSystem, dir: string, r: Row) {
    exists e :: e in Listing(fs, dir) && Shows(r, dir, e)
  }

  /** Row `j` is the directory row `i` is in: the last row before it that is one level up. */
  ghost predicate ParentAt(fs: FileSystem, rows: seq<Row>, j: nat, i: nat)
    requires i < |rows|
  {
    && j < i && rows[j].depth + 1 == rows[i].depth && rows[j].isDir && rows[j].scanned
    && (forall m :: j < m < i ==> rows[m].depth >= rows[i].depth)
    && InDirectory(fs, rows[j].path, rows[i])
  }

  ghost predicate Placed(fs: FileSystem, dir: string, rows: seq<Row>, i: nat)
    requires i < |rows|
  {
    if rows[i].depth == 0 then InDirectory(fs, dir, rows[i]) else exists j: nat :: ParentAt(fs, rows, j, i)
  }

  ghost predicate AllPlaced(fs: FileSystem, dir: string, rows: seq<Row>) {
    forall i :: 0 <= i < |rows| ==> Placed(fs, dir, rows, i)
  }

  lemma MarkPlaced(fs: FileSystem, dir: string, rows: seq<Row>, k: nat)
    requires k < |rows| && AllPlaced(fs, dir, rows)
    ensures AllPlaced(fs, dir, rows[k := Marked(rows[k])])
  {
    var after := rows[k := Marked(rows[k])];
    forall i | 0 <= i < |after| ensures Placed(fs, dir, after, i) {
      assert Placed(fs, dir, rows, i);
      MarkShows(fs, dir, rows[i]);
      if rows[i].depth > 0 {
        var j: nat :| ParentAt(fs, rows, j, i);
        MarkShows(fs, rows[j].path, rows[i]);
        assert ParentAt(fs, after, j, i);
      }
    }
  }

  lemma MarkShows(fs: FileSystem, dir: string, r: Row)
    ensures InDirectory(fs, dir, r) ==> InDirectory(fs, dir, Marked(r))
  {
    if InDirectory(fs, dir, r) {
      var e :| e in Listing(fs, dir) && Shows(r, dir, e);
      assert Shows(Marked(r), dir, e);
    }
  }

  lemma KidsInDirectory(fs: FileSystem, dir: string, n: nat, depth: nat, k: nat)
    requires n <= |Listing(fs, dir)| && k < n
    ensures InDirectory(fs, dir, NewRows(dir, Listing(fs, dir)[..n], depth)[k])
  {
    var e := Listing(fs, dir)[k];
    NewRowShows(dir, e, depth);
    assert Listing(fs, dir)[..n][k] == e && e in Listing(fs, dir);
  }

  /** A row behind the splice keeps its parent: the rows put in between are deeper than it, or its sisters. */
  lemma ParentShifted(fs: FileSystem, rows: seq<Row>, at: nat, kids: seq<Row>, j: nat, i: nat)
    requires at < i < |rows| && ParentAt(fs, rows, j, i)
    requires forall m :: 0 <= m < |kids| ==> kids[m].depth == rows[at].depth + 1
    ensures ParentAt(fs, rows[..at + 1] + kids + rows[at + 1..], if j <= at then j else j + |kids|, i + |kids|)
  {
    var after, n := rows[..at + 1] + kids + rows[at + 1..], |kids|;
    var j' := if j <= at then j else j + n;
    assert after[i + n] == rows[i] && after[j'] == rows[j];
    forall m | j' < m < i + n ensures after[m].depth >= rows[i].depth {
      if m <= at {
        assert after[m] == rows[m];
      } else if m <= at + n {
        assert after[m] == kids[m - at - 1];
        assert j < at ==> rows[at].depth >= rows[i].depth;
      } else {
        assert after[m] == rows[m - n];
      }
    }
  }

  lemma FrontPlaced(fs: FileSystem, dir: string, rows: seq<Row>, more: seq<Row>, t: nat)
    requires t < |rows| && Placed(fs, dir, rows, t)
    ensures Placed(fs, dir, rows + more, t)
  {
    if rows[t].depth > 0 {
      var j: nat :| ParentAt(fs, rows, j, t);
      assert ParentAt(fs, rows + more, j, t);
    }
  }

  lemma TakePlaced(fs: FileSystem, dir: string, rows: seq<Row>, n: nat, t: nat)
    requires t < n <= |rows| && Placed(fs, dir, rows, t)
    ensures Placed(fs, dir, rows[..n], t)
  {
    if rows[t].depth > 0 {
      var j: nat :| ParentAt(fs, rows, j, t);
      assert ParentAt(fs, rows[..n], j, t);
    }
  }

  lemma KidPlaced(fs: FileSystem, dir: string, rows: seq<Row>, at: nat, kids: seq<Row>, k: nat)
    requires at < |rows| && rows[at].isDir && rows[at].scanned && k < |kids|
    requires forall m :: 0 <= m < |kids| ==> kids[m].depth == rows[at].depth + 1
    requires InDirectory(fs, rows[at].path, kids[k])
    ensures Placed(fs, dir, rows[..at + 1] + kids + rows[at + 1..], at + 1 + k)
  {
    var after := rows[..at + 1] + kids + rows[at + 1..];
    assert after[at] == rows[at] && after[at + 1 + k] == kids[k];
    forall m | at < m < at + 1 + k ensures after[m].depth >= kids[k].depth {
      assert after[m] == kids[m - at - 1];
    }
    assert ParentAt(fs, after, at, at + 1 + k);
  }

  lemma BackPlaced(fs: FileSystem, dir: string, rows: seq<Row>, at: nat, kids: seq<Row>, i: nat)
    requires at < i < |rows| && Placed(fs, dir, rows, i)
    requires forall m :: 0 <= m < |kids| ==> kids[m].depth == rows[at].depth + 1
    ensures Placed(fs, dir, rows[..at + 1] + kids + rows[at + 1..], i + |kids|)
  {
    assert (rows[..at + 1] + kids + rows[at + 1..])[i + |kids|] == rows[i];
    if rows[i].depth > 0 {
      var j: nat :| ParentAt(fs, rows, j, i);
      ParentShifted(fs, rows, at, kids, j, i);
    }
  }

  lemma KeptPlaced(fs: FileSystem, dir: string, rows: seq<Row>, at: nat, kids: seq<Row>, t: nat)
    requires t <= at < |rows| && Placed(fs, dir, rows, t)
    ensures Placed(fs, dir, rows[..at + 1] + kids + rows[at + 1..], t)
  {
    TakePlaced(fs, dir, rows, at + 1, t);
    FrontPlaced(fs, dir, rows[..at + 1], kids, t);
    FrontPlaced(fs, dir, rows[..at + 1] + kids, rows[at + 1..], t);
  }

  lemma SpliceAt(fs: FileSystem, dir: string, rows: seq<Row>, at: nat, kids: seq<Row>, t: nat)
    requires at < |rows| && rows[at].isDir && rows[at].scanned && t < |rows| + |kids|
    requires forall m :: 0 <= m < |kids| ==> kids[m].depth == rows[at].depth + 1
    requires t <= at ==> Placed(fs, dir, rows, t)
    requires at < t <= at + |kids| ==> InDirectory(fs, rows[at].path, kids[t - at - 1])
    requires at + |kids| < t ==> Placed(fs, dir, rows, t - |kids|)
    ensures Placed(fs, dir, rows[..at + 1] + kids + rows[at + 1..], t)
  {
    if t <= at {
      KeptPlaced(fs, dir, rows, at, kids, t);
    } else if t <= at + |kids| {
      KidPlaced(fs, dir, rows, at, kids, t - at - 1);
    } else {
      BackPlaced(fs, dir, rows, at, kids, t - |kids|);
    }
  }

  lemma SplicePlaced(fs: FileSystem, dir: string, rows: seq<Row>, at: nat, kids: seq<Row>, after: seq<Row>)
    requires at < |rows| && AllPlaced(fs, dir, rows) && rows[at].isDir && rows[at].scanned
    requires forall m :: 0 <= m < |kids| ==> kids[m].depth == rows[at].depth + 1 && InDirectory(fs, rows[at].path, kids[m])
    requires after == rows[..at + 1] + kids + rows[at + 1..]
    ensures AllPlaced(fs, dir, after)
  {
    forall t | 0 <= t < |after| ensures Placed(fs, dir, after, t) {
      SpliceAt(fs, dir, rows, at, kids, t);
    }
  }

  lemma PassPlaced(fs: FileSystem, open: seq<string>, dir: string, rows: seq<Row>, k: nat)
    requires k < |rows| <= MAX_ROWS && Pending(open, rows[k]) && AllPlaced(fs, dir, rows)
    ensures AllPlaced(fs, dir, Pass(fs, open, rows, k))
  {
    MarkPlaced(fs, dir, rows, k);
    if rows[k].depth < MAX_DEPTH {
      var marked, es := rows[k := Marked(rows[k])], Listing(fs, rows[k].path);
      var n := Min(|es|, MAX_ROWS - |rows|);
      var kids := NewRows(rows[k].path, es[..n], rows[k].depth + 1);
      forall m | 0 <= m < |kids| ensures InDirectory(fs, rows[k].path, kids[m]) {
        KidsInDirectory(fs, rows[k].path, n, rows[k].depth + 1, m);
      }
      SplicePlaced(fs, dir, marked, k, kids, Pass(fs, open, rows, k));
    }
  }

  lemma {:induction false} BuildPlaced(fs: FileSystem, open: seq<string>, dir: string, rows: seq<Row>)
    requires |rows| <= MAX_ROWS && AllPlaced(fs, dir, rows)
    ensures AllPlaced(fs, dir, Build(fs, open, rows))
    decreases MAX_ROWS - Scanned(rows)
  {
    var k := FirstPending(open, rows, 0);
    if k < |rows| {
      PassScansOneMore(fs, open, rows, k);
      PassPlaced(fs, open, dir, rows, k);
      BuildPlaced(fs, open, dir, Pass(fs, open, rows, k));
    }
  }

  /** In every list built, one cut short at 256 rows included, a row is in the directory shown or behind its own. */
  lemma EveryRowPlaced(fs: FileSystem, open: seq<string>, dir: string, i: nat)
    requires i < |Build(fs, open, FirstRows(fs, dir))|
    ensures Placed(fs, dir, Build(fs, open, FirstRows(fs, dir)), i)
  {
    var rows, es := FirstRows(fs, dir), Listing(fs, dir);
    assert es[..|es|] == es;
    forall t | 0 <= t < |rows| ensures Placed(fs, dir, rows, t) {
      KidsInDirectory(fs, dir, |es|, 0, t);
    }
    BuildPlaced(fs, open, dir, rows);
  }
}
