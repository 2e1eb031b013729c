/**
 The file browser's tree view: a flat array of visible rows, built by passes
 that each splice one expanded directory's children in after it. The passes
 stand in for the obvious recursive walk, which would need a directory buffer
 per level on the stack.
 */
module TreeView {

  const MAX_ROWS := 256
  const MAX_DEPTH := 8          // a directory at this depth is opened but not read
  const SCRATCH := 64           // entries one read of a directory returns at most
  const PATH_MAX := 256
  const NAME_MAX := 128

  datatype Dirent = Dirent(name: string, isDir: bool)

  /** What each directory holds; a path that is not there is one that cannot be read. */
  type FileSystem = map<string, seq<Dirent>>

  datatype Row = Row(path: string, name: string, depth: nat, isDir: bool, expanded: bool, scanned: bool)

  function Min(a: int, b: int): int { if a <= b then a else b }

  /** One read of a directory. */
  function Listing(fs: FileSystem, dir: string): seq<Dirent> {
    if dir in fs then fs[dir][..Min(|fs[dir]|, SCRATCH)] else []
  }

  /** Directory and name with one slash between, cut to what a row can hold. */
  function Join(dir: string, name: string): string {
    var base := dir[..Min(|dir|, PATH_MAX - 2)];
    var stem := if |base| > 0 && base[|base| - 1] != '/' then base + "/" else base;
    stem + name[..Min(|name|, PATH_MAX - 1 - |stem|)]
  }

  function NewRow(dir: string, e: Dirent, depth: nat): Row {
    Row(Join(dir, e.name), e.name[..Min(|e.name|, NAME_MAX - 1)], depth, e.isDir, false, false)
  }

  function NewRows(dir: string, es: seq<Dirent>, depth: nat): (rows: seq<Row>)
    ensures |rows| == |es|
    ensures forall k :: 0 <= k < |es| ==> rows[k] == NewRow(dir, es[k], depth)
  {
    if es == [] then [] else [NewRow(dir, es[0], depth)] + NewRows(dir, es[1..], depth)
  }

  /** An expanded directory whose children are not in the list yet. */
  predicate Pending(open: seq<string>, r: Row) { r.isDir && !r.scanned && r.path in open }

  function Marked(r: Row): Row { r.(scanned := true, expanded := true) }

  // ---- the reference: a recursive pre-order walk ----

  function WalkEntries(fs: FileSystem, open: seq<string>, dir: string, es: seq<Dirent>, depth: nat): seq<Row>
    requires depth <= MAX_DEPTH
    decreases MAX_DEPTH - depth, |es|
  {
    if es == [] then []
    else
      var r := NewRow(dir, es[0], depth);
      (if !Pending(open, r) then [r]
       else [Marked(r)] +
            (if depth < MAX_DEPTH then WalkEntries(fs, open, r.path, Listing(fs, r.path), depth + 1) else []))
      + WalkEntries(fs, open, dir, es[1..], depth)
  }

  /** Every visible row under `dir`, parents before children, to the depth limit. */
  function Walk(fs: FileSystem, open: seq<string>, dir: string): seq<Row> {
    WalkEntries(fs, open, dir, Listing(fs, dir), 0)
  }

  // ---- the passes ----

  /** The index of the first pending row at or after `i`, or the length when there is none. */
  function FirstPending(open: seq<string>, rows: seq<Row>, i: nat): (k: nat)
    requires i <= |rows|
    ensures i <= k <= |rows|
    ensures forall j :: i <= j < k ==> !Pending(open, rows[j])
    ensures k < |rows| ==> Pending(open, rows[k])
    decreases |rows| - i
  {
    if i == |rows| then i
    else if Pending(open, rows[i]) then i
    else FirstPending(open, rows, i + 1)
  }

  /** The children that still fit, spliced in after row `at`. */
  function Inserted(fs: FileSystem, rows: seq<Row>, at: int, dir: string, depth: nat): seq<Row>
    requires -1 <= at < |rows| <= MAX_ROWS
  {
    var es := Listing(fs, dir);
    var n := Min(|es|, MAX_ROWS - |rows|);
    rows[..at+1] + NewRows(dir, es[..n], depth) + rows[at+1..]
  }

  function Scanned(rows: seq<Row>): (n: nat)
    ensures n <= |rows|
  {
    if rows == [] then 0 else (if rows[0].scanned then 1 else 0) + Scanned(rows[1..])
  }

  /** One pass over the list: the first pending row is marked and opened. */
  function Pass(fs: FileSystem, open: seq<string>, rows: seq<Row>, k: nat): seq<Row>
    requires k < |rows| <= MAX_ROWS
  {
    var r := rows[k];
    var marked := rows[k := Marked(r)];
    if r.depth < MAX_DEPTH then Inserted(fs, marked, k, r.path, r.depth + 1) else marked
  }

  lemma {:induction false} ScannedConcat(a: seq<Row>, b: seq<Row>)
    ensures Scanned(a + b) == Scanned(a) + Scanned(b)
  {
    if a == [] {
      assert a + b == b;
    } else {
      assert (a + b)[1..] == a[1..] + b;
      ScannedConcat(a[1..], b);
    }
  }

  lemma {:induction false} NewRowsUnscanned(dir: string, es: seq<Dirent>, depth: nat)
    ensures Scanned(NewRows(dir, es, depth)) == 0
  {
    if es != [] {
      NewRowsUnscanned(dir, es[1..], depth);
    }
  }

  /** Splicing children in never drops a row: the number of scanned rows is kept. */
  lemma InsertedScanned(fs: FileSystem, rows: seq<Row>, at: int, dir: string, depth: nat)
    requires -1 <= at < |rows| <= MAX_ROWS
    ensures Scanned(Inserted(fs, rows, at, dir, depth)) == Scanned(rows)
    ensures |rows| <= |Inserted(fs, rows, at, dir, depth)| <= MAX_ROWS
  {
    var es := Listing(fs, dir);
    var kids := es[..Min(|es|, MAX_ROWS - |rows|)];
    NewRowsUnscanned(dir, kids, depth);
    ScannedConcat(rows[..at+1], NewRows(dir, kids, depth));
    ScannedConcat(rows[..at+1] + NewRows(dir, kids, depth), rows[at+1..]);
    ScannedConcat(rows[..at+1], rows[at+1..]);
    assert rows == rows[..at+1] + rows[at+1..];
  }

  lemma Split<T>(s: seq<T>, k: nat, v: T)
    requires k < |s|
    ensures s == s[..k] + [s[k]] + s[k+1..]
    ensures s[k := v] == s[..k] + [v] + s[k+1..]
    ensures s[k := v][..k+1] == s[..k] + [v] && s[k := v][k+1..] == s[k+1..]
  {
  }

  lemma ScannedMarked(rows: seq<Row>, k: nat)
    requires k < |rows| && !rows[k].scanned
    ensures Scanned(rows[k := Marked(rows[k])]) == Scanned(rows) + 1
  {
    var r := rows[k];
    Split(rows, k, Marked(r));
    ScannedConcat(rows[..k], [r]);
    ScannedConcat(rows[..k] + [r], rows[k+1..]);
    ScannedConcat(rows[..k], [Marked(r)]);
    ScannedConcat(rows[..k] + [Marked(r)], rows[k+1..]);
  }

  /** The termination argument: every pass adds one scanned row, and there is room for only so many. */
  lemma PassScansOneMore(fs: FileSystem, open: seq<string>, rows: seq<Row>, k: nat)
    requires k < |rows| <= MAX_ROWS && Pending(open, rows[k])
    ensures |rows| <= |Pass(fs, open, rows, k)| <= MAX_ROWS
    ensures Scanned(Pass(fs, open, rows, k)) == Scanned(rows) + 1
  {
    ScannedMarked(rows, k);
    if rows[k].depth < MAX_DEPTH {
      InsertedScanned(fs, rows[k := Marked(rows[k])], k, rows[k].path, rows[k].depth + 1);
    }
  }

  /** Passes until nothing is pending. */
  function Build(fs: FileSystem, open: seq<string>, rows: seq<Row>): seq<Row>
    requires |rows| <= MAX_ROWS
    decreases MAX_ROWS - Scanned(rows)
  {
    var k := FirstPending(open, rows, 0);
    if k == |rows| then rows
    else
      PassScansOneMore(fs, open, rows, k);
      Build(fs, open, Pass(fs, open, rows, k))
  }

  // ---- the passes compute the walk ----

  /** What a row becomes in the finished list. */
  function Grown(fs: FileSystem, open: seq<string>, r: Row): seq<Row> {
    if !Pending(open, r) then [r]
    else [Marked(r)] +
         (if r.depth < MAX_DEPTH then WalkEntries(fs, open, r.path, Listing(fs, r.path), r.depth + 1) else [])
  }

  function Flatten(fs: FileSystem, open: seq<string>, rows: seq<Row>): seq<Row> {
    if rows == [] then [] else Grown(fs, open, rows[0]) + Flatten(fs, open, rows[1..])
  }

  lemma {:induction false} FlattenConcat(fs: FileSystem, open: seq<string>, a: seq<Row>, b: seq<Row>)
    ensures Flatten(fs, open, a + b) == Flatten(fs, open, a) + Flatten(fs, open, b)
  {
    if a == [] {
      assert a + b == b;
    } else {
      assert (a + b)[1..] == a[1..] + b && (a + b)[0] == a[0];
      FlattenConcat(fs, open, a[1..], b);
    }
  }

  lemma {:induction false} FlattenNewRows(fs: FileSystem, open: seq<string>, dir: string, es: seq<Dirent>, depth: nat)
    requires depth <= MAX_DEPTH
    ensures Flatten(fs, open, NewRows(dir, es, depth)) == WalkEntries(fs, open, dir, es, depth)
  {
    if es != [] {
      var rows := NewRows(dir, es, depth);
      assert rows[1..] == NewRows(dir, es[1..], depth);
      FlattenNewRows(fs, open, dir, es[1..], depth);
    }
  }

  lemma {:induction false} FlattenSettled(fs: FileSystem, open: seq<string>, rows: seq<Row>)
    requires forall k :: 0 <= k < |rows| ==> !Pending(open, rows[k])
    ensures Flatten(fs, open, rows) == rows
  {
    if rows != [] {
      FlattenSettled(fs, open, rows[1..]);
    }
  }

  lemma {:induction false} FlattenGrows(fs: FileSystem, open: seq<string>, rows: seq<Row>)
    ensures |rows| <= |Flatten(fs, open, rows)|
  {
    if rows != [] {
      FlattenGrows(fs, open, rows[1..]);
    }
  }

  lemma FlattenAt(fs: FileSystem, open: seq<string>, a: seq<Row>, m: seq<Row>, b: seq<Row>)
    ensures Flatten(fs, open, a + m + b) ==
            Flatten(fs, open, a) + Flatten(fs, open, m) + Flatten(fs, open, b)
  {
    FlattenConcat(fs, open, a + m, b);
    FlattenConcat(fs, open, a, m);
  }

  /** The rows that should follow an opened row at once. */
  function Kids(fs: FileSystem, r: Row): seq<Row> {
    if r.depth < MAX_DEPTH then NewRows(r.path, Listing(fs, r.path), r.depth + 1) else []
  }

  lemma FlattenOne(fs: FileSystem, open: seq<string>, r: Row)
    ensures Flatten(fs, open, [r]) == Grown(fs, open, r)
  {
    assert [r][1..] == [] && Grown(fs, open, r) + [] == Grown(fs, open, r);
  }

  /** Marking a pending row and putting all its children after it changes nothing in the end. */
  lemma FlattenOpened(fs: FileSystem, open: seq<string>, r: Row)
    requires Pending(open, r)
    ensures Flatten(fs, open, [Marked(r)] + Kids(fs, r)) == Flatten(fs, open, [r])
  {
    FlattenConcat(fs, open, [Marked(r)], Kids(fs, r));
    FlattenOne(fs, open, Marked(r));
    FlattenOne(fs, open, r);
    if r.depth < MAX_DEPTH {
      FlattenNewRows(fs, open, r.path, Listing(fs, r.path), r.depth + 1);
    }
  }

  lemma Regroup<T>(a: seq<T>, m: seq<T>, n: seq<T>, b: seq<T>)
    ensures a + m + n + b == a + (m + n) + b
    ensures n == [] ==> a + m + b == a + (m + n) + b
  {
  }

  lemma PassWithRoom(fs: FileSystem, open: seq<string>, rows: seq<Row>, k: nat)
    requires k < |rows| <= MAX_ROWS && |rows| + |Kids(fs, rows[k])| <= MAX_ROWS
    ensures Pass(fs, open, rows, k) == rows[..k] + ([Marked(rows[k])] + Kids(fs, rows[k])) + rows[k+1..]
  {
    var r := rows[k];
    Split(rows, k, Marked(r));
    Regroup(rows[..k], [Marked(r)], Kids(fs, r), rows[k+1..]);
    if r.depth < MAX_DEPTH {
      InsertedWithRoom(fs, rows[k := Marked(r)], k, r.path, r.depth + 1);
    }
  }

  lemma InsertedWithRoom(fs: FileSystem, rows: seq<Row>, at: int, dir: string, depth: nat)
    requires -1 <= at < |rows| && |rows| + |Listing(fs, dir)| <= MAX_ROWS
    ensures Inserted(fs, rows, at, dir, depth) ==
            rows[..at+1] + NewRows(dir, Listing(fs, dir), depth) + rows[at+1..]
  {
    var es := Listing(fs, dir);
    assert es[..|es|] == es;
  }

  /** A pass that had room for every child leaves the finished list as it was; one that had not fills the array. */
  lemma PassKeepsFlatten(fs: FileSystem, open: seq<string>, rows: seq<Row>, k: nat)
    requires k < |rows| <= MAX_ROWS && Pending(open, rows[k])
    ensures Flatten(fs, open, Pass(fs, open, rows, k)) == Flatten(fs, open, rows)
            || (|Pass(fs, open, rows, k)| == MAX_ROWS && |Flatten(fs, open, rows)| > MAX_ROWS)
  {
    var r := rows[k];
    var whole := [Marked(r)] + Kids(fs, r);
    Split(rows, k, r);
    FlattenAt(fs, open, rows[..k], [r], rows[k+1..]);
    FlattenOpened(fs, open, r);
    FlattenAt(fs, open, rows[..k], whole, rows[k+1..]);
    if |rows| + |Kids(fs, r)| <= MAX_ROWS {
      PassWithRoom(fs, open, rows, k);
    } else {
      FlattenGrows(fs, open, rows[..k] + whole + rows[k+1..]);
    }
  }

  lemma {:induction false} BuildIsFlatten(fs: FileSystem, open: seq<string>, rows: seq<Row>)
    requires |rows| <= MAX_ROWS
    ensures var all := Flatten(fs, open, rows);
            var built := Build(fs, open, rows);
            && |built| <= MAX_ROWS
            && (|all| <= MAX_ROWS ==> built == all)
            && (|all| > MAX_ROWS ==> |built| == MAX_ROWS)
    decreases MAX_ROWS - Scanned(rows)
  {
    var k := FirstPending(open, rows, 0);
    if k == |rows| {
      FlattenSettled(fs, open, rows);
    } else {
      var next := Pass(fs, open, rows, k);
      PassScansOneMore(fs, open, rows, k);
      PassKeepsFlatten(fs, open, rows, k);
      BuildIsFlatten(fs, open, next);
      FlattenGrows(fs, open, next);
      BuildNeverShrinks(fs, open, next);
    }
  }

  lemma {:induction false} BuildNeverShrinks(fs: FileSystem, open: seq<string>, rows: seq<Row>)
    requires |rows| <= MAX_ROWS
    ensures |rows| <= |Build(fs, open, rows)| <= MAX_ROWS
    decreases MAX_ROWS - Scanned(rows)
  {
    var k := FirstPending(open, rows, 0);
    if k < |rows| {
      PassScansOneMore(fs, open, rows, k);
      BuildNeverShrinks(fs, open, Pass(fs, open, rows, k));
    }
  }

  /** The first insertion, into an empty list. */
  function FirstRows(fs: FileSystem, dir: string): (rows: seq<Row>)
    ensures |rows| <= SCRATCH
  {
    NewRows(dir, Listing(fs, dir), 0)
  }

  lemma FirstInsertion(fs: FileSystem, dir: string)
    ensures Inserted(fs, [], -1, dir, 0) == FirstRows(fs, dir)
  {
    var es := Listing(fs, dir);
    assert es[..|es|] == es;
  }

  /** The finished list is the recursive walk exactly when the walk fits in the array, and fills the array otherwise. */
  lemma BuildIsWalk(fs: FileSystem, open: seq<string>, dir: string)
    ensures var built := Build(fs, open, FirstRows(fs, dir));
            && (built == Walk(fs, open, dir) <==> |Walk(fs, open, dir)| <= MAX_ROWS)
            && |built| == Min(|Walk(fs, open, dir)|, MAX_ROWS)
  {
    FlattenNewRows(fs, open, dir, Listing(fs, dir), 0);
    BuildIsFlatten(fs, open, FirstRows(fs, dir));
  }

  // ---- the array ----

  /** Making a gap and filling it is splicing: `a`, `b` and `c` are the array before, between and after. */
  lemma Assemble<T>(a: seq<T>, b: seq<T>, c: seq<T>, count: nat, at: int, kids: seq<T>)
    requires -1 <= at < count && count + |kids| <= |a| == |b| == |c|
    requires b[..at+1] == a[..at+1]
    requires b[at+1+|kids|..count+|kids|] == a[at+1..count]
    requires c[..at+1] == b[..at+1]
    requires c[at+1..at+1+|kids|] == kids
    requires c[at+1+|kids|..] == b[at+1+|kids|..]
    ensures c[..count+|kids|] == a[..count][..at+1] + kids + a[..count][at+1..]
  {
    var n, end := |kids|, count + |kids|;
    assert c[..end] == c[..at+1] + c[at+1..at+1+n] + c[at+1+n..end];
    assert c[at+1+n..end] == c[at+1+n..][..count - at - 1] == b[at+1+n..][..count - at - 1] == b[at+1+n..end];
    assert a[..count][..at+1] == a[..at+1] && a[..count][at+1..] == a[at+1..count];
  }

  lemma TakeUpdate<T>(s: seq<T>, n: nat, i: nat, v: T)
    requires i < n <= |s|
    ensures s[i := v][..n] == s[..n][i := v]
  {
  }

  method SetAt<T>(a: array<T>, i: nat, v: T)
    requires i < a.Length
    modifies a
    ensures a[..] == old(a[..])[i := v]
  {
    a[i] := v;
  }

  /** Moves the elements after `at` up by `n`, last first, so none is overwritten before it has moved. */
  method ShiftUp<T>(a: array<T>, count: nat, at: int, n: nat)
    requires -1 <= at < count && 0 < n && count + n <= a.Length
    modifies a
    ensures a[..at+1] == old(a[..at+1])
    ensures a[at+1+n..count+n] == old(a[at+1..count])
  {
    var i := count - 1;
    while i > at
      invariant at <= i < count
      invariant forall k :: 0 <= k <= i ==> a[k] == old(a[k])
      invariant forall k :: i + n < k < count + n ==> a[k] == old(a[k - n])
    {
      a[i + n] := a[i];
      i := i - 1;
    }
  }

  class Browser {
    const fs: FileSystem
    const rows: array<Row>
    var count: nat
    var open: seq<string>         // the paths the user has expanded
    var path: string              // the directory being shown

    ghost predicate Valid()
      reads this
    {
      rows.Length == MAX_ROWS && count <= MAX_ROWS
    }

    ghost function Shown(): seq<Row>
      requires Valid()
      reads this, rows
    {
      rows[..count]
    }

    constructor (fs: FileSystem, path: string)
      ensures Valid() && fresh(rows) && this.fs == fs && this.path == path && open == [] && Shown() == []
    {
      this.fs := fs;
      this.path := path;
      rows := new Row[MAX_ROWS](_ => Row("", "", 0, false, false, false));
      count := 0;
      open := [];
    }

    method IsExpanded(p: string) returns (yes: bool)
      ensures yes <==> p in open
    {
      for i := 0 to |open|
        invariant p !in open[..i]
      {
        if open[i] == p {
          return true;
        }
      }
      return false;
    }

    /** Writes the new rows into the gap after `at` and nowhere else. */
    method FillGap(at: int, dir: string, scratch: seq<Dirent>, depth: nat)
      requires Valid() && -1 <= at && at + |scratch| < rows.Length
      modifies rows
      ensures rows[..at+1] == old(rows[..at+1])
      ensures rows[at+1..at+1+|scratch|] == NewRows(dir, scratch, depth)
      ensures rows[at+1+|scratch|..] == old(rows[at+1+|scratch|..])
    {
      var put := at + 1;
      ghost var kids := NewRows(dir, scratch, depth);
      for i := 0 to |scratch|
        invariant put == at + 1 + i
        invariant rows[..at+1] == old(rows[..at+1])
        invariant rows[at+1..put] == kids[..i]
        invariant rows[at+1+|scratch|..] == old(rows[at+1+|scratch|..])
      {
        rows[put] := NewRow(dir, scratch[i], depth);
        put := put + 1;
      }
    }

    /** Splices a directory's children in after `at`, dropping those that will not fit. */
    method InsertChildren(at: int, dir: string, depth: nat)
      requires Valid() && -1 <= at < count
      modifies this`count, rows
      ensures Valid() && Shown() == Inserted(fs, old(Shown()), at, dir, depth)
    {
      var scratch := Listing(fs, dir);
      var n := |scratch|;
      var room := MAX_ROWS - count;
      if n > room {
        n := room;
      }
      ghost var kids := NewRows(dir, scratch[..n], depth);
      if n <= 0 {
        assert Shown()[..at+1] + kids + Shown()[at+1..] == Shown();
        return;
      }
      ghost var a := rows[..];
      ShiftUp(rows, count, at, n);
      ghost var b := rows[..];
      FillGap(at, dir, scratch[..n], depth);
      Assemble(a, b, rows[..], count, at, kids);
      count := count + n;
    }

    method MarkRow(i: nat)
      requires Valid() && i < count
      modifies rows
      ensures Shown() == old(Shown())[i := Marked(old(rows[i]))]
    {
      ghost var before := rows[..];
      TakeUpdate(before, count, i, Marked(rows[i]));
      SetAt(rows, i, rows[i].(scanned := true, expanded := true));
    }

    /** Marks the row at `i` and splices its children in, unless it is too deep. */
    method OpenRow(i: nat)
      requires Valid() && i < count
      modifies this`count, rows
      ensures Valid() && Shown() == Pass(fs, open, old(Shown()), i)
    {
      var r := rows[i];
      MarkRow(i);
      if r.depth < MAX_DEPTH {
        InsertChildren(i, r.path, r.depth + 1);
      }
    }

    /** One scan from the top: opens the first pending row, or finds there is none. */
    method ScanOnce() returns (did: bool)
      requires Valid()
      modifies this`count, rows
      ensures Valid()
      ensures var k := FirstPending(open, old(Shown()), 0);
              && (did <==> k < old(count))
              && Shown() == if did then Pass(fs, open, old(Shown()), k) else old(Shown())
    {
      did := false;
      ghost var k := FirstPending(open, Shown(), 0);
      var i := 0;
      while i < count
        invariant 0 <= i <= count == old(count) && Shown() == old(Shown())
        invariant !did && FirstPending(open, Shown(), i) == k
      {
        var r := rows[i];
        var expanded := IsExpanded(r.path);
        if r.isDir && !r.scanned && expanded {
          OpenRow(i);
          did := true;
          break;                // the array moved; start the scan again
        }
        i := i + 1;
      }
    }

    /** Rebuilds the list for the directory being shown. */
    method RebuildTree()
      requires Valid()
      modifies this`count, rows
      ensures Valid() && Shown() == Build(fs, open, FirstRows(fs, path))
      ensures Shown() == Walk(fs, open, path) <==> |Walk(fs, open, path)| <= MAX_ROWS
      ensures count == Min(|Walk(fs, open, path)|, MAX_ROWS)
    {
      count := 0;
      InsertChildren(-1, path, 0);
      FirstInsertion(fs, path);
      ghost var first := FirstRows(fs, path);
      assert Shown() == first;
      while true
        invariant Valid() && Build(fs, open, Shown()) == Build(fs, open, first)
        decreases MAX_ROWS - Scanned(Shown())
      {
        ghost var before := Shown();
        var did := ScanOnce();
        if !did {
          break;
        }
        PassScansOneMore(fs, open, before, FirstPending(open, before, 0));
      }
      BuildIsWalk(fs, open, path);
    }
  }
}
