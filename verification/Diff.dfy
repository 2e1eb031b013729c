/**
 The diff engine: a longest-common-subsequence table filled from the end
 backwards, and a forward walk over it that prints removals and additions.

 Three independent readings are tied together here: the table entry is the
 maximum length over all common subsequences, the printed edits rebuild the
 second file from the first, and no insert/delete script is shorter.
 */
module Diff {
  import opened Sequences
  import opened Wrappers

  type Line = string

  // The table is a static array of shorts with this many lines per side.
  const MAX_LINES := 1200
  const SHORT_MAX := 32767

  // ---- the reference: common subsequences ----

  ghost predicate IsCommon(z: seq<Line>, x: seq<Line>, y: seq<Line>) {
    IsSubseq(z, x) && IsSubseq(z, y)
  }

  /** `n` is the length of the longest common subsequence, by definition. */
  ghost predicate IsLongest(n: nat, x: seq<Line>, y: seq<Line>) {
    && (exists z :: IsCommon(z, x, y) && |z| == n)
    && (forall z :: IsCommon(z, x, y) ==> |z| <= n)
  }

  // ---- the recurrence the table follows ----

  function Lcs(x: seq<Line>, y: seq<Line>): nat
    decreases |x| + |y|
  {
    if x == [] || y == [] then 0
    else if x[0] == y[0] then Lcs(x[1..], y[1..]) + 1
    else Max(Lcs(x[1..], y), Lcs(x, y[1..]))
  }

  function Max(a: nat, b: nat): nat { if a >= b then a else b }

  lemma {:induction false} CommonAtMostLcs(z: seq<Line>, x: seq<Line>, y: seq<Line>)
    requires IsCommon(z, x, y)
    ensures |z| <= Lcs(x, y)
    decreases |x| + |y|
  {
    if z == [] {
    } else if x[0] == y[0] {
      // Matching the two heads is never worse than not matching them.
      if !IsSubseq(z, x[1..]) || !IsSubseq(z, y[1..]) {
        if IsSubseq(z, x[1..]) { SubseqOfTail(z, x[1..]); }
        if IsSubseq(z, y[1..]) { SubseqOfTail(z, y[1..]); }
        CommonAtMostLcs(z[1..], x[1..], y[1..]);
      } else {
        CommonAtMostLcs(z, x[1..], y[1..]);
      }
    } else if IsSubseq(z, x[1..]) {
      CommonAtMostLcs(z, x[1..], y);
    } else {
      CommonAtMostLcs(z, x, y[1..]);
    }
  }

  lemma {:induction false} LcsAttained(x: seq<Line>, y: seq<Line>) returns (z: seq<Line>)
    ensures IsCommon(z, x, y) && |z| == Lcs(x, y)
    decreases |x| + |y|
  {
    if x == [] || y == [] {
      z := [];
    } else if x[0] == y[0] {
      var t := LcsAttained(x[1..], y[1..]);
      z := [x[0]] + t;
      assert z[1..] == t;
    } else if Lcs(x[1..], y) >= Lcs(x, y[1..]) {
      z := LcsAttained(x[1..], y);
    } else {
      z := LcsAttained(x, y[1..]);
    }
  }

  /** The recurrence computes the maximum over all common subsequences. */
  lemma LcsIsLongest(x: seq<Line>, y: seq<Line>)
    ensures IsLongest(Lcs(x, y), x, y)
  {
    var z := LcsAttained(x, y);
    forall z' | IsCommon(z', x, y) ensures |z'| <= Lcs(x, y) {
      CommonAtMostLcs(z', x, y);
    }
  }

  lemma {:induction false} LcsAtMostBoth(x: seq<Line>, y: seq<Line>)
    ensures Lcs(x, y) <= |x| && Lcs(x, y) <= |y|
    decreases |x| + |y|
  {
    if x != [] && y != [] {
      LcsAtMostBoth(x[1..], y[1..]);
      LcsAtMostBoth(x[1..], y);
      LcsAtMostBoth(x, y[1..]);
    }
  }

  // ---- the table ----

  /** The entry the table must hold at (i, j): the LCS of the two tails. */
  ghost function Entry(x: seq<Line>, y: seq<Line>, i: nat, j: nat): int
    requires i <= |x| && j <= |y|
  {
    Lcs(x[i..], y[j..])
  }

  ghost predicate Shaped(t: array2<int>, x: seq<Line>, y: seq<Line>) {
    t.Length0 == |x| + 1 && t.Length1 == |y| + 1
  }

  /** Rows from `i` down hold their entries. */
  ghost predicate RowsDone(t: array2<int>, x: seq<Line>, y: seq<Line>, i: int)
    requires Shaped(t, x, y) && 0 <= i
    reads t
  {
    forall p, q :: i <= p <= |x| && 0 <= q <= |y| ==> t[p, q] == Entry(x, y, p, q)
  }

  ghost predicate LastColumnZero(t: array2<int>, x: seq<Line>, y: seq<Line>)
    requires Shaped(t, x, y)
    reads t
  {
    forall p :: 0 <= p <= |x| ==> t[p, |y|] == 0
  }

  ghost predicate TableIsLcs(t: array2<int>, x: seq<Line>, y: seq<Line>)
    reads t
  {
    Shaped(t, x, y) && RowsDone(t, x, y, 0)
  }

  /** Truncation to a 16-bit short, as the cast in the inner loop performs it. */
  function AsShort(v: int): int {
    var w := v % 65536;
    if w > SHORT_MAX then w - 65536 else w
  }

  /** The entry at (i, j) out of its three neighbours; the cast to short loses nothing. */
  lemma LcsCell(x: seq<Line>, y: seq<Line>, i: nat, j: nat)
    requires i < |x| && j < |y|
    ensures Entry(x, y, i, j) ==
            if x[i] == y[j] then Entry(x, y, i + 1, j + 1) + 1
            else if Entry(x, y, i + 1, j) >= Entry(x, y, i, j + 1) then Entry(x, y, i + 1, j)
            else Entry(x, y, i, j + 1)
    ensures |x| <= MAX_LINES ==> AsShort(Entry(x, y, i, j)) == Entry(x, y, i, j)
  {
    assert x[i..][1..] == x[i+1..] && y[j..][1..] == y[j+1..];
    LcsAtMostBoth(x[i..], y[j..]);
  }

  /** The inner loop: one row, right to left. */
  method FillRow(t: array2<int>, x: seq<Line>, y: seq<Line>, i: nat)
    requires |x| <= MAX_LINES && |y| <= MAX_LINES && i < |x|
    requires Shaped(t, x, y) && RowsDone(t, x, y, i + 1) && LastColumnZero(t, x, y)
    modifies t
    ensures RowsDone(t, x, y, i) && LastColumnZero(t, x, y)
  {
    var j := |y| - 1;
    while j >= 0
      invariant -1 <= j < |y|
      invariant LastColumnZero(t, x, y)
      invariant RowsDone(t, x, y, i + 1)
      invariant forall q :: j < q <= |y| ==> t[i, q] == Entry(x, y, i, q)
    {
      LcsCell(x, y, i, j);
      t[i, j] := AsShort(if x[i] == y[j] then t[i+1, j+1] + 1
                         else if t[i+1, j] >= t[i, j+1] then t[i+1, j] else t[i, j+1]);
      j := j - 1;
    }
  }

  /**
   Fills the table. Its last row and column are never written: they are the
   zeroes static storage starts with.
   */
  method FillTable(x: seq<Line>, y: seq<Line>) returns (t: array2<int>)
    requires |x| <= MAX_LINES && |y| <= MAX_LINES
    ensures fresh(t) && TableIsLcs(t, x, y)
  {
    t := new int[|x| + 1, |y| + 1]((_, _) => 0);
    var i := |x| - 1;
    while i >= 0
      invariant -1 <= i < |x|
      invariant LastColumnZero(t, x, y)
      invariant RowsDone(t, x, y, i + 1)
    {
      FillRow(t, x, y, i);
      i := i - 1;
    }
  }

  // ---- what is printed ----

  /** One printed line: `-k: text` or `+k: text`, with k counted from one. */
  datatype Edit = Removed(at: nat, text: Line) | Added(at: nat, text: Line)

  /** The edits that remain to be printed once the walk has reached (i, j). */
  ghost function WalkFrom(x: seq<Line>, y: seq<Line>, i: nat, j: nat): seq<Edit>
    requires i <= |x| && j <= |y|
    decreases |x| + |y| - i - j
  {
    if i < |x| && j < |y| && x[i] == y[j] then WalkFrom(x, y, i + 1, j + 1)
    else if i < |x| && (j == |y| || Entry(x, y, i + 1, j) >= Entry(x, y, i, j + 1)) then
      [Removed(i + 1, x[i])] + WalkFrom(x, y, i + 1, j)
    else if j < |y| then [Added(j + 1, y[j])] + WalkFrom(x, y, i, j + 1)
    else []
  }

  /** The edits printed before (i, j), followed by those still to come, are all of them. */
  ghost predicate WalkedTo(x: seq<Line>, y: seq<Line>, i: nat, j: nat, printed: seq<Edit>) {
    i <= |x| && j <= |y| && printed + WalkFrom(x, y, i, j) == WalkFrom(x, y, 0, 0)
  }

  /** One turn of the walk, whichever of the three loops takes it. */
  lemma WalkTurn(x: seq<Line>, y: seq<Line>, i: nat, j: nat, printed: seq<Edit>)
    requires WalkedTo(x, y, i, j, printed)
    ensures i < |x| && j < |y| && x[i] == y[j] ==> WalkedTo(x, y, i + 1, j + 1, printed)
    ensures i < |x| && (j == |y| || (x[i] != y[j] && Entry(x, y, i + 1, j) >= Entry(x, y, i, j + 1))) ==>
              WalkedTo(x, y, i + 1, j, printed + [Removed(i + 1, x[i])])
    ensures j < |y| && (i == |x| || (x[i] != y[j] && Entry(x, y, i + 1, j) < Entry(x, y, i, j + 1))) ==>
              WalkedTo(x, y, i, j + 1, printed + [Added(j + 1, y[j])])
  {
    var rest := WalkFrom(x, y, i, j);
    if rest != [] {
      assert printed + rest == printed + [rest[0]] + rest[1..];
    }
  }

  /** The forward walk over a filled table. */
  method Walk(t: array2<int>, x: seq<Line>, y: seq<Line>) returns (printed: seq<Edit>, differences: nat)
    requires TableIsLcs(t, x, y)
    ensures printed == WalkFrom(x, y, 0, 0) && differences == |printed|
  {
    var n, m := |x|, |y|;
    var i, j := 0, 0;
    printed, differences := [], 0;
    while i < n && j < m
      invariant 0 <= i <= n && 0 <= j <= m && differences == |printed|
      invariant WalkedTo(x, y, i, j, printed)
    {
      WalkTurn(x, y, i, j, printed);
      if x[i] == y[j] {
        i, j := i + 1, j + 1;
      } else if t[i+1, j] >= t[i, j+1] {
        printed := printed + [Removed(i + 1, x[i])];
        i := i + 1;
        differences := differences + 1;
      } else {
        printed := printed + [Added(j + 1, y[j])];
        j := j + 1;
        differences := differences + 1;
      }
    }
    while i < n
      invariant 0 <= i <= n && 0 <= j <= m && (i == n || j == m) && differences == |printed|
      invariant WalkedTo(x, y, i, j, printed)
    {
      WalkTurn(x, y, i, j, printed);
      printed := printed + [Removed(i + 1, x[i])];
      i := i + 1;
      differences := differences + 1;
    }
    while j < m
      invariant 0 <= j <= m && i == n && differences == |printed|
      invariant WalkedTo(x, y, i, j, printed)
    {
      WalkTurn(x, y, i, j, printed);
      printed := printed + [Added(j + 1, y[j])];
      j := j + 1;
      differences := differences + 1;
    }
  }

  /** The whole program: the table, the walk, and the exit status. */
  method Run(x: seq<Line>, y: seq<Line>) returns (printed: seq<Edit>, status: int)
    requires |x| <= MAX_LINES && |y| <= MAX_LINES
    ensures Patch(x, printed, 0, []) == Some(y)
    ensures |printed| == |x| + |y| - 2 * Lcs(x, y)
    ensures forall script :: Apply(script, x) == Some(y) ==> |printed| <= Cost(script)
    ensures status == if x == y then 0 else 1
  {
    var t := FillTable(x, y);
    var differences;
    printed, differences := Walk(t, x, y);
    status := if differences > 0 then 1 else 0;
    PatchRebuilds(x, y, 0, 0);
    WalkLength(x, y, 0, 0);
    assert x[0..] == x && y[0..] == y && y[..0] == [];
    SilentIffSame(x, y);
    forall script | Apply(script, x) == Some(y) ensures |printed| <= Cost(script) {
      NoScriptIsShorter(script, x, y);
    }
  }

  // ---- reading the output back ----

  /**
   Rebuilds the second file from the first and the printed lines alone. `i`
   lines of the first file are used up and `out` is what has been produced: a
   removal names the line of the first file it skips, an addition the line of
   the second file it becomes, and everything in between is copied. A removal
   whose text is not the line it names does not apply.
   */
  function Patch(x: seq<Line>, edits: seq<Edit>, i: nat, out: seq<Line>): Option<seq<Line>>
    requires i <= |x|
    decreases |edits|
  {
    if edits == [] then Some(out + x[i..])
    else match edits[0] {
      case Removed(k, text) =>
        if i < k <= |x| && x[k-1] == text then Patch(x, edits[1..], k, out + x[i..k-1]) else None
      case Added(k, text) =>
        if |out| < k && i + (k - 1 - |out|) <= |x| then
          var copied := k - 1 - |out|;
          Patch(x, edits[1..], i + copied, out + x[i..i+copied] + [text])
        else None
    }
  }

  /** A line both files share may be copied at once or left for the next edit. */
  lemma PatchSkipsMatch(x: seq<Line>, edits: seq<Edit>, i: nat, out: seq<Line>)
    requires i < |x|
    requires edits != [] ==> (match edits[0]
                              case Removed(k, _) => i + 1 < k
                              case Added(k, _) => |out| + 1 < k)
    ensures Patch(x, edits, i, out) == Patch(x, edits, i + 1, out + [x[i]])
  {
    if edits == [] {
      assert out + x[i..] == out + [x[i]] + x[i+1..];
    } else {
      match edits[0]
      case Removed(k, _) =>
        if k <= |x| {
          assert out + x[i..k-1] == out + [x[i]] + x[i+1..k-1];
        }
      case Added(k, text) =>
        var copied := k - 1 - |out|;
        if i + copied <= |x| {
          assert out + x[i..i+copied] + [text] == out + [x[i]] + x[i+1..i+copied] + [text];
        }
    }
  }

  lemma {:induction false} FirstEditAhead(x: seq<Line>, y: seq<Line>, i: nat, j: nat)
    requires i <= |x| && j <= |y|
    ensures var w := WalkFrom(x, y, i, j);
            w != [] ==> (match w[0] case Removed(k, _) => i < k case Added(k, _) => j < k)
    decreases |x| + |y| - i - j
  {
    if i < |x| && j < |y| && x[i] == y[j] {
      FirstEditAhead(x, y, i + 1, j + 1);
    }
  }

  /** Applying the rest of the output to the rest of the first file gives the second. */
  lemma {:induction false} PatchRebuilds(x: seq<Line>, y: seq<Line>, i: nat, j: nat)
    requires i <= |x| && j <= |y|
    ensures Patch(x, WalkFrom(x, y, i, j), i, y[..j]) == Some(y)
    decreases |x| + |y| - i - j
  {
    var w := WalkFrom(x, y, i, j);
    if i < |x| && j < |y| && x[i] == y[j] {
      FirstEditAhead(x, y, i + 1, j + 1);
      PatchSkipsMatch(x, w, i, y[..j]);
      assert y[..j] + [x[i]] == y[..j+1];
      PatchRebuilds(x, y, i + 1, j + 1);
    } else if i < |x| && (j == |y| || Entry(x, y, i + 1, j) >= Entry(x, y, i, j + 1)) {
      assert w[1..] == WalkFrom(x, y, i + 1, j);
      PatchRebuilds(x, y, i + 1, j);
      assert y[..j] + x[i..i] == y[..j];
    } else if j < |y| {
      assert w[1..] == WalkFrom(x, y, i, j + 1);
      PatchRebuilds(x, y, i, j + 1);
      assert y[..j] + x[i..i] + [y[j]] == y[..j+1];
    } else {
      assert y[..j] + x[i..] == y;
    }
  }

  // ---- how long the output is, and that nothing shorter would do ----

  lemma {:induction false} WalkLength(x: seq<Line>, y: seq<Line>, i: nat, j: nat)
    requires i <= |x| && j <= |y|
    ensures |WalkFrom(x, y, i, j)| == |x| - i + |y| - j - 2 * Lcs(x[i..], y[j..])
    decreases |x| + |y| - i - j
  {
    if i < |x| && j < |y| {
      LcsCell(x, y, i, j);
      if x[i] == y[j] {
        WalkLength(x, y, i + 1, j + 1);
      } else if Entry(x, y, i + 1, j) >= Entry(x, y, i, j + 1) {
        WalkLength(x, y, i + 1, j);
      } else {
        WalkLength(x, y, i, j + 1);
      }
    } else if i < |x| {
      WalkLength(x, y, i + 1, j);
    } else if j < |y| {
      WalkLength(x, y, i, j + 1);
    }
  }

  /** One step of an arbitrary insert/delete script. */
  datatype Op = Keep | Delete | Insert(text: Line)

  /** What a script makes of `x`, or nothing when it does not fit `x`. */
  function Apply(script: seq<Op>, x: seq<Line>): Option<seq<Line>> {
    if script == [] then (if x == [] then Some([]) else None)
    else match script[0] {
      case Keep =>
        if x == [] then None
        else var r := Apply(script[1..], x[1..]);
             if r.None? then None else Some([x[0]] + r.value)
      case Delete => if x == [] then None else Apply(script[1..], x[1..])
      case Insert(text) =>
        var r := Apply(script[1..], x);
        if r.None? then None else Some([text] + r.value)
    }
  }

  /** The number of insertions and deletions in a script. */
  function Cost(script: seq<Op>): nat {
    if script == [] then 0 else (if script[0].Keep? then 0 else 1) + Cost(script[1..])
  }

  lemma {:induction false} LcsDropLeft(x: seq<Line>, y: seq<Line>)
    requires x != []
    ensures Lcs(x[1..], y) <= Lcs(x, y) <= Lcs(x[1..], y) + 1
    decreases |x| + |y|
  {
    if y != [] {
      if x[0] == y[0] {
        if x[1..] != [] { LcsDropRight(x[1..], y); }
      } else {
        LcsDropLeft(x, y[1..]);
        if x[1..] != [] { LcsDropRight(x[1..], y); }
      }
    }
  }

  lemma {:induction false} LcsDropRight(x: seq<Line>, y: seq<Line>)
    requires y != []
    ensures Lcs(x, y[1..]) <= Lcs(x, y) <= Lcs(x, y[1..]) + 1
    decreases |x| + |y|
  {
    if x != [] {
      if x[0] == y[0] {
        if y[1..] != [] { LcsDropLeft(x, y[1..]); }
      } else {
        LcsDropRight(x[1..], y);
        if y[1..] != [] { LcsDropLeft(x, y[1..]); }
      }
    }
  }

  /** Every script that turns `x` into `y` costs at least what diff prints. */
  lemma {:induction false} NoScriptIsShorter(script: seq<Op>, x: seq<Line>, y: seq<Line>)
    requires Apply(script, x) == Some(y)
    ensures Cost(script) >= |x| + |y| - 2 * Lcs(x, y)
    decreases |script|
  {
    if script != [] {
      match script[0]
      case Keep => NoScriptIsShorter(script[1..], x[1..], y[1..]);
      case Delete =>
        NoScriptIsShorter(script[1..], x[1..], y);
        LcsDropLeft(x, y);
      case Insert(_) =>
        NoScriptIsShorter(script[1..], x, y[1..]);
        LcsDropRight(x, y);
    }
  }

  /** Nothing is printed exactly when the files are the same. */
  lemma SilentIffSame(x: seq<Line>, y: seq<Line>)
    ensures WalkFrom(x, y, 0, 0) == [] <==> x == y
  {
    assert x[0..] == x && y[0..] == y && y[..0] == [];
    WalkLength(x, y, 0, 0);
    PatchRebuilds(x, y, 0, 0);
    if x == y {
      LcsOfSame(x);
    }
  }

  lemma {:induction false} LcsOfSame(x: seq<Line>)
    ensures Lcs(x, x) == |x|
  {
    if x != [] {
      LcsOfSame(x[1..]);
    }
  }
}
