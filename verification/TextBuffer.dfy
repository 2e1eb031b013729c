/**
 The editor's document: one flat run of characters with the newlines left in, a
 caret, the anchor of a selection, and an index of where each line starts that
 is rebuilt after every change.
 */
module TextBuffer {

  const MAX_TEXT := 65536
  const MAX_LINES := 2048
  const CLIP_MAX := 4096

  // A negative anchor means that nothing is selected.
  datatype Doc = Doc(text: seq<char>, caret: int, anchor: int)

  predicate InRange(d: Doc) { 0 <= d.caret <= |d.text| < MAX_TEXT && -1 <= d.anchor <= |d.text| }

  // ---- lines ----

  function Newlines(text: seq<char>): nat {
    if text == [] then 0 else Newlines(text[..|text| - 1]) + if text[|text| - 1] == '\n' then 1 else 0
  }

  /** Where every line starts: at the beginning and behind each newline. */
  function Starts(text: seq<char>): (r: seq<nat>)
    ensures |r| == Newlines(text) + 1 && r[0] == 0
  {
    if text == [] then [0] else Starts(text[..|text| - 1]) + if text[|text| - 1] == '\n' then [|text|] else []
  }

  /** The index keeps the first 2048. */
  function Index(text: seq<char>): (r: seq<nat>)
    ensures 1 <= |r| <= MAX_LINES && r[0] == 0
  {
    if |Starts(text)| <= MAX_LINES then Starts(text) else Starts(text)[..MAX_LINES]
  }

  lemma {:induction false} StartsOfPrefix(text: seq<char>, o: nat)
    requires o <= |text|
    ensures |Starts(text[..o])| <= |Starts(text)|
    ensures Starts(text)[..|Starts(text[..o])|] == Starts(text[..o])
    ensures forall k :: 0 <= k < |Starts(text[..o])| ==> Starts(text)[k] <= o
    ensures forall k :: |Starts(text[..o])| <= k < |Starts(text)| ==> o < Starts(text)[k]
    decreases |text|
  {
    if o == |text| {
      assert text[..o] == text;
      StartsBelow(text);
    } else {
      var shorter := text[..|text| - 1];
      assert shorter[..o] == text[..o];
      StartsOfPrefix(shorter, o);
    }
  }

  lemma {:induction false} StartsBelow(text: seq<char>)
    ensures forall k :: 0 <= k < |Starts(text)| ==> Starts(text)[k] <= |text|
  {
    if text != [] {
      StartsBelow(text[..|text| - 1]);
    }
  }

  /** The line an offset lies on: the last whose start is not behind it. */
  ghost predicate OnLine(starts: seq<nat>, o: int, k: nat) {
    k < |starts| && (k > 0 ==> starts[k] <= o) && forall j :: k < j < |starts| ==> o < starts[j]
  }

  lemma {:induction false} Increasing(text: seq<char>, i: nat, j: nat)
    requires i < j < |Starts(text)|
    ensures Starts(text)[i] < Starts(text)[j]
    decreases |text|
  {
    if text != [] {
      var shorter := text[..|text| - 1];
      StartsBelow(shorter);
      if j < |Starts(shorter)| {
        Increasing(shorter, i, j);
      }
    }
  }

  lemma OneLine(starts: seq<nat>, o: int, j: nat, k: nat)
    ensures OnLine(starts, o, j) && OnLine(starts, o, k) ==> j == k
  {
  }

  /** The line of an offset is the number of newlines before it, as far as the index goes. */
  lemma LineCountsNewlines(text: seq<char>, o: nat, k: nat)
    requires o <= |text|
    ensures OnLine(Index(text), o, k) <==> k == Least(Newlines(text[..o]), |Index(text)| - 1)
  {
    StartsOfPrefix(text, o);
    var n, starts, index := Newlines(text[..o]), Starts(text), Index(text);
    assert forall j :: 0 <= j < |index| ==> index[j] == starts[j];
    var least := Least(n, |index| - 1);
    assert OnLine(index, o, least);
    OneLine(index, o, k, least);
  }

  function Least(a: nat, b: nat): nat { if a <= b then a else b }

  function LineEnd(starts: seq<nat>, length: int, k: nat): int
    requires k < |starts|
  {
    if k + 1 < |starts| then starts[k + 1] - 1 else length
  }

  lemma {:induction false} NewlineBefore(text: seq<char>, k: nat)
    requires 0 < k < |Starts(text)|
    ensures 1 <= Starts(text)[k] <= |text| && text[Starts(text)[k] - 1] == '\n'
    decreases |text|
  {
    if text != [] {
      var shorter := text[..|text| - 1];
      if k < |Starts(shorter)| {
        NewlineBefore(shorter, k);
      }
    }
  }

  lemma {:induction false} StartIndexed(text: seq<char>, i: nat) returns (k: nat)
    requires i < |text| && text[i] == '\n'
    ensures 0 < k < |Starts(text)| && Starts(text)[k] == i + 1
    decreases |text|
  {
    var shorter := text[..|text| - 1];
    if i == |text| - 1 {
      k := |Starts(shorter)|;
    } else {
      k := StartIndexed(shorter, i);
    }
  }

  /** The indexed lines cover the text: each ends at the newline before the next, and holds no other. */
  lemma LinesPartition(text: seq<char>, k: nat)
    requires k < |Index(text)|
    ensures var index := Index(text); var end := LineEnd(index, |text|, k);
            && index[k] <= end <= |text|
            && (k + 1 < |index| ==> end < |text| && text[end] == '\n' && index[k + 1] == end + 1)
            && (k + 1 < |index| || |Starts(text)| <= MAX_LINES ==> '\n' !in text[index[k]..end])
  {
    var starts, index := Starts(text), Index(text);
    StartsBelow(text);
    if k + 1 < |starts| {
      NewlineBefore(text, k + 1);
      Increasing(text, k, k + 1);
    }
    var end := LineEnd(index, |text|, k);
    if (k + 1 < |index| || |starts| <= MAX_LINES) && '\n' in text[index[k]..end] {
      var i :| index[k] <= i < end && text[i] == '\n';
      var m := StartIndexed(text, i);
      NotBetween(text, k, m);
    }
  }

  /** No start lies strictly between two neighbours. */
  lemma NotBetween(text: seq<char>, k: nat, m: nat)
    requires k < |Starts(text)| && m < |Starts(text)|
    ensures Starts(text)[m] <= Starts(text)[k] || (k + 1 < |Starts(text)| && Starts(text)[k + 1] <= Starts(text)[m])
  {
    if m < k {
      Increasing(text, m, k);
    } else if m > k + 1 {
      Increasing(text, k + 1, m);
    }
  }

  // ---- editing ----

  function Inserted(d: Doc, c: char): Doc
    requires 0 <= d.caret <= |d.text|
  {
    if |d.text| + 1 >= MAX_TEXT then d
    else d.(text := d.text[..d.caret] + [c] + d.text[d.caret..], caret := d.caret + 1)
  }

  function Backspaced(d: Doc): Doc
    requires d.caret <= |d.text|
  {
    if d.caret <= 0 then d else d.(text := d.text[..d.caret - 1] + d.text[d.caret..], caret := d.caret - 1)
  }

  /** Typing a character and taking it back leaves the document as it was, whenever there was room for it. */
  lemma InsertUndone(d: Doc, c: char)
    requires InRange(d) && |d.text| + 1 < MAX_TEXT
    ensures Backspaced(Inserted(d, c)) == d
  {
    var t := Inserted(d, c).text;
    assert t[..d.caret] == d.text[..d.caret] && t[d.caret + 1..] == d.text[d.caret..];
    assert d.text[..d.caret] + d.text[d.caret..] == d.text;
  }

  function From(d: Doc): int { if d.anchor < 0 || d.caret < d.anchor then d.caret else d.anchor }

  function To(d: Doc): int { if d.anchor < 0 || d.anchor < d.caret then d.caret else d.anchor }

  function Deleted(d: Doc): Doc
    requires InRange(d)
  {
    if From(d) == To(d) then d else Doc(d.text[..From(d)] + d.text[To(d)..], From(d), -1)
  }

  function Pasted(d: Doc, clip: seq<char>): Doc
    requires 0 <= d.caret <= |d.text|
    decreases |clip|
  {
    if clip == [] then d else Pasted(Inserted(d, clip[0]), clip[1..])
  }

  lemma {:induction false} PastedText(d: Doc, clip: seq<char>)
    requires 0 <= d.caret <= |d.text| && |d.text| + |clip| < MAX_TEXT
    ensures Pasted(d, clip) ==
            d.(text := d.text[..d.caret] + clip + d.text[d.caret..], caret := d.caret + |clip|)
    decreases |clip|
  {
    if clip == [] {
      assert d.text[..d.caret] + [] + d.text[d.caret..] == d.text;
    } else {
      var next := Inserted(d, clip[0]);
      PastedText(next, clip[1..]);
      assert next.text[..next.caret] == d.text[..d.caret] + [clip[0]] && next.text[next.caret..] == d.text[d.caret..];
      assert d.text[..d.caret] + [clip[0]] + clip[1..] == d.text[..d.caret] + clip;
    }
  }

  /** The clipboard keeps the first 4095 characters. */
  function Clipped(s: seq<char>): seq<char> { if |s| < CLIP_MAX then s else s[..CLIP_MAX - 1] }

  lemma PasteAfterCut(d: Doc, clip: seq<char>)
    requires InRange(d) && From(d) != To(d) && |clip| <= To(d) - From(d)
    ensures Pasted(Deleted(d), clip).text == d.text[..From(d)] + clip + d.text[To(d)..]
  {
    var cut := Deleted(d);
    PastedText(cut, clip);
    assert cut.text[..From(d)] == d.text[..From(d)] && cut.text[From(d)..] == d.text[To(d)..];
  }

  /** Cutting a selection and pasting it where the caret is left restores the text exactly when the clipboard held it all. */
  lemma CutUndoneIff(d: Doc)
    requires InRange(d)
    ensures Pasted(Deleted(d), Clipped(d.text[From(d)..To(d)])).text == d.text <==> To(d) - From(d) < CLIP_MAX
  {
    if From(d) != To(d) {
      var selected := d.text[From(d)..To(d)];
      PasteAfterCut(d, Clipped(selected));
      assert d.text[..From(d)] + selected + d.text[To(d)..] == d.text;
    }
  }

  // ---- moving ----

  function LineOf(starts: seq<nat>, o: int, i: nat, line: nat): nat
    requires i <= |starts|
    decreases |starts| - i
  {
    if i == |starts| || starts[i] > o then line else LineOf(starts, o, i + 1, i)
  }

  function CaretLine(d: Doc): nat { LineOf(Index(d.text), d.caret, 1, 0) }

  lemma {:induction false} LineOfIs(text: seq<char>, o: nat, i: nat)
    requires o <= |text| && 1 <= i <= |Index(text)| && (i > 1 ==> Index(text)[i - 1] <= o)
    ensures OnLine(Index(text), o, LineOf(Index(text), o, i, i - 1))
    decreases |Index(text)| - i
  {
    var index := Index(text);
    if i < |index| && index[i] <= o {
      LineOfIs(text, o, i + 1);
    } else if i < |index| {
      forall j | i < j < |index| ensures o < index[j] {
        Increasing(text, i, j);
      }
    }
  }

  lemma CaretLineIs(d: Doc, k: nat)
    requires InRange(d) && OnLine(Index(d.text), d.caret, k)
    ensures CaretLine(d) == k
  {
    LineOfIs(d.text, d.caret, 1);
    LineCountsNewlines(d.text, d.caret, k);
    LineCountsNewlines(d.text, d.caret, CaretLine(d));
  }

  /** The caret on another line, at the same column or at its end if it is shorter. */
  function MovedTo(d: Doc, k: nat): Doc
    requires k < |Index(d.text)| && CaretLine(d) < |Index(d.text)|
  {
    var index := Index(d.text);
    var at := index[k] + (d.caret - index[CaretLine(d)]);
    var end := LineEnd(index, |d.text|, k);
    d.(caret := if at > end then end else at)
  }

  lemma CaretLineOk(d: Doc)
    requires InRange(d)
    ensures OnLine(Index(d.text), d.caret, CaretLine(d)) && Index(d.text)[CaretLine(d)] <= d.caret
  {
    LineOfIs(d.text, d.caret, 1);
  }

  /** The column of an offset on line `k`, brought into the line. */
  function ColumnOn(text: seq<char>, k: nat, column: nat): int
    requires k < |Index(text)|
  {
    var length := LineEnd(Index(text), |text|, k) - Index(text)[k];
    if column > length then length else column
  }

  /** A move lands on exactly the line asked for, in the column it came from or, if the line is shorter, at its end. */
  lemma MoveLands(d: Doc, k: nat)
    requires InRange(d) && k < |Index(d.text)|
    ensures CaretLine(d) < |Index(d.text)| && InRange(MovedTo(d, k)) && CaretLine(MovedTo(d, k)) == k
    ensures d.caret >= Index(d.text)[CaretLine(d)]
    ensures MovedTo(d, k).caret == Index(d.text)[k] + ColumnOn(d.text, k, d.caret - Index(d.text)[CaretLine(d)])
  {
    CaretLineOk(d);
    LinesPartition(d.text, k);
    var index, m := Index(d.text), MovedTo(d, k);
    assert OnLine(index, m.caret, k) by {
      forall j | k < j < |index| ensures m.caret < index[j] {
        if j > k + 1 {
          Increasing(d.text, k + 1, j);
        }
      }
    }
    CaretLineIs(m, k);
  }

  // ---- events ----

  datatype Action =
    | Type(c: char) | Newline | Back | Left | Right | Up | Down | SelectAll | Cut | Paste(clip: seq<char>)
    | Press(line: int, column: nat) | Drag(line: int, column: nat) | Release

  /** Where a point lands: a row is brought into the text, a column into its line. */
  function OffsetAt(text: seq<char>, line: int, column: nat): int {
    var index := Index(text);
    var k := if line < 0 then 0 else if line >= |index| then |index| - 1 else line;
    var end := LineEnd(index, |text|, k);
    if index[k] + column > end then end else index[k] + column
  }

  ghost function Vertical(d: Doc, up: bool): Doc
    requires InRange(d)
  {
    CaretLineOk(d);
    var line := CaretLine(d);
    if up && line > 0 then MovedTo(d, line - 1)
    else if !up && line + 1 < |Index(d.text)| then MovedTo(d, line + 1)
    else d
  }

  ghost function Apply(d: Doc, a: Action): Doc
    requires InRange(d)
  {
    match a
    case Type(c) =>
      var e := if d.anchor >= 0 && d.anchor != d.caret then Deleted(d) else d;
      Inserted(e, c).(anchor := -1)
    case Newline => Inserted(d, '\n')
    case Back => if d.anchor >= 0 then Deleted(d) else Backspaced(d)
    case Left => d.(caret := if d.caret > 0 then d.caret - 1 else 0, anchor := -1)
    case Right => d.(caret := if d.caret < |d.text| then d.caret + 1 else d.caret, anchor := -1)
    case Up => Vertical(d, true).(anchor := -1)
    case Down => Vertical(d, false).(anchor := -1)
    case SelectAll => d.(anchor := 0, caret := |d.text|)
    case Cut => Deleted(d)
    case Paste(clip) => if clip == [] then d else Pasted(Deleted(d), clip)
    case Press(line, column) => var at := OffsetAt(d.text, line, column); d.(caret := at, anchor := at)
    case Drag(line, column) => if d.anchor >= 0 then d.(caret := OffsetAt(d.text, line, column)) else d
    case Release => if d.anchor == d.caret then d.(anchor := -1) else d
  }

  lemma OffsetInRange(text: seq<char>, line: int, column: nat)
    ensures 0 <= OffsetAt(text, line, column) <= |text|
  {
    var index := Index(text);
    var k := if line < 0 then 0 else if line >= |index| then |index| - 1 else line;
    LinesPartition(text, k);
  }

  lemma {:induction false} PasteInRange(d: Doc, clip: seq<char>)
    requires InRange(d)
    ensures InRange(Pasted(d, clip))
    decreases |clip|
  {
    if clip != [] {
      PasteInRange(Inserted(d, clip[0]), clip[1..]);
    }
  }

  lemma DeleteInRange(d: Doc)
    requires InRange(d)
    ensures InRange(Deleted(d))
  {
  }

  lemma InsertInRange(d: Doc, c: char)
    requires InRange(d)
    ensures InRange(Inserted(d, c))
  {
  }

  lemma VerticalInRange(d: Doc, up: bool)
    requires InRange(d)
    ensures InRange(Vertical(d, up))
  {
    CaretLineOk(d);
    var line := CaretLine(d);
    if up && line > 0 {
      MoveLands(d, line - 1);
    } else if !up && line + 1 < |Index(d.text)| {
      MoveLands(d, line + 1);
    }
  }

  /** Every event keeps caret and anchor inside the text. */
  lemma ApplyKeeps(d: Doc, a: Action)
    requires InRange(d)
    ensures InRange(Apply(d, a))
  {
    DeleteInRange(d);
    match a
    case Type(c) => InsertInRange(d, c); InsertInRange(Deleted(d), c);
    case Newline => InsertInRange(d, '\n');
    case Up => VerticalInRange(d, true);
    case Down => VerticalInRange(d, false);
    case Paste(clip) => PasteInRange(Deleted(d), clip);
    case Press(line, column) => OffsetInRange(d.text, line, column);
    case Drag(line, column) => OffsetInRange(d.text, line, column);
    case _ =>
  }

  /** Up and Down change the caret's line by exactly one, except on the first and the last. */
  lemma VerticalLands(d: Doc)
    requires InRange(d)
    ensures InRange(Apply(d, Up)) && InRange(Apply(d, Down))
    ensures CaretLine(Apply(d, Up)) == if CaretLine(d) > 0 then CaretLine(d) - 1 else 0
    ensures CaretLine(Apply(d, Down)) ==
            if CaretLine(d) + 1 < |Index(d.text)| then CaretLine(d) + 1 else CaretLine(d)
  {
    CaretLineOk(d);
    if CaretLine(d) > 0 {
      MoveLands(d, CaretLine(d) - 1);
    }
    if CaretLine(d) + 1 < |Index(d.text)| {
      MoveLands(d, CaretLine(d) + 1);
    }
  }

  /** Typing puts the character in place of what was selected, when there is room, and the caret behind it. */
  lemma TypeReplaces(d: Doc, c: char)
    requires InRange(d) && |d.text| - (To(d) - From(d)) + 1 < MAX_TEXT
    ensures Apply(d, Type(c)) == Doc(d.text[..From(d)] + [c] + d.text[To(d)..], From(d) + 1, -1)
  {
    var before, after := d.text[..From(d)], d.text[To(d)..];
    assert (before + after)[..From(d)] == before && (before + after)[From(d)..] == after;
  }

  /** Left and Right undo each other, except at the ends. */
  lemma LeftRight(d: Doc)
    requires InRange(d)
    ensures d.caret > 0 ==> Apply(d, Left).caret < d.caret && Apply(Apply(d, Left), Right) == d.(anchor := -1)
    ensures d.caret < |d.text| ==> Apply(d, Right).caret > d.caret && Apply(Apply(d, Right), Left) == d.(anchor := -1)
  {
  }

  /** A press puts the caret on the row it is on, or the nearest there is, in the column or at the end of the row. */
  lemma PressLands(d: Doc, line: int, column: nat)
    requires InRange(d)
    ensures var k := if line < 0 then 0 else if line >= |Index(d.text)| then |Index(d.text)| - 1 else line;
            var e := Apply(d, Press(line, column));
            && InRange(e) && CaretLine(e) == k && e.anchor == e.caret
            && e.caret == Index(d.text)[k] + ColumnOn(d.text, k, column)
  {
    var index := Index(d.text);
    var k := if line < 0 then 0 else if line >= |index| then |index| - 1 else line;
    var e := Apply(d, Press(line, column));
    LinesPartition(d.text, k);
    forall j | k < j < |index| ensures e.caret < index[j] {
      if j > k + 1 {
        Increasing(d.text, k + 1, j);
      }
    }
    CaretLineIs(e, k);
  }

  ghost predicate Reaches(d: Doc, actions: seq<Action>, e: Doc)
    decreases |actions|
  {
    if actions == [] then d == e else InRange(d) && Reaches(Apply(d, actions[0]), actions[1..], e)
  }

  lemma {:induction false} AlwaysInRange(d: Doc, actions: seq<Action>, e: Doc)
    requires InRange(d) && Reaches(d, actions, e)
    ensures InRange(e)
    decreases |actions|
  {
    if actions != [] {
      ApplyKeeps(d, actions[0]);
      AlwaysInRange(Apply(d, actions[0]), actions[1..], e);
    }
  }

  // ---- the editor ----

  /** Moves the elements from `at` up by one, last first. */
  method MakeRoom<T>(a: array<T>, count: nat, at: nat)
    requires at <= count < a.Length
    modifies a
    ensures a[..at] == old(a[..at]) && a[at + 1..count + 1] == old(a[at..count])
  {
    var i := count;
    while i > at
      invariant at <= i <= count
      invariant forall k :: 0 <= k < i ==> a[k] == old(a[k])
      invariant forall k :: i < k <= count ==> a[k] == old(a[k - 1])
    {
      a[i] := a[i - 1];
      i := i - 1;
    }
  }

  /** Moves the elements behind a gap of `n` down over it, first to last. */
  method CloseGap<T>(a: array<T>, count: nat, from: nat, n: nat)
    requires from + n <= count <= a.Length
    modifies a
    ensures a[..from] == old(a[..from]) && a[from..count - n] == old(a[from + n..count])
  {
    var i := from;
    while i < count - n
      invariant from <= i <= count - n
      invariant forall k :: 0 <= k < from ==> a[k] == old(a[k])
      invariant forall k :: from <= k < i ==> a[k] == old(a[k + n])
      invariant forall k :: i <= k < a.Length ==> a[k] == old(a[k])
    {
      a[i] := a[i + n];
      i := i + 1;
    }
  }

  lemma Parts<T>(s: seq<T>, i: nat, j: nat)
    requires i <= j <= |s|
    ensures s[..j][..i] == s[..i] && s[..j][i..] == s[i..j] && s[..i] + s[i..j] == s[..j]
  {
  }

  method InsertAt<T>(a: array<T>, count: nat, at: nat, x: T)
    requires at <= count < a.Length
    modifies a
    ensures a[..count + 1] == old(a[..count])[..at] + [x] + old(a[..count])[at..]
  {
    Parts(a[..], at, count);
    MakeRoom(a, count, at);
    ghost var moved := a[at + 1..count + 1];
    a[at] := x;
    assert a[..count + 1] == a[..at] + [x] + a[at + 1..count + 1];
  }

  method RemoveAt<T>(a: array<T>, count: nat, from: nat, n: nat)
    requires from + n <= count <= a.Length
    modifies a
    ensures a[..count - n] == old(a[..count])[..from] + old(a[..count])[from + n..]
  {
    Parts(a[..], from, count);
    Parts(a[..], from + n, count);
    CloseGap(a, count, from, n);
    Parts(a[..], from, count - n);
  }

  lemma StartsNext(text: seq<char>, i: nat)
    requires i < |text|
    ensures Starts(text[..i + 1]) == Starts(text[..i]) + if text[i] == '\n' then [i + 1] else []
  {
    assert text[..i + 1][..i] == text[..i];
  }

  lemma IndexFrom(text: seq<char>, i: nat)
    requires i <= |text| && |Starts(text[..i])| <= MAX_LINES
    requires i == |text| || |Starts(text[..i])| == MAX_LINES
    ensures Index(text) == Starts(text[..i])
  {
    StartsOfPrefix(text, i);
    assert i == |text| ==> text[..i] == text;
  }

  method PutAt<T>(a: array<T>, n: nat, x: T)
    requires n < a.Length
    modifies a
    ensures a[..n + 1] == old(a[..n]) + [x]
  {
    a[n] := x;
  }

  class Editor {
    const text: array<char>
    const starts: array<nat>
    var len: nat
    var lines: nat
    var caret: int
    var anchor: int

    ghost predicate Sized()
      reads this
    {
      text.Length == MAX_TEXT && starts.Length == MAX_LINES && len <= MAX_TEXT && lines <= MAX_LINES
    }

    ghost function View(): Doc
      requires Sized()
      reads this, text
    {
      Doc(text[..len], caret, anchor)
    }

    /** The index agrees with the text, and the caret and anchor lie in it. */
    ghost predicate Valid()
      reads this, text, starts
    {
      Sized() && InRange(View()) && starts[..lines] == Index(text[..len])
    }

    /** Rebuilds the index. */
    method Relines()
      requires Sized()
      modifies `lines, starts
      ensures Sized() && starts[..lines] == Index(text[..len])
    {
      ghost var t := text[..];
      starts[0] := 0;
      lines := 1;
      var i: nat := 0;
      while i < len && lines < MAX_LINES
        invariant i <= len && 1 <= lines <= MAX_LINES && text[..] == t && starts[..lines] == Starts(t[..i])
      {
        StartsNext(t, i);
        if text[i] == '\n' {
          PutAt(starts, lines, i + 1);
          lines := lines + 1;
        }
        i := i + 1;
      }
      assert text[..len] == t[..len] && t[..len][..i] == t[..i];
      IndexFrom(t[..len], i);
    }

    method FindLine(offset: int) returns (line: nat)
      requires Sized() && lines >= 1
      ensures line == LineOf(starts[..lines], offset, 1, 0) && line < lines
    {
      line := 0;
      var i := 1;
      while i < lines
        invariant 1 <= i <= lines && line < lines
        invariant LineOf(starts[..lines], offset, i, line) == LineOf(starts[..lines], offset, 1, 0)
      {
        if starts[i] > offset {
          break;
        }
        line := i;
        i := i + 1;
      }
    }

    method Insert(c: char)
      requires Valid()
      modifies this, text, starts
      ensures Valid() && View() == Inserted(old(View()), c)
    {
      if len + 1 >= MAX_TEXT {
        return;
      }
      InsertAt(text, len, caret, c);
      caret := caret + 1;
      len := len + 1;
      Relines();
    }

    method Remove(from: nat, to: nat)
      requires Sized() && from <= to <= len
      modifies `len, text
      ensures Sized() && len == old(len) - (to - from)
      ensures text[..len] == old(text[..len])[..from] + old(text[..len])[to..]
    {
      RemoveAt(text, len, from, to - from);
      len := len - (to - from);
    }

    /** Called only when nothing is selected. */
    method Backspace()
      requires Valid() && anchor < 0
      modifies this, text, starts
      ensures Valid() && View() == Backspaced(old(View()))
    {
      if caret <= 0 {
        return;
      }
      Remove(caret - 1, caret);
      caret := caret - 1;
      Relines();
    }

    method Selection() returns (from: nat, to: nat)
      requires Valid()
      ensures from == From(View()) && to == To(View()) && from <= to <= len
    {
      if anchor < 0 {
        return caret, caret;
      }
      from := if anchor < caret then anchor else caret;
      to := if anchor < caret then caret else anchor;
    }

    method DeleteSelection()
      requires Valid()
      modifies this, text, starts
      ensures Valid() && View() == Deleted(old(View()))
    {
      var from, to := Selection();
      if from == to {
        return;
      }
      Remove(from, to);
      caret := from;
      anchor := -1;
      Relines();
    }

    method MoveVertically(up: bool)
      requires Valid()
      modifies `caret, `anchor
      ensures Valid() && View() == Vertical(old(View()), up).(anchor := -1)
    {
      VerticalInRange(View(), up);
      var line := FindLine(caret);
      if (up && line > 0) || (!up && line + 1 < lines) {
        var k := if up then line - 1 else line + 1;
        var col := caret - starts[line];
        var end := if k + 1 < lines then starts[k + 1] - 1 else len;
        caret := starts[k] + col;
        if caret > end {
          caret := end;
        }
      }
      anchor := -1;
    }

    method PasteAll(clip: seq<char>)
      requires Valid()
      modifies this, text, starts
      ensures Valid() && View() == Pasted(old(View()), clip)
    {
      var i := 0;
      while i < |clip|
        invariant 0 <= i <= |clip| && Valid() && Pasted(View(), clip[i..]) == Pasted(old(View()), clip)
      {
        assert clip[i..][1..] == clip[i + 1..];
        Insert(clip[i]);
        i := i + 1;
      }
    }

    method FindOffset(line: int, column: nat) returns (at: int)
      requires Valid()
      ensures at == OffsetAt(View().text, line, column)
    {
      var k := line;
      if k < 0 {
        k := 0;
      }
      if k >= lines {
        k := lines - 1;
      }
      var end := if k + 1 < lines then starts[k + 1] - 1 else len;
      at := starts[k] + column;
      if at > end {
        at := end;
      }
    }

    /** A key that changes the text. */
    method Edit(a: Action)
      requires Valid() && (a.Type? || a.Newline? || a.Back? || a.Cut? || a.Paste?)
      modifies this, text, starts
      ensures Valid() && View() == Apply(old(View()), a)
    {
      match a
      case Type(c) =>
        if anchor >= 0 && anchor != caret {
          DeleteSelection();
        }
        Insert(c);
        anchor := -1;
      case Newline => Insert('\n');
      case Back =>
        if anchor >= 0 {
          DeleteSelection();
        } else {
          Backspace();
        }
      case Cut => DeleteSelection();
      case Paste(clip) =>
        if clip != [] {
          DeleteSelection();
          PasteAll(clip);
        }
    }

    /** A key or a mouse event that moves the caret or the anchor. */
    method Move(a: Action)
      requires Valid() && !(a.Type? || a.Newline? || a.Back? || a.Cut? || a.Paste?)
      modifies `caret, `anchor
      ensures Valid() && View() == Apply(old(View()), a)
    {
      ApplyKeeps(View(), a);
      match a
      case Left =>
        if caret > 0 {
          caret := caret - 1;
        }
        anchor := -1;
      case Right =>
        if caret < len {
          caret := caret + 1;
        }
        anchor := -1;
      case Up => MoveVertically(true);
      case Down => MoveVertically(false);
      case SelectAll => anchor, caret := 0, len;
      case Press(line, column) =>
        caret := FindOffset(line, column);
        anchor := caret;
      case Drag(line, column) =>
        if anchor >= 0 {
          caret := FindOffset(line, column);
        }
      case Release =>
        if anchor == caret {
          anchor := -1;
        }
    }
  }
}
