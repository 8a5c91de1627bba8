/** Text with markers in it: splitting at a marker, filling the gaps with grids of markers,
    and what an expansion of this kind preserves. Nothing here depends on how the markers
    are spelled, only on what `Recognizable` says. */
module MarkerText {
  import opened Sequences

  /** The four markers of an image. */
  datatype Marks = Marks(start: string, pad: string, brk: string, end: string)

  /** A marker opens with `<` and has no other. */
  ghost predicate Opens(m: string) {
    m != "" && m[0] == '<' && forall i | 1 <= i < |m| :: m[i] != '<'
  }

  ghost predicate Recognizable(ms: Marks) {
    && Opens(ms.start) && Opens(ms.pad) && Opens(ms.brk) && Opens(ms.end)
    && !(ms.end <= ms.pad) && !(ms.pad <= ms.end) && !(ms.end <= ms.brk) && !(ms.brk <= ms.end)
  }

  // ----- sequences of pieces -----

  lemma Regroups(a: string, b: string, c: string, d: string, e: string)
    ensures a + (b + (c + d + e)) == (a + (b + c)) + d + e
  {
  }

  // ----- splitting, joining, filling -----

  function Times(piece: string, n: nat): string {
    if n == 0 then "" else piece + Times(piece, n - 1)
  }

  function Copies(row: string, n: nat): (rows: seq<string>)
    ensures |rows| == n
  {
    if n == 0 then [] else [row] + Copies(row, n - 1)
  }

  function Join(sep: string, pieces: seq<string>): string {
    if pieces == [] then ""
    else if |pieces| == 1 then pieces[0]
    else pieces[0] + (sep + Join(sep, pieces[1..]))
  }

  /** The pieces between the occurrences of `sep`, found one after the other. */
  function Split(s: string, sep: string): (pieces: seq<string>)
    requires sep != ""
    ensures pieces != []
    decreases |s|
  {
    var k := FindFrom(s, sep, 0);
    if k == -1 then [s] else [s[..k]] + Split(s[k + |sep|..], sep)
  }

  /** The pieces with one text in each gap. */
  function Fill(pieces: seq<string>, texts: seq<string>): string
    requires |pieces| == |texts| + 1
  {
    if texts == [] then pieces[0] else pieces[0] + (texts[0] + Fill(pieces[1..], texts[1..]))
  }

  lemma {:induction false} FillLast(pieces: seq<string>, texts: seq<string>, text: string, piece: string)
    requires |pieces| == |texts| + 1
    ensures Fill(pieces + [piece], texts + [text]) == Fill(pieces, texts) + text + piece
  {
    if texts == [] {
      assert (pieces + [piece])[1..] == [piece] && (texts + [text])[1..] == [];
    } else {
      DropOfAppend(pieces, [piece], 1);
      DropOfAppend(texts, [text], 1);
      FillLast(pieces[1..], texts[1..], text, piece);
      Regroups(pieces[0], texts[0], Fill(pieces[1..], texts[1..]), text, piece);
    }
  }

  /** Rows of pads, a break between rows, and the end marker. */
  function GridText(ms: Marks, rows: nat, columns: nat): string {
    Join(ms.brk, Copies(Times(ms.pad, columns), rows)) + ms.end
  }

  lemma GridTextSteps(ms: Marks, rows: nat, columns: nat, rest: string)
    requires rows >= 1
    ensures GridText(ms, rows, columns) + rest ==
            Times(ms.pad, columns) + (if rows == 1 then ms.end + rest else ms.brk + (GridText(ms, rows - 1, columns) + rest))
  {
  }

  // ----- finding the first marker -----

  lemma CharAt(s: string, i: nat, m: string, j: nat)
    requires OccursAt(s, i, m) && j < |m|
    ensures m[j] == s[i + j]
  {
  }

  lemma NoEarlier(a: string, m: string, b: string, i: nat)
    requires Opens(m) && i < |a| && !OccursAt(a, i, m)
    ensures !OccursAt(a + (m + b), i, m)
  {
    var s := a + (m + b);
    assert s[|a|] == '<';
    if OccursAt(s, i, m) {
      if i + |m| <= |a| {
        OccursInPrefix(a, m + b, i, m);
      } else {
        CharAt(s, i, m, |a| - i);
      }
    }
  }

  /** Text without a marker, and then the marker: that is where it is found. */
  lemma FoundThere(a: string, m: string, b: string)
    requires Opens(m) && FindFrom(a, m, 0) == -1
    ensures FindFrom(a + (m + b), m, 0) == |a|
  {
    var s := a + (m + b);
    assert s[|a|..|a| + |m|] == m;
    forall i | 0 <= i < |a| ensures !OccursAt(s, i, m) {
      NoEarlier(a, m, b, i);
    }
    FindFromIsLeast(s, m, 0, |a|);
  }

  lemma FoundFrom(x: string, t: string, m: string, e: nat)
    requires e <= |t| && FindFrom(t, m, 0) == e
    ensures FindFrom(x + t, m, |x|) == |x| + e
  {
    var s := x + t;
    assert s[|x|..] == t;
    OccursInSuffix(s, |x|, e, m);
    forall i | |x| <= i < |x| + e ensures !OccursAt(s, i, m) {
      OccursInSuffix(s, |x|, i - |x|, m);
    }
    FindFromIsLeast(s, m, |x|, |x| + e);
  }

  lemma NotBefore(s: string, m: string, k: nat)
    requires m != "" && k <= |s| && FindFrom(s, m, 0) == k
    ensures FindFrom(s[..k], m, 0) == -1
  {
    forall i | 0 <= i ensures !OccursAt(s[..k], i, m) {
      if OccursAt(s[..k], i, m) {
        assert s[..k] + s[k..] == s;
        OccursInExtension(s[..k], s[k..], i, m);
      }
    }
  }

  /** Another marker in front only moves the first `end`. */
  lemma EndAfterMarker(end: string, m: string, t: string, e: nat)
    requires Opens(m) && Opens(end) && !(end <= m) && !(m <= end)
    requires e <= |t| && FindFrom(t, end, 0) == e
    ensures FindFrom(m + t, end, 0) == |m| + e
  {
    var s := m + t;
    assert s[|m|..] == t;
    OccursInSuffix(s, |m|, e, end);
    forall i | 0 <= i < |m| + e ensures !OccursAt(s, i, end) {
      if i >= |m| {
        OccursInSuffix(s, |m|, i - |m|, end);
      } else {
        NotInMarker(end, m, t, i);
      }
    }
    FindFromIsLeast(s, end, 0, |m| + e);
  }

  lemma NotInMarker(end: string, m: string, t: string, i: nat)
    requires Opens(m) && Opens(end) && !(end <= m) && !(m <= end) && i < |m|
    ensures !OccursAt(m + t, i, end)
  {
  }

  lemma {:induction false} EndAfterPads(ms: Marks, columns: nat, t: string, e: nat)
    requires Recognizable(ms) && e <= |t| && FindFrom(t, ms.end, 0) == e
    ensures FindFrom(Times(ms.pad, columns) + t, ms.end, 0) == |Times(ms.pad, columns)| + e
  {
    if columns == 0 {
      assert "" + t == t;
    } else {
      var pads := Times(ms.pad, columns - 1);
      EndAfterPads(ms, columns - 1, t, e);
      EndAfterMarker(ms.end, ms.pad, pads + t, |pads| + e);
      Associates(ms.pad, pads, t);
    }
  }

  /** In the text of a grid the first end marker is the last thing. */
  ghost predicate EndCloses(grid: string, end: string) {
    |grid| >= |end| && forall rest: string :: FindFrom(grid + rest, end, 0) == |grid| - |end|
  }

  lemma {:induction false} EndClosesGrid(ms: Marks, rows: nat, columns: nat, rest: string)
    requires Recognizable(ms) && rows >= 1
    ensures FindFrom(GridText(ms, rows, columns) + rest, ms.end, 0) == |GridText(ms, rows, columns)| - |ms.end|
  {
    GridTextSteps(ms, rows, columns, rest);
    GridTextSteps(ms, rows, columns, "");
    assert GridText(ms, rows, columns) + "" == GridText(ms, rows, columns);
    if rows == 1 {
      assert (ms.end + rest)[0..|ms.end|] == ms.end;
      FindFromIsLeast(ms.end + rest, ms.end, 0, 0);
      EndAfterPads(ms, columns, ms.end + rest, 0);
    } else {
      var others := GridText(ms, rows - 1, columns);
      EndClosesGrid(ms, rows - 1, columns, rest);
      EndAfterMarker(ms.end, ms.brk, others + rest, |others| - |ms.end|);
      EndAfterPads(ms, columns, ms.brk + (others + rest), |ms.brk| + |others| - |ms.end|);
    }
  }

  // ----- collapsing undoes filling -----

  /** The part to delete: from after the first start marker through the next end marker. */
  datatype Cut = Nothing | Part(from: nat, to: nat)

  function FirstCut(s: string, start: string, end: string): (c: Cut)
    requires start != ""
    ensures c.Part? ==> c.from <= c.to <= |s| && c.from > 0
  {
    var k := FindFrom(s, start, 0);
    if k == -1 then Nothing
    else
      var e := FindFrom(s, end, k + |start|);
      if e == -1 then Nothing else Part(k + |start|, e + |end|)
  }

  /** From after each start marker, everything through the first end marker is deleted. */
  function Collapse(s: string, start: string, end: string): string
    requires start != ""
    decreases |s|
  {
    match FirstCut(s, start, end)
    case Nothing => s
    case Part(from, to) => s[..from] + Collapse(s[to..], start, end)
  }

  lemma BothFound(a: string, start: string, grid: string, end: string, rest: string)
    requires Opens(start) && FindFrom(a, start, 0) == -1 && EndCloses(grid, end)
    ensures var s := a + (start + grid + rest);
            && FindFrom(s, start, 0) == |a|
            && FindFrom(s, end, |a| + |start|) == |a| + |start| + |grid| - |end|
  {
    FoundThere(a, start, grid + rest);
    FoundFrom(a + start, grid + rest, end, |grid| - |end|);
    Associates(start, grid, rest);
    Associates(a, start, grid + rest);
  }

  lemma Cuts(a: string, start: string, grid: string, rest: string)
    ensures (a + (start + grid + rest))[..|a| + |start|] == a + start
    ensures (a + (start + grid + rest))[|a| + |start| + |grid|..] == rest
  {
  }

  lemma ImageIsCut(a: string, start: string, grid: string, end: string, rest: string)
    requires Opens(start) && FindFrom(a, start, 0) == -1 && EndCloses(grid, end)
    ensures FirstCut(a + (start + grid + rest), start, end) == Part(|a| + |start|, |a| + |start| + |grid|)
  {
    BothFound(a, start, grid, end, rest);
  }

  lemma CollapseOne(a: string, start: string, grid: string, end: string, rest: string)
    requires Opens(start) && FindFrom(a, start, 0) == -1 && EndCloses(grid, end)
    ensures Collapse(a + (start + grid + rest), start, end) == a + start + Collapse(rest, start, end)
  {
    ImageIsCut(a, start, grid, end, rest);
    Cuts(a, start, grid, rest);
  }

  /** Where a marker was found, the text falls apart around it. */
  lemma Apart(s: string, m: string, k: nat)
    requires OccursAt(s, k, m)
    ensures s == s[..k] + m + s[k + |m|..] == s[..k] + (m + s[k + |m|..])
  {
  }

  /** Every gap holds a start marker and a grid. */
  ghost predicate AreImages(texts: seq<string>, start: string, end: string) {
    forall i | 0 <= i < |texts| :: IsImage(texts[i], start, end)
  }

  ghost predicate IsImage(text: string, start: string, end: string) {
    start <= text && EndCloses(text[|start|..], end)
  }

  lemma CollapseImage(a: string, text: string, start: string, end: string, rest: string)
    requires Opens(start) && FindFrom(a, start, 0) == -1 && IsImage(text, start, end)
    ensures Collapse(a + (text + rest), start, end) == a + start + Collapse(rest, start, end)
  {
    var grid := text[|start|..];
    assert text == start + grid;
    CollapseOne(a, start, grid, end, rest);
  }

  lemma {:induction false} CollapseFill(s: string, texts: seq<string>, start: string, end: string)
    requires Opens(start) && |Split(s, start)| == |texts| + 1 && AreImages(texts, start, end)
    ensures Collapse(Fill(Split(s, start), texts), start, end) == s
    decreases |s|
  {
    var k := FindFrom(s, start, 0);
    if k == -1 {
    } else {
      var a, rest := s[..k], s[k + |start|..];
      assert Split(s, start)[1..] == Split(rest, start);
      CollapseFill(rest, texts[1..], start, end);
      NotBefore(s, start, k);
      CollapseImage(a, texts[0], start, end, Fill(Split(rest, start), texts[1..]));
      Apart(s, start, k);
    }
  }

  // ----- counting markers -----

  predicate MarkerStarts(ms: Marks, s: string) {
    ms.start <= s || ms.pad <= s || ms.brk <= s || ms.end <= s
  }

  /** The number of places at which a marker stands. */
  function Markers(ms: Marks, s: string): nat {
    if s == "" then 0 else (if MarkerStarts(ms, s) then 1 else 0) + Markers(ms, s[1..])
  }

  lemma {:induction false} NoneInPlainText(ms: Marks, x: string, b: string)
    requires Recognizable(ms) && forall i | 0 <= i < |x| :: x[i] != '<'
    ensures Markers(ms, x + b) == Markers(ms, b)
  {
    if x == "" {
      assert x + b == b;
    } else {
      assert (x + b)[0] == x[0];
      assert (x + b)[1..] == x[1..] + b;
      NoneInPlainText(ms, x[1..], b);
    }
  }

  lemma OneMarker(ms: Marks, m: string, b: string)
    requires Recognizable(ms) && (m == ms.start || m == ms.pad || m == ms.brk || m == ms.end)
    ensures Markers(ms, m + b) == 1 + Markers(ms, b)
  {
    assert m <= m + b;
    assert (m + b)[1..] == m[1..] + b;
    NoneInPlainText(ms, m[1..], b);
  }

  lemma PrefixBeforeOpening(a: string, b: string, m: string)
    requires a != "" && b != "" && b[0] == '<' && Opens(m)
    ensures m <= a + b <==> m <= a
  {
    assert (a + b)[|a|] == b[0];
  }

  lemma {:induction false} MarkersBeforeOpening(ms: Marks, a: string, b: string)
    requires Recognizable(ms) && b != "" && b[0] == '<'
    ensures Markers(ms, a + b) == Markers(ms, a) + Markers(ms, b)
  {
    if a == "" {
      assert a + b == b;
    } else {
      PrefixBeforeOpening(a, b, ms.start);
      PrefixBeforeOpening(a, b, ms.pad);
      PrefixBeforeOpening(a, b, ms.brk);
      PrefixBeforeOpening(a, b, ms.end);
      assert (a + b)[1..] == a[1..] + b;
      MarkersBeforeOpening(ms, a[1..], b);
    }
  }

  lemma TimesStep(piece: string, n: nat, rest: string)
    requires n > 0
    ensures Times(piece, n) + rest == piece + (Times(piece, n - 1) + rest)
  {
    Associates(piece, Times(piece, n - 1), rest);
  }

  lemma {:induction false} MarkersOfPads(ms: Marks, columns: nat, b: string)
    requires Recognizable(ms)
    ensures Markers(ms, Times(ms.pad, columns) + b) == columns + Markers(ms, b)
  {
    if columns == 0 {
      assert "" + b == b;
    } else {
      TimesStep(ms.pad, columns, b);
      OneMarker(ms, ms.pad, Times(ms.pad, columns - 1) + b);
      MarkersOfPads(ms, columns - 1, b);
    }
  }

  lemma MarkersOfRow(ms: Marks, columns: nat, m: string, rest: string)
    requires Recognizable(ms) && (m == ms.brk || m == ms.end)
    ensures Markers(ms, Times(ms.pad, columns) + (m + rest)) == columns + 1 + Markers(ms, rest)
  {
    MarkersOfPads(ms, columns, m + rest);
    OneMarker(ms, m, rest);
  }

  lemma FirstRow(ms: Marks, rows: nat, columns: nat, rest: string)
    requires Recognizable(ms) && rows >= 1
    ensures Markers(ms, GridText(ms, rows, columns) + rest) ==
            columns + 1 + if rows == 1 then Markers(ms, rest) else Markers(ms, GridText(ms, rows - 1, columns) + rest)
  {
    GridTextSteps(ms, rows, columns, rest);
    if rows == 1 {
      MarkersOfRow(ms, columns, ms.end, rest);
    } else {
      MarkersOfRow(ms, columns, ms.brk, GridText(ms, rows - 1, columns) + rest);
    }
  }

  function Area(rows: nat, columns: nat): nat {
    if rows == 0 then 0 else columns + Area(rows - 1, columns)
  }

  lemma {:induction false} AreaIsProduct(rows: nat, columns: nat)
    ensures Area(rows, columns) == rows * columns
  {
    if rows == 0 {
    } else {
      AreaIsProduct(rows - 1, columns);
    }
  }

  lemma {:induction false} MarkersOfRows(ms: Marks, rows: nat, columns: nat, rest: string)
    requires Recognizable(ms) && rows >= 1
    ensures Markers(ms, GridText(ms, rows, columns) + rest) == Area(rows, columns) + rows + Markers(ms, rest)
  {
    FirstRow(ms, rows, columns, rest);
    if rows == 1 {
    } else {
      MarkersOfRows(ms, rows - 1, columns, rest);
    }
  }

  lemma MarkersOfGrid(ms: Marks, rows: nat, columns: nat, rest: string)
    requires Recognizable(ms) && rows >= 1
    ensures Markers(ms, GridText(ms, rows, columns) + rest) == rows * columns + rows + Markers(ms, rest)
  {
    MarkersOfRows(ms, rows, columns, rest);
    AreaIsProduct(rows, columns);
  }

  function Total(counts: seq<int>): int {
    if counts == [] then 0 else counts[0] + Total(counts[1..])
  }

  /** A text that opens with a marker and adds `count` markers to whatever follows it. */
  ghost predicate Adds(ms: Marks, text: string, count: int) {
    && text != "" && text[0] == '<'
    && forall rest: string :: Markers(ms, text + rest) == count + Markers(ms, rest)
  }

  lemma {:induction false} MarkersOfFill(ms: Marks, s: string, texts: seq<string>, counts: seq<int>)
    requires Recognizable(ms) && |Split(s, ms.start)| == |texts| + 1 && |counts| == |texts|
    requires forall i | 0 <= i < |texts| :: Adds(ms, texts[i], counts[i] + 1)
    ensures Markers(ms, Fill(Split(s, ms.start), texts)) == Markers(ms, s) + Total(counts)
    decreases |s|
  {
    var k := FindFrom(s, ms.start, 0);
    if k == -1 {
    } else {
      var a, rest := s[..k], s[k + |ms.start|..];
      assert Split(s, ms.start)[1..] == Split(rest, ms.start);
      MarkersOfFill(ms, rest, texts[1..], counts[1..]);
      var filled := Fill(Split(rest, ms.start), texts[1..]);
      assert Adds(ms, texts[0], counts[0] + 1);
      MarkersBeforeOpening(ms, a, texts[0] + filled);
      Apart(s, ms.start, k);
      MarkersBeforeOpening(ms, a, ms.start + rest);
      OneMarker(ms, ms.start, rest);
    }
  }
}
