/** The vectorized scanner: boundaries sorted longest first fill a table of start winners,
    end markers are listed once per row, and the row loop looks both up. */
module RoleMaskVectorized {
  import opened Sequences
  import opened RoleMask
  import opened RoleMaskScanners
  import opened Wrappers

  // ----- the order of the boundaries -----

  ghost predicate Before(bs: seq<RoleBoundary>, a: nat, b: nat)
    requires a < |bs| && b < |bs|
  {
    var la, lb := |bs[a].startTokens|, |bs[b].startTokens|;
    la > lb || (la == lb && a < b)
  }

  /** The first `n` boundary indices, longest start marker first, ties in list order. */
  ghost predicate LongestFirst(bs: seq<RoleBoundary>, n: nat, order: seq<nat>)
    requires n <= |bs|
  {
    && (forall p | 0 <= p < |order| :: order[p] < n)
    && (forall i | 0 <= i < n :: i in order)
    && (forall p, q | 0 <= p < q < |order| :: Before(bs, order[p], order[q]))
  }

  /** A stable sort by decreasing marker length, one boundary after the other. */
  function StableOrder(bs: seq<RoleBoundary>, n: nat): (order: seq<nat>)
    requires n <= |bs|
    ensures LongestFirst(bs, n, order)
  {
    if n == 0 then [] else
      var order := StableOrder(bs, n - 1);
      var k := Slot(bs, order, n - 1);
      InsertedInOrder(bs, order, n - 1, k);
      Inserted(order, n - 1, k)
  }

  function Inserted(order: seq<nat>, m: nat, k: nat): seq<nat>
    requires k <= |order|
  {
    order[..k] + [m] + order[k..]
  }

  lemma InsertedInOrder(bs: seq<RoleBoundary>, order: seq<nat>, m: nat, k: nat)
    requires m < |bs| && LongestFirst(bs, m, order) && k <= |order|
    requires forall p | 0 <= p < k :: Before(bs, order[p], m)
    requires forall p | k <= p < |order| :: Before(bs, m, order[p])
    ensures LongestFirst(bs, m + 1, Inserted(order, m, k))
  {
    var result := Inserted(order, m, k);
    forall i | 0 <= i <= m ensures i in result {
      if i == m {
        assert result[k] == m;
      } else {
        assert i in order;
        var p :| 0 <= p < |order| && order[p] == i;
        assert result[if p < k then p else p + 1] == i;
      }
    }
    forall p, q | 0 <= p < q < |result| ensures Before(bs, result[p], result[q]) {
      assert p != k ==> result[p] == order[if p < k then p else p - 1];
      assert q != k ==> result[q] == order[if q < k then q else q - 1];
    }
  }

  /** Where index `m`, larger than all in `order`, goes: after every marker at least as long. */
  function Slot(bs: seq<RoleBoundary>, order: seq<nat>, m: nat): (k: nat)
    requires m < |bs| && forall p | 0 <= p < |order| :: order[p] < m
    requires forall p, q | 0 <= p < q < |order| :: Before(bs, order[p], order[q])
    ensures k <= |order|
    ensures forall p | 0 <= p < k :: Before(bs, order[p], m)
    ensures forall p | k <= p < |order| :: Before(bs, m, order[p])
  {
    if order == [] then 0
    else
      var n := |order| - 1;
      if |bs[order[n]].startTokens| >= |bs[m].startTokens| then
        assert forall p | 0 <= p < n :: Before(bs, order[p], order[n]);
        |order|
      else Slot(bs, order[..n], m)
  }

  // ----- start winners -----

  /** State of one table cell after the first `m` boundaries of the order: the first of
      them that starts at `j` has written its index and length, and it sticks. */
  ghost predicate FirstWriter(tokens: seq<int>, bs: seq<RoleBoundary>, order: seq<nat>, m: nat, j: int, w: int, len: nat)
    requires m <= |order| && forall p | 0 <= p < |order| :: order[p] < |bs|
  {
    if w == -1 then len == 0 && forall p | 0 <= p < m :: !Starts(tokens, j, bs[order[p]])
    else exists p ::
        && 0 <= p < m && w == order[p] && len == |bs[order[p]].startTokens|
        && Starts(tokens, j, bs[order[p]])
        && forall q | 0 <= q < p :: !Starts(tokens, j, bs[order[q]])
  }

  lemma FirstWriterSticks(tokens: seq<int>, bs: seq<RoleBoundary>, order: seq<nat>, m: nat, j: int, w: int, len: nat)
    requires LongestFirst(bs, |bs|, order) && m < |order|
    requires FirstWriter(tokens, bs, order, m, j, w, len)
    ensures var b := bs[order[m]];
            var update := Starts(tokens, j, b) && len < |b.startTokens|;
            FirstWriter(tokens, bs, order, m + 1, j, if update then order[m] else w, if update then |b.startTokens| else len)
  {
  }

  /** Longest first with "first writer sticks" is the first among the longest. */
  lemma FirstWriterWins(tokens: seq<int>, bs: seq<RoleBoundary>, order: seq<nat>, j: int, w: int, len: nat)
    requires LongestFirst(bs, |bs|, order)
    requires FirstWriter(tokens, bs, order, |order|, j, w, len)
    ensures w == Winner(tokens, bs, j)
  {
    if w == -1 {
      forall i | 0 <= i < |bs| ensures !Starts(tokens, j, bs[i]) {
        assert i in order;
      }
    } else {
      var p :| 0 <= p < |order| && w == order[p] && len == |bs[order[p]].startTokens|
            && Starts(tokens, j, bs[order[p]]) && forall q | 0 <= q < p :: !Starts(tokens, j, bs[order[q]]);
      forall i | 0 <= i < |bs| && i != w && Starts(tokens, j, bs[i])
        ensures Before(bs, w, i)
      {
        assert i in order;
        var q :| 0 <= q < |order| && order[q] == i;
        assert Before(bs, order[p], order[q]);
      }
      WinnerIsFirstLongest(tokens, bs, j, w);
    }
  }

  ghost predicate Rectangular(labels: seq<seq<int>>, width: nat) {
    forall i | 0 <= i < |labels| :: |labels[i]| == width
  }

  ghost predicate Shaped<T>(table: seq<seq<T>>, height: nat, width: nat) {
    |table| == height && forall i | 0 <= i < height :: |table[i]| == width
  }

  method StartWinners(labels: seq<seq<int>>, bs: seq<RoleBoundary>, width: nat) returns (winner: seq<seq<int>>)
    requires Rectangular(labels, width)
    ensures Shaped(winner, |labels|, width)
    ensures forall i, j | 0 <= i < |labels| && 0 <= j < width :: winner[i][j] == Winner(labels[i], bs, j)
  {
    var height := |labels|;
    var order := StableOrder(bs, |bs|);
    winner := seq(height, _ => seq(width, _ => -1));
    var winnerLen: seq<seq<nat>> := seq(height, _ => seq(width, _ => 0));
    for m := 0 to |order|
      invariant Shaped(winner, height, width) && Shaped(winnerLen, height, width)
      invariant forall i, j | 0 <= i < height && 0 <= j < width ::
                  FirstWriter(labels[i], bs, order, m, j, winner[i][j], winnerLen[i][j])
    {
      var index := order[m];
      var b := bs[index];
      ghost var was, wasLen := winner, winnerLen;
      var update := seq(height, i requires 0 <= i < height => seq(width, j requires 0 <= j < width =>
                      Starts(labels[i], j, b) && winnerLen[i][j] < |b.startTokens|));
      winner := seq(height, i requires 0 <= i < height => seq(width, j requires 0 <= j < width =>
                  if update[i][j] then index else winner[i][j]));
      winnerLen := seq(height, i requires 0 <= i < height => seq(width, j requires 0 <= j < width =>
                     if update[i][j] then |b.startTokens| else winnerLen[i][j]));
      forall i, j | 0 <= i < height && 0 <= j < width
        ensures FirstWriter(labels[i], bs, order, m + 1, j, winner[i][j], winnerLen[i][j])
      {
        FirstWriterSticks(labels[i], bs, order, m, j, was[i][j], wasLen[i][j]);
      }
    }
    forall i, j | 0 <= i < height && 0 <= j < width ensures winner[i][j] == Winner(labels[i], bs, j) {
      FirstWriterWins(labels[i], bs, order, j, winner[i][j], winnerLen[i][j]);
    }
  }

  // ----- end positions -----

  /** `positions` lists, in increasing order, exactly the indices at which `e` stands. */
  ghost predicate Lists(positions: seq<nat>, tokens: seq<int>, e: seq<int>) {
    && (forall p, q | 0 <= p < q < |positions| :: positions[p] < positions[q])
    && (forall p | 0 <= p < |positions| :: OccursAt(tokens, positions[p], e))
    && (forall c | OccursAt(tokens, c, e) :: c in positions)
  }

  method EndPositions(tokens: seq<int>, e: seq<int>) returns (positions: seq<nat>)
    ensures Lists(positions, tokens, e)
  {
    positions := [];
    if |e| > |tokens| {
      return;
    }
    for c := 0 to |tokens| - |e| + 1
      invariant forall p | 0 <= p < |positions| :: positions[p] < c && OccursAt(tokens, positions[p], e)
      invariant forall p, q | 0 <= p < q < |positions| :: positions[p] < positions[q]
      invariant forall d | 0 <= d < c && OccursAt(tokens, d, e) :: d in positions
    {
      if tokens[c..c + |e|] == e {
        positions := positions + [c];
      }
    }
  }

  method BisectLeft(positions: seq<nat>, x: nat) returns (idx: nat)
    requires forall p, q | 0 <= p < q < |positions| :: positions[p] < positions[q]
    ensures idx <= |positions|
    ensures forall p | 0 <= p < idx :: positions[p] < x
    ensures forall p | idx <= p < |positions| :: x <= positions[p]
  {
    var lo, hi := 0, |positions|;
    while lo < hi
      invariant 0 <= lo <= hi <= |positions|
      invariant forall p | 0 <= p < lo :: positions[p] < x
      invariant forall p | hi <= p < |positions| :: x <= positions[p]
    {
      var mid := (lo + hi) / 2;
      if positions[mid] < x {
        lo := mid + 1;
      } else {
        hi := mid;
      }
    }
    idx := lo;
  }

  /** The bisected end of a span is the one the linear search finds. */
  method NextEnd(tokens: seq<int>, e: seq<int>, positions: seq<nat>, content: nat) returns (endAfter: nat, found: bool)
    requires content <= |tokens| && e != [] && Lists(positions, tokens, e)
    ensures found == (FindFrom(tokens, e, content) != -1)
    ensures endAfter == if found then FindFrom(tokens, e, content) + |e| else |tokens|
  {
    var limit := |tokens| - |e|;
    var idx := BisectLeft(positions, content);
    if idx < |positions| && positions[idx] <= limit {
      forall i | content <= i < positions[idx] ensures !OccursAt(tokens, i, e) {
        assert i !in positions;
      }
      FindFromIsLeast(tokens, e, content, positions[idx]);
      return positions[idx] + |e|, true;
    }
    return |tokens|, false;
  }

  // ----- the row loop -----

  ghost predicate EndTable(table: seq<Option<seq<nat>>>, tokens: seq<int>, bs: seq<RoleBoundary>) {
    && |table| == |bs|
    && forall k | 0 <= k < |bs| :: if bs[k].startTokens == [] || bs[k].endTokens == [] then table[k] == None
                                   else table[k].Some? && Lists(table[k].value, tokens, bs[k].endTokens)
  }

  method RowEnds(tokens: seq<int>, bs: seq<RoleBoundary>) returns (table: seq<Option<seq<nat>>>)
    ensures EndTable(table, tokens, bs)
  {
    table := [];
    for k := 0 to |bs|
      invariant EndTable(table, tokens, bs[..k])
    {
      assert bs[..k + 1][..k] == bs[..k];
      if bs[k].startTokens == [] || bs[k].endTokens == [] {
        table := table + [None];
      } else {
        var positions := EndPositions(tokens, bs[k].endTokens);
        table := table + [Some(positions)];
      }
    }
    assert bs[..|bs|] == bs;
  }

  /** The end of the span claimed at `j`, and where the scan goes on. */
  method ClaimFast(tokens: seq<int>, bs: seq<RoleBoundary>, table: seq<Option<seq<nat>>>, j: nat, best: nat)
    returns (content: nat, endAfter: nat, found: bool, next: nat)
    requires best < |bs| && Starts(tokens, j, bs[best]) && EndTable(table, tokens, bs)
    ensures ClaimedAs(bs, SpanAt(tokens, bs, j, best), j, best, content, endAfter, found)
    ensures next == Resume(bs, SpanAt(tokens, bs, j, best))
  {
    var b := bs[best];
    content := j + |b.startTokens|;
    var eLen := |b.endTokens|;
    endAfter, found := |tokens|, false;
    if eLen != 0 {
      endAfter, found := NextEnd(tokens, b.endTokens, table[best].value, content);
    }
    next := if found && !b.includeEnd && eLen != 0 then endAfter - eLen else endAfter;
  }

  /** The row loop's variables describe the span. */
  predicate ClaimedAs(bs: seq<RoleBoundary>, sp: Span, j: nat, best: nat, content: nat, endAfter: nat, found: bool) {
    && best < |bs|
    && sp == sp.(boundary := best, start := j, content := content, endAfter := endAfter, closed := found)
    && sp.contentEnd == (if found then endAfter - |bs[best].endTokens| else endAfter)
  }

  /** The branches that write one span into the row's buffer. */
  method MarkFast(row: array<bool>, bs: seq<RoleBoundary>, roles: set<string>, mode: EosMode, last: (int, int),
                  j: nat, best: nat, content: nat, endAfter: nat, found: bool, ghost done: seq<Span>, ghost sp: Span)
    returns (last': (int, int))
    requires ClaimedAs(bs, sp, j, best, content, endAfter, found)
    requires sp.start <= sp.content <= sp.contentEnd <= sp.endAfter <= row.Length
    requires Marks(row, bs, done, roles, mode) && Remembers(last, bs, done, roles, mode)
    modifies row
    ensures Marks(row, bs, done + [sp], roles, mode) && Remembers(last', bs, done + [sp], roles, mode)
  {
    last' := last;
    var eLen, includeEnd := |bs[best].endTokens|, bs[best].includeEnd;
    if bs[best].role in roles {
      if bs[best].includeStart {
        MarkSlice(row, j, content);
      }
      var contentEnd := if found then endAfter - eLen else endAfter;
      MarkSlice(row, content, contentEnd);
      if found && includeEnd && mode != Never && mode != Last {
        MarkSlice(row, contentEnd, endAfter);
      }
      if found && includeEnd && mode == Last {
        last' := (contentEnd, endAfter);
      }
    } else if found && includeEnd && mode == All {
      MarkSlice(row, endAfter - eLen, endAfter);
    }
    forall t | 0 <= t < row.Length ensures row[t] == MarkedByAny(bs, done + [sp], roles, mode, t) {
      MarkedByOneMore(bs, done, sp, roles, mode, t);
    }
    assert (done + [sp])[..|done|] == done;
  }

  method AnyMarked(row: array<bool>) returns (any: bool)
    ensures any <==> exists t :: 0 <= t < row.Length && row[t]
  {
    for t := 0 to row.Length
      invariant forall u | 0 <= u < t :: !row[u]
    {
      if row[t] {
        return true;
      }
    }
    any := false;
  }

  /** The buffer is copied out only when something in it is marked. */
  method CopyOut(tokens: seq<int>, bs: seq<RoleBoundary>, roles: set<string>, mode: EosMode,
                 row: array<bool>, last: (int, int), ghost done: seq<Span>, ghost j: nat) returns (mask: seq<bool>)
    requires Progress(tokens, bs, roles, mode, row, last, done, j) && j >= |tokens|
    modifies row
    ensures mask == KeepRow(tokens, bs, roles, mode)
  {
    SpansFit(tokens, bs, 0);
    assert done == done + Spans(tokens, bs, j);
    if mode == Last && last != (-1, -1) {
      MarkSlice(row, last.0, last.1);
    }
    assert row[..] == KeepRow(tokens, bs, roles, mode);
    mask := seq(|tokens|, _ => false);
    var any := AnyMarked(row);
    if any {
      mask := row[..];
    } else {
      assert row[..] == mask;
    }
  }

  method ScanRowFast(tokens: seq<int>, bs: seq<RoleBoundary>, rowStart: seq<int>, table: seq<Option<seq<nat>>>,
                     roles: set<string>, mode: EosMode) returns (mask: seq<bool>)
    requires |rowStart| == |tokens| && forall j | 0 <= j < |tokens| :: rowStart[j] == Winner(tokens, bs, j)
    requires EndTable(table, tokens, bs)
    ensures mask == KeepRow(tokens, bs, roles, mode)
  {
    var n := |tokens|;
    var row := StartRow(tokens, bs, roles, mode);
    var last := (-1, -1);
    ghost var done: seq<Span> := [];
    var j := 0;
    while j < n
      invariant Progress(tokens, bs, roles, mode, row, last, done, j)
      decreases n - j
    {
      var best := rowStart[j];
      if best == -1 {
        ProgressAfterNone(tokens, bs, roles, mode, row, last, done, j);
        j := j + 1;
      } else {
        ghost var sp := SpanAt(tokens, bs, j, best);
        var content, endAfter, found, next := ClaimFast(tokens, bs, table, j, best);
        ReachedAfterSpan(tokens, bs, done, j, sp);
        last := MarkFast(row, bs, roles, mode, last, j, best, content, endAfter, found, done, sp);
        done := done + [sp];
        j := next;
      }
    }
    mask := CopyOut(tokens, bs, roles, mode, row, last, done, j);
  }

  lemma NoBoundaryKeepsNothing(tokens: seq<int>, bs: seq<RoleBoundary>, j: nat)
    requires bs == [] || tokens == []
    ensures Spans(tokens, bs, j) == []
    decreases |tokens| - j
  {
  }

  lemma NoBoundaryMasksAll(labels: seq<seq<int>>, bs: seq<RoleBoundary>, roles: set<string>, mode: EosMode, width: nat)
    requires Rectangular(labels, width) && (width == 0 || bs == [])
    ensures KeepMask(labels, bs, roles, mode) == seq(|labels|, _ => seq(width, _ => false))
  {
    forall i | 0 <= i < |labels| ensures KeepRow(labels[i], bs, roles, mode) == seq(width, _ => false) {
      NoBoundaryKeepsNothing(labels[i], bs, 0);
    }
  }

  method ComputeRoleKeepMaskVectorized(labels: seq<seq<int>>, bs: seq<RoleBoundary>, roles: set<string>, mode: EosMode,
                                       width: nat) returns (mask: seq<seq<bool>>)
    requires Rectangular(labels, width)
    ensures mask == KeepMask(labels, bs, roles, mode)
  {
    if |labels| == 0 || width == 0 || bs == [] {
      if |labels| != 0 {
        NoBoundaryMasksAll(labels, bs, roles, mode, width);
      }
      mask := seq(|labels|, _ => seq(width, _ => false));
      return;
    }
    var winner := StartWinners(labels, bs, width);
    mask := [];
    for i := 0 to |labels|
      invariant |mask| == i
      invariant forall r | 0 <= r < i :: mask[r] == KeepRow(labels[r], bs, roles, mode)
    {
      var table := RowEnds(labels[i], bs);
      var row := ScanRowFast(labels[i], bs, winner[i], table, roles, mode);
      mask := mask + [row];
    }
  }

  /** Byte-identical output: both scanners return one mask on every batch. */
  method ScannersAgree(labels: seq<seq<int>>, bs: seq<RoleBoundary>, roles: set<string>, mode: EosMode, width: nat)
    returns (reference: seq<seq<bool>>, vectorized: seq<seq<bool>>)
    requires Rectangular(labels, width)
    ensures reference == vectorized == KeepMask(labels, bs, roles, mode)
  {
    reference := ComputeRoleKeepMask(labels, bs, roles, mode);
    vectorized := ComputeRoleKeepMaskVectorized(labels, bs, roles, mode, width);
  }
}
