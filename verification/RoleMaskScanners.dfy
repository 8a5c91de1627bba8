/** The two scanners, each a loop that writes a row mask in place, and the proof that
    both compute `RoleMask.KeepMask`. */
module RoleMaskScanners {
  import opened Sequences
  import opened RoleMask

  // ----- what both share -----

  /** `row[from..to] = 1`. */
  method MarkSlice(row: array<bool>, from: nat, to: nat)
    requires from <= to <= row.Length
    modifies row
    ensures forall t | 0 <= t < row.Length :: row[t] == (old(row[t]) || from <= t < to)
  {
    forall t | from <= t < to {
      row[t] := true;
    }
  }

  /** The row holds the marks of the spans `done`, except those of a `Last` end marker. */
  ghost predicate Marks(row: array<bool>, bs: seq<RoleBoundary>, done: seq<Span>, roles: set<string>, mode: EosMode)
    reads row
  {
    forall t | 0 <= t < row.Length :: row[t] == MarkedByAny(bs, done, roles, mode, t)
  }

  /** `last` remembers the end marker of the last trained span that includes one. */
  ghost predicate Remembers(last: (int, int), bs: seq<RoleBoundary>, done: seq<Span>, roles: set<string>, mode: EosMode) {
    var k := LastEnd(bs, done, roles);
    if mode == Last && k >= 0 then last == (done[k].contentEnd, done[k].endAfter) else last == (-1, -1)
  }

  lemma MarkedByOneMore(bs: seq<RoleBoundary>, done: seq<Span>, sp: Span, roles: set<string>, mode: EosMode, t: int)
    ensures MarkedByAny(bs, done + [sp], roles, mode, t)
        <==> MarkedByAny(bs, done, roles, mode, t) || MarkedBy(bs, sp, roles, mode, t)
  {
    if MarkedByAny(bs, done, roles, mode, t) {
      var i :| 0 <= i < |done| && MarkedBy(bs, done[i], roles, mode, t);
      assert (done + [sp])[i] == done[i];
    }
    assert (done + [sp])[|done|] == sp;
  }

  /** The branch of the loop body that writes the marks of one span. */
  method MarkSpan(row: array<bool>, bs: seq<RoleBoundary>, ghost done: seq<Span>, sp: Span,
                  roles: set<string>, mode: EosMode, last: (int, int)) returns (last': (int, int))
    requires sp.boundary < |bs|
    requires sp.start <= sp.content <= sp.contentEnd <= sp.endAfter <= row.Length
    requires Marks(row, bs, done, roles, mode) && Remembers(last, bs, done, roles, mode)
    modifies row
    ensures Marks(row, bs, done + [sp], roles, mode) && Remembers(last', bs, done + [sp], roles, mode)
  {
    last' := last;
    var b := bs[sp.boundary];
    if b.role in roles {
      if b.includeStart {
        MarkSlice(row, sp.start, sp.content);
      }
      MarkSlice(row, sp.content, sp.contentEnd);
      if sp.closed && b.includeEnd && mode != Never && mode != Last {
        MarkSlice(row, sp.contentEnd, sp.endAfter);
      }
      if sp.closed && b.includeEnd && mode == Last {
        last' := (sp.contentEnd, sp.endAfter);
      }
    } else {
      if sp.closed && b.includeEnd && mode == All {
        MarkSlice(row, sp.contentEnd, sp.endAfter);
      }
    }
    forall t | 0 <= t < row.Length ensures row[t] == MarkedByAny(bs, done + [sp], roles, mode, t) {
      MarkedByOneMore(bs, done, sp, roles, mode, t);
    }
    assert (done + [sp])[..|done|] == done;
  }

  lemma SpansFit(tokens: seq<int>, bs: seq<RoleBoundary>, j: nat)
    ensures forall sp | sp in Spans(tokens, bs, j) ::
              sp.start <= sp.content <= sp.contentEnd <= sp.endAfter <= |tokens| && (sp.closed <==> sp.contentEnd < sp.endAfter)
    decreases |tokens| - j
  {
  }

  /** The scan has found `done` and goes on at `j`. */
  ghost predicate Reached(tokens: seq<int>, bs: seq<RoleBoundary>, done: seq<Span>, j: nat) {
    done + Spans(tokens, bs, j) == Spans(tokens, bs, 0)
  }

  /** One claimed span moves the scan from `j` to where the span resumes. */
  lemma ReachedAfterSpan(tokens: seq<int>, bs: seq<RoleBoundary>, done: seq<Span>, j: nat, sp: Span)
    requires Reached(tokens, bs, done, j) && j < |tokens| && Winner(tokens, bs, j) != -1
    requires sp == SpanAt(tokens, bs, j, Winner(tokens, bs, j))
    ensures Reached(tokens, bs, done + [sp], Resume(bs, sp))
  {
  }

  /** The loop invariant of both scanners: the scan has found `done`, goes on at `j`, and
      row and memory hold what those spans say. */
  ghost predicate Progress(tokens: seq<int>, bs: seq<RoleBoundary>, roles: set<string>, mode: EosMode,
                           row: array<bool>, last: (int, int), done: seq<Span>, j: nat)
    reads row
  {
    && row.Length == |tokens|
    && Reached(tokens, bs, done, j)
    && Marks(row, bs, done, roles, mode)
    && Remembers(last, bs, done, roles, mode)
  }

  /** The end of a row: the remembered end marker is kept under `Last`. */
  method FinishRow(tokens: seq<int>, bs: seq<RoleBoundary>, roles: set<string>, mode: EosMode,
                   row: array<bool>, last: (int, int), ghost done: seq<Span>, ghost j: nat) returns (mask: seq<bool>)
    requires Progress(tokens, bs, roles, mode, row, last, done, j) && j >= |tokens|
    modifies row
    ensures mask == KeepRow(tokens, bs, roles, mode)
  {
    SpansFit(tokens, bs, 0);
    assert done == done + Spans(tokens, bs, j);
    if mode == Last && last != (-1, -1) {
      MarkSlice(row, last.0, last.1);
    }
    mask := row[..];
  }

  /** A fresh row. */
  method StartRow(tokens: seq<int>, bs: seq<RoleBoundary>, roles: set<string>, mode: EosMode) returns (row: array<bool>)
    ensures fresh(row) && Progress(tokens, bs, roles, mode, row, (-1, -1), [], 0)
  {
    row := new bool[|tokens|](_ => false);
  }

  lemma ProgressAfterNone(tokens: seq<int>, bs: seq<RoleBoundary>, roles: set<string>, mode: EosMode,
                          row: array<bool>, last: (int, int), done: seq<Span>, j: nat)
    requires Progress(tokens, bs, roles, mode, row, last, done, j) && j < |tokens| && Winner(tokens, bs, j) == -1
    ensures Progress(tokens, bs, roles, mode, row, last, done, j + 1)
  {
  }

  method TakeSpan(tokens: seq<int>, bs: seq<RoleBoundary>, roles: set<string>, mode: EosMode,
                  row: array<bool>, last: (int, int), ghost done: seq<Span>, ghost j: nat, sp: Span) returns (last': (int, int))
    requires Progress(tokens, bs, roles, mode, row, last, done, j)
    requires j < |tokens| && Winner(tokens, bs, j) != -1 && sp == SpanAt(tokens, bs, j, Winner(tokens, bs, j))
    modifies row
    ensures Progress(tokens, bs, roles, mode, row, last', done + [sp], Resume(bs, sp))
  {
    ReachedAfterSpan(tokens, bs, done, j, sp);
    last' := MarkSpan(row, bs, done, sp, roles, mode, last);
  }

  // ----- the reference scanner -----

  method MatchPrefix(tokens: seq<int>, start: nat, marker: seq<int>) returns (r: bool)
    ensures r <==> marker != [] && OccursAt(tokens, start, marker)
  {
    if marker == [] || start + |marker| > |tokens| {
      return false;
    }
    return tokens[start..start + |marker|] == marker;
  }

  method FindEnd(tokens: seq<int>, start: nat, endTokens: seq<int>) returns (endAfter: nat, found: bool)
    requires start <= |tokens|
    ensures endTokens == [] ==> !found
    ensures endTokens != [] ==> found == (FindFrom(tokens, endTokens, start) != -1)
    ensures endAfter == if found then FindFrom(tokens, endTokens, start) + |endTokens| else |tokens|
  {
    if endTokens == [] {
      return |tokens|, false;
    }
    var k := start;
    while k < |tokens|
      invariant start <= k <= |tokens|
      invariant forall i | start <= i < k :: !OccursAt(tokens, i, endTokens)
    {
      var here := MatchPrefix(tokens, k, endTokens);
      if here {
        FindFromIsLeast(tokens, endTokens, start, k);
        return k + |endTokens|, true;
      }
      k := k + 1;
    }
    return k, false;
  }

  method BestMatch(tokens: seq<int>, bs: seq<RoleBoundary>, j: nat) returns (best: int)
    ensures best == Winner(tokens, bs, j)
  {
    best := -1;
    var i := 0;
    while i < |bs|
      invariant 0 <= i <= |bs|
      invariant best == Winner(tokens, bs[..i], j)
    {
      assert bs[..i + 1][..i] == bs[..i];
      var here := MatchPrefix(tokens, j, bs[i].startTokens);
      if here {
        if best == -1 || |bs[i].startTokens| > |bs[best].startTokens| {
          best := i;
        }
      }
      i := i + 1;
    }
    assert bs[..|bs|] == bs;
  }

  /** The span claimed at `j`, and where the scan goes on: when the end marker is not
      included it is not consumed either. */
  method Claim(tokens: seq<int>, bs: seq<RoleBoundary>, j: nat, best: nat) returns (sp: Span, next: nat)
    requires best < |bs| && Starts(tokens, j, bs[best])
    ensures sp == SpanAt(tokens, bs, j, best)
    ensures next == Resume(bs, sp)
  {
    var b := bs[best];
    var content := j + |b.startTokens|;
    var endAfter, found := FindEnd(tokens, content, b.endTokens);
    var contentEnd := if found then endAfter - |b.endTokens| else endAfter;
    sp := Span(best, j, content, contentEnd, endAfter, found);
    if found && !b.includeEnd && b.endTokens != [] {
      next := endAfter - |b.endTokens|;
    } else {
      next := endAfter;
    }
  }

  method ScanRow(tokens: seq<int>, bs: seq<RoleBoundary>, roles: set<string>, mode: EosMode) returns (mask: seq<bool>)
    ensures mask == KeepRow(tokens, bs, roles, mode)
  {
    var n := |tokens|;
    var row := StartRow(tokens, bs, roles, mode);
    var last := (-1, -1);
    ghost var done: seq<Span> := [];
    var j := 0;
    while j < n
      invariant Progress(tokens, bs, roles, mode, row, last, done, j)
      decreases n - j
    {
      var best := BestMatch(tokens, bs, j);
      if best == -1 {
        ProgressAfterNone(tokens, bs, roles, mode, row, last, done, j);
        j := j + 1;
      } else {
        var sp, next := Claim(tokens, bs, j, best);
        last := TakeSpan(tokens, bs, roles, mode, row, last, done, j, sp);
        done := done + [sp];
        j := next;
      }
    }
    mask := FinishRow(tokens, bs, roles, mode, row, last, done, j);
  }

  method ComputeRoleKeepMask(labels: seq<seq<int>>, bs: seq<RoleBoundary>, roles: set<string>, mode: EosMode)
    returns (mask: seq<seq<bool>>)
    ensures mask == KeepMask(labels, bs, roles, mode)
    ensures |mask| == |labels| && forall i | 0 <= i < |labels| :: mask[i] == KeepRow(labels[i], bs, roles, mode)
  {
    mask := [];
    for i := 0 to |labels|
      invariant |mask| == i
      invariant forall r | 0 <= r < i :: mask[r] == KeepRow(labels[r], bs, roles, mode)
    {
      var row := ScanRow(labels[i], bs, roles, mode);
      mask := mask + [row];
    }
  }
}
