/** Where the scan goes: which positions start a span, and what a shared marker does. The
    laws here speak of the tokens, the boundaries and the spans alone. */
module RoleMaskPath {
  import opened Sequences
  import opened RoleMask
  import opened RoleMaskOrder

  /** The first span from `j` on starts at the first position at which a boundary starts. */
  lemma {:induction false} FirstStart(tokens: seq<int>, bs: seq<RoleBoundary>, j: nat, p: nat)
    requires j <= p < |tokens|
    ensures var spans := Spans(tokens, bs, j);
            && (spans == [] || p < spans[0].start ==> Winner(tokens, bs, p) == -1)
            && (spans != [] ==> j <= spans[0].start < |tokens| && spans[0].boundary == Winner(tokens, bs, spans[0].start))
    decreases |tokens| - j
  {
    if Winner(tokens, bs, j) == -1 {
      if j < p {
        FirstStart(tokens, bs, j + 1, p);
      } else if j + 1 < |tokens| {
        FirstStart(tokens, bs, j + 1, j + 1);
      } else {
        assert Spans(tokens, bs, j + 1) == [];
      }
    }
  }

  lemma TailOfCons(sp: Span, rest: seq<Span>, i: nat)
    requires i <= |rest|
    ensures ([sp] + rest)[i + 1..] == rest[i..]
    ensures ([sp] + rest)[i] == if i == 0 then sp else rest[i - 1]
    ensures rest[0..] == rest
  {
  }

  /** The spans after the `i`-th are those found from where the `i`-th resumes. */
  lemma {:induction false} LaterSpans(tokens: seq<int>, bs: seq<RoleBoundary>, j: nat, i: nat)
    requires i < |Spans(tokens, bs, j)|
    ensures Spans(tokens, bs, j)[i + 1..] == Spans(tokens, bs, Resume(bs, Spans(tokens, bs, j)[i]))
    decreases |tokens| - j
  {
    var w := Winner(tokens, bs, j);
    if w == -1 {
      LaterSpans(tokens, bs, j + 1, i);
    } else {
      var sp := SpanAt(tokens, bs, j, w);
      TailOfCons(sp, Spans(tokens, bs, Resume(bs, sp)), i);
      if i > 0 {
        LaterSpans(tokens, bs, Resume(bs, sp), i - 1);
      }
    }
  }

  /** `next` is the position of the first start marker from `from` on; there is none when it
      is the length of the row. */
  ghost predicate NextStart(tokens: seq<int>, bs: seq<RoleBoundary>, from: int, next: int) {
    && from <= next <= |tokens|
    && (forall p, k | from <= p < next && 0 <= k < |bs| :: !Starts(tokens, p, bs[k]))
    && (next < |tokens| ==> exists k :: 0 <= k < |bs| && Starts(tokens, next, bs[k]))
  }

  lemma NextStartIs(tokens: seq<int>, bs: seq<RoleBoundary>, from: nat, next: nat)
    requires from <= next <= |tokens| && (next < |tokens| ==> Winner(tokens, bs, next) != -1)
    requires forall p | from <= p < next :: Winner(tokens, bs, p) == -1
    ensures NextStart(tokens, bs, from, next)
  {
    forall p, k | from <= p < next && 0 <= k < |bs| ensures !Starts(tokens, p, bs[k]) {
      assert Winner(tokens, bs, p) == -1 && NoneStarts(tokens, bs, p);
    }
    if next < |tokens| {
      assert Starts(tokens, next, bs[Winner(tokens, bs, next)]);
    }
  }

  lemma FirstSpanFrom(tokens: seq<int>, bs: seq<RoleBoundary>, j: nat)
    requires j <= |tokens|
    ensures var spans := Spans(tokens, bs, j);
            NextStart(tokens, bs, j, if spans == [] then |tokens| else spans[0].start)
  {
    var spans := Spans(tokens, bs, j);
    var next := if spans == [] then |tokens| else spans[0].start;
    if j < |tokens| {
      FirstStart(tokens, bs, j, j);
    }
    forall p | j <= p < next ensures Winner(tokens, bs, p) == -1 {
      FirstStart(tokens, bs, j, p);
    }
    NextStartIs(tokens, bs, j, next);
  }

  /** The scan begins with the first start marker of the row, and after each span it goes on
      with the first one from the end of the span; an end marker that the boundary does not
      include is looked at again, any other is passed. */
  lemma ScanGoesOn(tokens: seq<int>, bs: seq<RoleBoundary>, i: nat)
    ensures var spans := Spans(tokens, bs, 0);
            && NextStart(tokens, bs, 0, if spans == [] then |tokens| else spans[0].start)
            && (i < |spans| ==>
                  var sp := spans[i];
                  var from := if sp.closed && !bs[sp.boundary].includeEnd then sp.contentEnd else sp.endAfter;
                  NextStart(tokens, bs, from, if i + 1 < |spans| then spans[i + 1].start else |tokens|))
  {
    var spans := Spans(tokens, bs, 0);
    FirstSpanFrom(tokens, bs, 0);
    if i < |spans| {
      SpansPlaced(tokens, bs);
      LaterSpans(tokens, bs, 0, i);
      FirstSpanFrom(tokens, bs, Resume(bs, spans[i]));
      assert i + 1 < |spans| ==> spans[i + 1..][0] == spans[i + 1];
    }
  }

  /** A start marker that stands at an excluded end marker opens the next span. */
  lemma SharedMarkerOpens(tokens: seq<int>, bs: seq<RoleBoundary>, i: nat)
    requires i < |Spans(tokens, bs, 0)|
    requires var sp := Spans(tokens, bs, 0)[i];
             sp.closed && !bs[sp.boundary].includeEnd && Winner(tokens, bs, sp.contentEnd) != -1
    ensures var spans := Spans(tokens, bs, 0);
            && i + 1 < |spans| && spans[i + 1].start == spans[i].contentEnd
            && spans[i + 1].boundary == Winner(tokens, bs, spans[i].contentEnd)
  {
    var spans := Spans(tokens, bs, 0);
    var e := spans[i].contentEnd;
    ScanGoesOn(tokens, bs, i);
    assert Starts(tokens, e, bs[Winner(tokens, bs, e)]);
    SpansSound(tokens, bs, 0);
  }

  /** So the content of a trained role is kept although its start marker was the end marker
      of the span before: all of it, up to the nearest end marker of its own. */
  lemma SharedMarkerContentIsKept(tokens: seq<int>, bs: seq<RoleBoundary>, roles: set<string>, mode: EosMode, i: nat, t: nat)
    requires i < |Spans(tokens, bs, 0)|
    requires var sp := Spans(tokens, bs, 0)[i];
             sp.closed && !bs[sp.boundary].includeEnd && Winner(tokens, bs, sp.contentEnd) != -1
    requires var e := Spans(tokens, bs, 0)[i].contentEnd;
             var b := bs[Winner(tokens, bs, e)];
             && b.role in roles && e + |b.startTokens| <= t < |tokens|
             && (b.endTokens != [] ==> forall p | e + |b.startTokens| <= p <= t :: !OccursAt(tokens, p, b.endTokens))
    ensures KeepRow(tokens, bs, roles, mode)[t]
  {
    SharedMarkerOpens(tokens, bs, i);
    SpansPlaced(tokens, bs);
    ContentStopsAtNearestEnd(tokens, bs, i + 1);
    KeptExactly(tokens, bs, roles, mode, i + 1, t);
  }

  const SHARED_ROW := [1, 5, 2, 6, 9]
  const SHARED_MARKER := [RoleBoundary("user", [1], [2], false, false), RoleBoundary("assistant", [2], [9], false, true)]

  lemma SharedSpans()
    ensures Spans(SHARED_ROW, SHARED_MARKER, 0) == [Span(0, 0, 1, 2, 3, true), Span(1, 2, 3, 4, 5, true)]
  {
    var row, bs := SHARED_ROW, SHARED_MARKER;
    assert row[0..1] == [1] && row[1..2] == [5] && row[2..3] == [2] && row[3..4] == [6] && row[4..5] == [9];
    FindFromIsLeast(row, [2], 1, 2);
    FindFromIsLeast(row, [9], 3, 4);
    WinnerIsFirstLongest(row, bs, 0, 0);
    WinnerIsFirstLongest(row, bs, 2, 1);
    assert SpanAt(row, bs, 0, 0) == Span(0, 0, 1, 2, 3, true);
    assert SpanAt(row, bs, 2, 1) == Span(1, 2, 3, 4, 5, true);
    assert Spans(row, bs, 2) == [SpanAt(row, bs, 2, 1)] + Spans(row, bs, 5);
    assert Spans(row, bs, 0) == [SpanAt(row, bs, 0, 0)] + Spans(row, bs, 2);
  }

  lemma SharedKept(i: nat, t: nat)
    requires (i == 0 && t < 2) || (i == 1 && 2 <= t < 5)
    ensures KeepRow(SHARED_ROW, SHARED_MARKER, {"assistant"}, Turn)[t] <==> t >= 3
  {
    SharedSpans();
    KeptExactly(SHARED_ROW, SHARED_MARKER, {"assistant"}, Turn, i, t);
  }

  lemma FiveFlags(mask: seq<bool>)
    requires |mask| == 5 && !mask[0] && !mask[1] && !mask[2] && mask[3] && mask[4]
    ensures mask == [false, false, false, true, true]
  {
  }

  /** One marker ends the user's turn and starts the assistant's: the answer (token 3) and
      its end marker (token 4) are in the loss. */
  lemma SharedMarkerExample()
    ensures KeepRow(SHARED_ROW, SHARED_MARKER, {"assistant"}, Turn) == [false, false, false, true, true]
  {
    SharedKept(0, 0);
    SharedKept(0, 1);
    SharedKept(1, 2);
    SharedKept(1, 3);
    SharedKept(1, 4);
    FiveFlags(KeepRow(SHARED_ROW, SHARED_MARKER, {"assistant"}, Turn));
  }
}
