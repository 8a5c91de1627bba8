/** What the role-mask scanner means: which tokens of a row contribute to the loss.
    The row is cut into spans, a span being what one role boundary claims; the mask
    is then read off the spans. */
module RoleMask {
  import opened Sequences

  datatype RoleBoundary = RoleBoundary(
    role: string,
    startTokens: seq<int>,
    endTokens: seq<int>,
    includeStart: bool,
    includeEnd: bool)

  datatype EosMode = Turn | All | Never | Last

  /** A claimed stretch: `[start, content)` is the start marker, `[content, contentEnd)`
      the content and, when `closed`, `[contentEnd, endAfter)` the end marker. */
  datatype Span = Span(boundary: nat, start: nat, content: nat, contentEnd: nat, endAfter: nat, closed: bool)

  /** The boundary's start marker stands at `j`; an empty marker never does. */
  predicate Starts(tokens: seq<int>, j: int, b: RoleBoundary) {
    b.startTokens != [] && OccursAt(tokens, j, b.startTokens)
  }

  /** `w` is the first boundary among the longest that start at `j`. */
  predicate FirstLongest(tokens: seq<int>, bs: seq<RoleBoundary>, j: int, w: nat) {
    && w < |bs|
    && Starts(tokens, j, bs[w])
    && forall i | 0 <= i < |bs| && i != w && Starts(tokens, j, bs[i]) ::
         && |bs[i].startTokens| <= |bs[w].startTokens|
         && (|bs[i].startTokens| == |bs[w].startTokens| ==> w < i)
  }

  predicate NoneStarts(tokens: seq<int>, bs: seq<RoleBoundary>, j: int) {
    forall i | 0 <= i < |bs| :: !Starts(tokens, j, bs[i])
  }

  /** The boundary that claims position `j`, or -1. */
  function Winner(tokens: seq<int>, bs: seq<RoleBoundary>, j: int): (w: int)
    ensures w == -1 ==> NoneStarts(tokens, bs, j)
    ensures w != -1 ==> 0 <= w && FirstLongest(tokens, bs, j, w)
  {
    if bs == [] then -1
    else
      var last := |bs| - 1;
      var w := Winner(tokens, bs[..last], j);
      if Starts(tokens, j, bs[last]) && (w == -1 || |bs[last].startTokens| > |bs[w].startTokens|)
      then last
      else w
  }

  lemma WinnerIsFirstLongest(tokens: seq<int>, bs: seq<RoleBoundary>, j: int, w: nat)
    requires FirstLongest(tokens, bs, j, w)
    ensures Winner(tokens, bs, j) == w
  {
  }

  /** The span boundary `w` claims at `j`: its content runs to the nearest end marker,
      or to the end of the row when there is none. */
  function SpanAt(tokens: seq<int>, bs: seq<RoleBoundary>, j: nat, w: nat): (sp: Span)
    requires w < |bs| && Starts(tokens, j, bs[w])
    ensures sp.boundary == w && sp.start == j < sp.content <= sp.contentEnd <= sp.endAfter <= |tokens|
    ensures sp.closed <==> sp.contentEnd < sp.endAfter
    ensures sp.closed ==> sp.endAfter == sp.contentEnd + |bs[w].endTokens|
  {
    var content := j + |bs[w].startTokens|;
    var e := bs[w].endTokens;
    var k := if e == [] then -1 else FindFrom(tokens, e, content);
    if k == -1 then Span(w, j, content, |tokens|, |tokens|, false)
    else Span(w, j, content, k, k + |e|, true)
  }

  /** The content of a span stops at the nearest end marker, or runs to the end of the row
      when there is none (or when the boundary has no end marker at all). */
  lemma SpanStopsAtNearestEnd(tokens: seq<int>, bs: seq<RoleBoundary>, j: nat, w: nat)
    requires w < |bs| && Starts(tokens, j, bs[w])
    ensures var sp, e := SpanAt(tokens, bs, j, w), bs[w].endTokens;
            && sp.content == j + |bs[w].startTokens|
            && (if sp.closed then e != [] && OccursAt(tokens, sp.contentEnd, e) && sp.endAfter == sp.contentEnd + |e|
                else sp.contentEnd == sp.endAfter == |tokens|)
            && (e != [] ==> forall p :: sp.content <= p && (sp.closed ==> p < sp.contentEnd) ==> !OccursAt(tokens, p, e))
  {
  }

  /** Where the scan goes on after a span: an end marker its boundary does not include
      is left to be matched again as a start marker. */
  function Resume(bs: seq<RoleBoundary>, sp: Span): nat
    requires sp.boundary < |bs|
  {
    if sp.closed && !bs[sp.boundary].includeEnd then sp.contentEnd else sp.endAfter
  }

  /** The spans found from `j` on. They depend on the tokens and the boundaries alone. */
  function Spans(tokens: seq<int>, bs: seq<RoleBoundary>, j: nat): (spans: seq<Span>)
    ensures forall i | 0 <= i < |spans| :: spans[i].boundary < |bs|
    decreases |tokens| - j
  {
    if j >= |tokens| then []
    else
      var w := Winner(tokens, bs, j);
      if w == -1 then Spans(tokens, bs, j + 1)
      else
        var sp := SpanAt(tokens, bs, j, w);
        [sp] + Spans(tokens, bs, Resume(bs, sp))
  }

  // ----- the mask of a list of spans -----

  predicate Trained(bs: seq<RoleBoundary>, sp: Span, roles: set<string>) {
    sp.boundary < |bs| && bs[sp.boundary].role in roles
  }

  /** The span found an end marker that its boundary includes. */
  predicate EndIncluded(bs: seq<RoleBoundary>, sp: Span) {
    sp.boundary < |bs| && sp.closed && bs[sp.boundary].includeEnd
  }

  predicate InEnd(sp: Span, t: int) {
    sp.contentEnd <= t < sp.endAfter
  }

  /** Tokens a trained span keeps whatever the mode. */
  predicate InBody(bs: seq<RoleBoundary>, sp: Span, roles: set<string>, t: int) {
    && Trained(bs, sp, roles)
    && (sp.content <= t < sp.contentEnd || (bs[sp.boundary].includeStart && sp.start <= t < sp.content))
  }

  /** The end marker of the span is kept on the spot. */
  predicate KeepsEnd(bs: seq<RoleBoundary>, sp: Span, roles: set<string>, mode: EosMode) {
    EndIncluded(bs, sp) && (mode == All || (mode == Turn && Trained(bs, sp, roles)))
  }

  predicate MarkedBy(bs: seq<RoleBoundary>, sp: Span, roles: set<string>, mode: EosMode, t: int) {
    InBody(bs, sp, roles, t) || (KeepsEnd(bs, sp, roles, mode) && InEnd(sp, t))
  }

  /** Index of the last trained span with an included end marker, or -1. */
  function LastEnd(bs: seq<RoleBoundary>, spans: seq<Span>, roles: set<string>): (k: int)
    ensures -1 <= k < |spans|
    ensures k >= 0 ==> Trained(bs, spans[k], roles) && EndIncluded(bs, spans[k])
    ensures forall i | k < i < |spans| :: !(Trained(bs, spans[i], roles) && EndIncluded(bs, spans[i]))
  {
    if spans == [] then -1
    else
      var n := |spans| - 1;
      if Trained(bs, spans[n], roles) && EndIncluded(bs, spans[n]) then n
      else LastEnd(bs, spans[..n], roles)
  }

  /** Some span of the list keeps token `t` on the spot. */
  predicate MarkedByAny(bs: seq<RoleBoundary>, spans: seq<Span>, roles: set<string>, mode: EosMode, t: int) {
    exists i :: 0 <= i < |spans| && MarkedBy(bs, spans[i], roles, mode, t)
  }

  predicate Kept(bs: seq<RoleBoundary>, spans: seq<Span>, roles: set<string>, mode: EosMode, t: int) {
    || MarkedByAny(bs, spans, roles, mode, t)
    || (mode == Last && var k := LastEnd(bs, spans, roles); k >= 0 && InEnd(spans[k], t))
  }

  function KeepRow(tokens: seq<int>, bs: seq<RoleBoundary>, roles: set<string>, mode: EosMode): (row: seq<bool>)
    ensures |row| == |tokens|
  {
    var spans := Spans(tokens, bs, 0);
    seq(|tokens|, t => Kept(bs, spans, roles, mode, t))
  }

  /** The mask of a batch: `result[i][t]` says whether token `t` of row `i` is in the loss. */
  function KeepMask(labels: seq<seq<int>>, bs: seq<RoleBoundary>, roles: set<string>, mode: EosMode): (mask: seq<seq<bool>>)
  {
    seq(|labels|, i requires 0 <= i < |labels| => KeepRow(labels[i], bs, roles, mode))
  }
}
