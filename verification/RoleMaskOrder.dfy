/** Facts about the mask that hold for every row: spans do not overlap, the four
    end-of-turn modes are nested, and training more roles only adds tokens, except
    under `Last`, where the exact condition is given. */
module RoleMaskOrder {
  import opened Sequences
  import opened RoleMask

  /** Spans within `[from, end)`, none reaching into the next. */
  ghost predicate InOrder(bs: seq<RoleBoundary>, spans: seq<Span>, from: nat, end: nat) {
    && (forall i | 0 <= i < |spans| :: spans[i].boundary < |bs|)
    && (forall i | 0 <= i < |spans| :: from <= spans[i].start < spans[i].content <= Resume(bs, spans[i]) <= end)
    && (forall i, k | 0 <= i < k < |spans| :: Resume(bs, spans[i]) <= spans[k].start)
  }

  lemma InOrderCons(bs: seq<RoleBoundary>, sp: Span, rest: seq<Span>, from: nat, end: nat)
    requires sp.boundary < |bs| && from <= sp.start < sp.content <= Resume(bs, sp) <= end
    requires InOrder(bs, rest, Resume(bs, sp), end)
    ensures InOrder(bs, [sp] + rest, from, end)
  {
  }

  /** Spans come in order and none reaches into the next; a rewind still lands past the
      start marker of its span, which is why the scan ends. */
  lemma {:induction false} SpansInOrder(tokens: seq<int>, bs: seq<RoleBoundary>, j: nat)
    ensures InOrder(bs, Spans(tokens, bs, j), j, |tokens|)
    decreases |tokens| - j
  {
    if j >= |tokens| {
    } else {
      var w := Winner(tokens, bs, j);
      if w == -1 {
        SpansInOrder(tokens, bs, j + 1);
      } else {
        var sp := SpanAt(tokens, bs, j, w);
        SpansInOrder(tokens, bs, Resume(bs, sp));
        InOrderCons(bs, sp, Spans(tokens, bs, Resume(bs, sp)), j, |tokens|);
      }
    }
  }

  /** The stretch a span owns: everything up to where the scan resumes. */
  predicate Owns(bs: seq<RoleBoundary>, sp: Span, t: int) {
    sp.boundary < |bs| && sp.start <= t < Resume(bs, sp)
  }

  lemma MarkedIsOwned(bs: seq<RoleBoundary>, sp: Span, roles: set<string>, mode: EosMode, t: int)
    requires sp.boundary < |bs| && sp.start <= sp.content <= sp.contentEnd <= sp.endAfter
    requires MarkedBy(bs, sp, roles, mode, t) || (EndIncluded(bs, sp) && InEnd(sp, t))
    ensures Owns(bs, sp, t)
  {
  }

  lemma {:induction false} SpansSound(tokens: seq<int>, bs: seq<RoleBoundary>, j: nat)
    ensures forall i | 0 <= i < |Spans(tokens, bs, j)| :: var sp := Spans(tokens, bs, j)[i];
              && sp.boundary < |bs| && Winner(tokens, bs, sp.start) == sp.boundary
              && sp == SpanAt(tokens, bs, sp.start, sp.boundary)
    decreases |tokens| - j
  {
    if j >= |tokens| {
    } else {
      var w := Winner(tokens, bs, j);
      SpansSound(tokens, bs, if w == -1 then j + 1 else Resume(bs, SpanAt(tokens, bs, j, w)));
    }
  }

  /** So it is for every span of the row: none has an end marker of its own in its content. */
  lemma ContentStopsAtNearestEnd(tokens: seq<int>, bs: seq<RoleBoundary>, i: nat)
    requires i < |Spans(tokens, bs, 0)|
    ensures var sp := Spans(tokens, bs, 0)[i];
            var e := bs[sp.boundary].endTokens;
            && Winner(tokens, bs, sp.start) == sp.boundary
            && sp.content == sp.start + |bs[sp.boundary].startTokens|
            && (if sp.closed then e != [] && OccursAt(tokens, sp.contentEnd, e) && sp.endAfter == sp.contentEnd + |e|
                else sp.contentEnd == sp.endAfter == |tokens|)
            && (e != [] ==> forall p :: sp.content <= p < sp.contentEnd ==> !OccursAt(tokens, p, e))
  {
    SpansSound(tokens, bs, 0);
    var sp := Spans(tokens, bs, 0)[i];
    SpanStopsAtNearestEnd(tokens, bs, sp.start, sp.boundary);
  }

  /** The scan is greedy: a position no span owns starts no boundary. */
  lemma {:induction false} UnownedStartsNothing(tokens: seq<int>, bs: seq<RoleBoundary>, j: nat, t: nat)
    requires j <= t < |tokens|
    requires forall sp | sp in Spans(tokens, bs, j) :: !Owns(bs, sp, t)
    ensures NoneStarts(tokens, bs, t)
    decreases |tokens| - j
  {
    var w := Winner(tokens, bs, j);
    if w == -1 {
      if j < t {
        UnownedStartsNothing(tokens, bs, j + 1, t);
      }
    } else {
      var sp := SpanAt(tokens, bs, j, w);
      assert sp in Spans(tokens, bs, j);
      UnownedStartsNothing(tokens, bs, Resume(bs, sp), t);
    }
  }

  /** Spans of a row of length `n`, in order, no two owning the same token. */
  ghost predicate Placed(bs: seq<RoleBoundary>, spans: seq<Span>, n: nat) {
    && (forall i | 0 <= i < |spans| :: var sp := spans[i];
          && sp.boundary < |bs| && sp.start < sp.content <= sp.contentEnd <= sp.endAfter <= n
          && (sp.closed <==> sp.contentEnd < sp.endAfter))
    && (forall i, k | 0 <= i < k < |spans| :: Resume(bs, spans[i]) <= spans[k].start)
  }

  lemma SpansPlaced(tokens: seq<int>, bs: seq<RoleBoundary>)
    ensures Placed(bs, Spans(tokens, bs, 0), |tokens|)
  {
    SpansInOrder(tokens, bs, 0);
    SpansSound(tokens, bs, 0);
  }

  /** A token is owned by at most one span. */
  lemma OneOwner(bs: seq<RoleBoundary>, spans: seq<Span>, n: nat, i: nat, k: nat, t: int)
    requires Placed(bs, spans, n) && i < |spans| && k < |spans|
    requires Owns(bs, spans[i], t) && Owns(bs, spans[k], t)
    ensures i == k
  {
  }

  /** Only its owner can keep `t`, on the spot or as the last end marker. */
  lemma KeptByOwner(bs: seq<RoleBoundary>, spans: seq<Span>, n: nat, roles: set<string>, mode: EosMode, i: nat, t: int)
    requires Placed(bs, spans, n) && i < |spans| && Owns(bs, spans[i], t)
    ensures Kept(bs, spans, roles, mode, t) <==>
              || MarkedBy(bs, spans[i], roles, mode, t)
              || (mode == Last && LastEnd(bs, spans, roles) == i && InEnd(spans[i], t))
  {
  }

  /** What is kept of the tokens a span owns: the content of trained roles always, the start
      marker where their boundary includes it, and an included end marker as the mode says:
      under `Last` only when no later trained span has one. */
  lemma KeptExactly(tokens: seq<int>, bs: seq<RoleBoundary>, roles: set<string>, mode: EosMode, i: nat, t: nat)
    requires i < |Spans(tokens, bs, 0)| && Owns(bs, Spans(tokens, bs, 0)[i], t)
    ensures var spans := Spans(tokens, bs, 0);
            var sp, b := spans[i], bs[spans[i].boundary];
            var trained, ended := b.role in roles, sp.closed && b.includeEnd && sp.contentEnd <= t < sp.endAfter;
            t < |tokens| &&
            (KeepRow(tokens, bs, roles, mode)[t] <==>
              || (trained && sp.content <= t < sp.contentEnd)
              || (trained && b.includeStart && sp.start <= t < sp.content)
              || (ended && match mode
                           case All => true
                           case Turn => trained
                           case Never => false
                           case Last => trained && forall k | i < k < |spans| :: !EndsTrained(bs, spans[k], roles)))
  {
    var spans := Spans(tokens, bs, 0);
    SpansPlaced(tokens, bs);
    KeptByOwner(bs, spans, |tokens|, roles, mode, i, t);
    LastEndIs(bs, spans, roles, i);
  }

  /** A trained span with an included end marker. */
  predicate EndsTrained(bs: seq<RoleBoundary>, sp: Span, roles: set<string>) {
    sp.boundary < |bs| && bs[sp.boundary].role in roles && sp.closed && bs[sp.boundary].includeEnd
  }

  lemma LastEndIs(bs: seq<RoleBoundary>, spans: seq<Span>, roles: set<string>, i: nat)
    requires i < |spans|
    ensures LastEnd(bs, spans, roles) == i <==>
            EndsTrained(bs, spans[i], roles) && forall k | i < k < |spans| :: !EndsTrained(bs, spans[k], roles)
  {
    var last := LastEnd(bs, spans, roles);
    if last > i {
      assert EndsTrained(bs, spans[last], roles);
    }
  }

  /** Span `sp` may keep `t`: its role is trained, or `t` is in its included end marker
      and the mode is `All`. */
  predicate MayKeep(bs: seq<RoleBoundary>, sp: Span, roles: set<string>, mode: EosMode, t: int) {
    Owns(bs, sp, t) && (Trained(bs, sp, roles) || (mode == All && EndIncluded(bs, sp) && InEnd(sp, t)))
  }

  /** Tokens of a span whose role is not trained stay out of the loss, except for an
      included end marker under `All`. Tokens no span owns stay out always. */
  lemma UntrainedStaysMasked(tokens: seq<int>, bs: seq<RoleBoundary>, roles: set<string>, mode: EosMode, t: int)
    requires Kept(bs, Spans(tokens, bs, 0), roles, mode, t)
    ensures exists i :: 0 <= i < |Spans(tokens, bs, 0)| && MayKeep(bs, Spans(tokens, bs, 0)[i], roles, mode, t)
  {
    SpansPlaced(tokens, bs);
    var spans := Spans(tokens, bs, 0);
    if i :| 0 <= i < |spans| && MarkedBy(bs, spans[i], roles, mode, t) {
      MarkedIsOwned(bs, spans[i], roles, mode, t);
    } else {
      MarkedIsOwned(bs, spans[LastEnd(bs, spans, roles)], roles, mode, t);
    }
  }

  predicate Below(a: seq<bool>, b: seq<bool>) {
    |a| == |b| && forall t | 0 <= t < |a| :: a[t] ==> b[t]
  }

  /** none ⊆ last ⊆ turn ⊆ all. */
  lemma ModesNested(tokens: seq<int>, bs: seq<RoleBoundary>, roles: set<string>)
    ensures Below(KeepRow(tokens, bs, roles, Never), KeepRow(tokens, bs, roles, Last))
    ensures Below(KeepRow(tokens, bs, roles, Last), KeepRow(tokens, bs, roles, Turn))
    ensures Below(KeepRow(tokens, bs, roles, Turn), KeepRow(tokens, bs, roles, All))
  {
  }

  /** `t` lies in an included end marker of a span other than `k`. */
  ghost predicate InOtherEnd(bs: seq<RoleBoundary>, spans: seq<Span>, k: int, t: int) {
    exists i :: 0 <= i < |spans| && i != k && EndIncluded(bs, spans[i]) && InEnd(spans[i], t)
  }

  lemma OtherEndIsOwners(bs: seq<RoleBoundary>, spans: seq<Span>, n: nat, i: nat, k: int, t: int)
    requires Placed(bs, spans, n) && i < |spans| && Owns(bs, spans[i], t)
    ensures InOtherEnd(bs, spans, k, t) <==> i != k && EndIncluded(bs, spans[i]) && InEnd(spans[i], t)
  {
  }

  lemma OwnerModes(bs: seq<RoleBoundary>, spans: seq<Span>, n: nat, roles: set<string>, i: nat, t: nat)
    requires Placed(bs, spans, n) && i < |spans| && MarkedBy(bs, spans[i], roles, Turn, t)
    ensures Kept(bs, spans, roles, Last, t) <==> !InOtherEnd(bs, spans, LastEnd(bs, spans, roles), t)
    ensures Kept(bs, spans, roles, Never, t) <==> !InOtherEnd(bs, spans, -1, t)
  {
    MarkedIsOwned(bs, spans[i], roles, Turn, t);
    KeptByOwner(bs, spans, n, roles, Last, i, t);
    KeptByOwner(bs, spans, n, roles, Never, i, t);
    OtherEndIsOwners(bs, spans, n, i, LastEnd(bs, spans, roles), t);
    OtherEndIsOwners(bs, spans, n, i, -1, t);
  }

  /** `Last` keeps exactly what `Turn` keeps, minus the end markers of all trained turns
      but the last; `Never` minus all of them. */
  lemma ModesDifferInEndMarkers(tokens: seq<int>, bs: seq<RoleBoundary>, roles: set<string>, t: nat)
    requires t < |tokens|
    ensures var spans := Spans(tokens, bs, 0);
            var turn := Kept(bs, spans, roles, Turn, t);
            && (Kept(bs, spans, roles, Last, t) <==> turn && !InOtherEnd(bs, spans, LastEnd(bs, spans, roles), t))
            && (Kept(bs, spans, roles, Never, t) <==> turn && !InOtherEnd(bs, spans, -1, t))
  {
    SpansPlaced(tokens, bs);
    var spans := Spans(tokens, bs, 0);
    if i :| 0 <= i < |spans| && MarkedBy(bs, spans[i], roles, Turn, t) {
      OwnerModes(bs, spans, |tokens|, roles, i, t);
    } else {
      ModesNested(tokens, bs, roles);
      assert !KeepRow(tokens, bs, roles, Turn)[t];
      assert !KeepRow(tokens, bs, roles, Last)[t];
      assert !KeepRow(tokens, bs, roles, Never)[t];
    }
  }

  /** Training more roles only adds tokens, in every mode but `Last`. */
  lemma MoreRolesKeepMore(tokens: seq<int>, bs: seq<RoleBoundary>, roles: set<string>, more: set<string>, mode: EosMode)
    requires roles <= more && mode != Last
    ensures Below(KeepRow(tokens, bs, roles, mode), KeepRow(tokens, bs, more, mode))
  {
  }

  /** Span `k` ends a trained turn with an included end marker, and no later one does. */
  predicate IsLastEnd(bs: seq<RoleBoundary>, spans: seq<Span>, roles: set<string>, k: nat)
    requires k < |spans|
  {
    EndsTrained(bs, spans[k], roles) && forall i | k < i < |spans| :: !EndsTrained(bs, spans[i], roles)
  }

  /** After the last trained span with an included end marker, no span of an added role has
      one. */
  predicate NoneTakesOver(bs: seq<RoleBoundary>, spans: seq<Span>, roles: set<string>, more: set<string>) {
    forall k, i | 0 <= k < i < |spans| && IsLastEnd(bs, spans, roles, k) :: !EndsTrained(bs, spans[i], more)
  }

  lemma NoneTakesOverIs(bs: seq<RoleBoundary>, spans: seq<Span>, roles: set<string>, more: set<string>)
    requires roles <= more
    ensures NoneTakesOver(bs, spans, roles, more) <==>
            LastEnd(bs, spans, roles) == -1 || LastEnd(bs, spans, more) == LastEnd(bs, spans, roles)
  {
    var k := LastEnd(bs, spans, roles);
    forall i | 0 <= i < |spans| ensures IsLastEnd(bs, spans, roles, i) <==> i == k {
      LastEndIs(bs, spans, roles, i);
    }
    if k >= 0 {
      assert IsLastEnd(bs, spans, roles, k);
      LastEndIs(bs, spans, more, k);
    }
  }

  lemma TakeOverDropsToken(tokens: seq<int>, bs: seq<RoleBoundary>, roles: set<string>, more: set<string>) returns (t: nat)
    requires roles <= more && !NoneTakesOver(bs, Spans(tokens, bs, 0), roles, more)
    ensures t < |tokens|
    ensures Kept(bs, Spans(tokens, bs, 0), roles, Last, t) && !Kept(bs, Spans(tokens, bs, 0), more, Last, t)
  {
    SpansPlaced(tokens, bs);
    NoneTakesOverIs(bs, Spans(tokens, bs, 0), roles, more);
    var spans := Spans(tokens, bs, 0);
    var k := LastEnd(bs, spans, roles);
    t := spans[k].contentEnd;
    MarkedIsOwned(bs, spans[k], roles, Turn, t);
    KeptByOwner(bs, spans, |tokens|, roles, Last, k, t);
    KeptByOwner(bs, spans, |tokens|, more, Last, k, t);
  }

  lemma NoTakeOverKeepsMore(tokens: seq<int>, bs: seq<RoleBoundary>, roles: set<string>, more: set<string>, t: int)
    requires roles <= more && NoneTakesOver(bs, Spans(tokens, bs, 0), roles, more)
    requires Kept(bs, Spans(tokens, bs, 0), roles, Last, t)
    ensures Kept(bs, Spans(tokens, bs, 0), more, Last, t)
  {
    NoneTakesOverIs(bs, Spans(tokens, bs, 0), roles, more);
  }

  /** Under `Last` it adds tokens only if and only if no span of an added role takes over
      as the last trained span with an included end marker. */
  lemma MoreRolesUnderLast(tokens: seq<int>, bs: seq<RoleBoundary>, roles: set<string>, more: set<string>)
    requires roles <= more
    ensures Below(KeepRow(tokens, bs, roles, Last), KeepRow(tokens, bs, more, Last)) <==>
            NoneTakesOver(bs, Spans(tokens, bs, 0), roles, more)
  {
    if NoneTakesOver(bs, Spans(tokens, bs, 0), roles, more) {
      forall t | 0 <= t < |tokens| && KeepRow(tokens, bs, roles, Last)[t] ensures KeepRow(tokens, bs, more, Last)[t] {
        NoTakeOverKeepsMore(tokens, bs, roles, more, t);
      }
    } else {
      var t := TakeOverDropsToken(tokens, bs, roles, more);
      assert KeepRow(tokens, bs, roles, Last)[t] && !KeepRow(tokens, bs, more, Last)[t];
    }
  }

  const USER_AFTER_ASSISTANT := [1, 5, 9, 2, 9]
  const TWO_ROLES := [RoleBoundary("assistant", [1], [9], false, true), RoleBoundary("user", [2], [9], false, true)]

  lemma UserAfterAssistantSpans()
    ensures Spans(USER_AFTER_ASSISTANT, TWO_ROLES, 0) == [Span(0, 0, 1, 2, 3, true), Span(1, 3, 4, 4, 5, true)]
  {
    var row, bs := USER_AFTER_ASSISTANT, TWO_ROLES;
    assert row[0..1] == [1] && row[1..2] == [5] && row[2..3] == [9] && row[3..4] == [2] && row[4..5] == [9];
    FindFromIsLeast(row, [9], 1, 2);
    FindFromIsLeast(row, [9], 4, 4);
    WinnerIsFirstLongest(row, bs, 0, 0);
    WinnerIsFirstLongest(row, bs, 3, 1);
    assert SpanAt(row, bs, 0, 0) == Span(0, 0, 1, 2, 3, true);
    assert SpanAt(row, bs, 3, 1) == Span(1, 3, 4, 4, 5, true);
    assert Spans(row, bs, 3) == [SpanAt(row, bs, 3, 1)] + Spans(row, bs, 5);
    assert Spans(row, bs, 0) == [SpanAt(row, bs, 0, 0)] + Spans(row, bs, 3);
  }

  /** The condition can fail: with a user turn after the assistant's, training users too
      takes the assistant's end marker (token 2) out of the loss. */
  lemma MoreRolesCanDropAnEnd()
    ensures Kept(TWO_ROLES, Spans(USER_AFTER_ASSISTANT, TWO_ROLES, 0), {"assistant"}, Last, 2)
    ensures !Kept(TWO_ROLES, Spans(USER_AFTER_ASSISTANT, TWO_ROLES, 0), {"assistant", "user"}, Last, 2)
  {
    UserAfterAssistantSpans();
    var spans := [Span(0, 0, 1, 2, 3, true), Span(1, 3, 4, 4, 5, true)];
    assert LastEnd(TWO_ROLES, spans, {"assistant", "user"}) == 1;
    assert spans[..1] == [spans[0]];
    assert LastEnd(TWO_ROLES, spans, {"assistant"}) == 0;
  }
}
