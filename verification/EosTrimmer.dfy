/** The end-of-sequence trimmer: streamed text is passed on up to the first EOS string,
    and text that may be the start of one is held back until the next chunk decides. */
module EosTrimmer {
  import opened Sequences
  import opened StreamText

  // ----- what one step does -----

  predicate NonEmpty(eos: seq<string>) {
    forall e | e in eos :: e != ""
  }

  /** Some EOS string stands at `k`. */
  predicate EosAt(eos: seq<string>, text: string, k: int) {
    exists e :: e in eos && OccursAt(text, k, e)
  }

  /** Where the earliest EOS string of the text starts, or -1. */
  function Earliest(eos: seq<string>, text: string): (r: int)
    ensures r == -1 || (0 <= r && EosAt(eos, text, r))
    ensures forall k :: (r == -1 || k < r) ==> !EosAt(eos, text, k)
  {
    if eos == [] then -1
    else
      var n := |eos| - 1;
      var here := FindFrom(text, eos[n], 0);
      var rest := Earliest(eos[..n], text);
      assert eos == eos[..n] + [eos[n]];
      assert forall k :: EosAt(eos, text, k) ==> EosAt(eos[..n], text, k) || OccursAt(text, k, eos[n]);
      if here != -1 && (rest == -1 || here < rest) then here else rest
  }

  /** How much of the end of the text may be the start of an EOS string. */
  function Hold(eos: seq<string>, text: string): (h: nat)
    ensures h <= |text|
    ensures h == 0 || exists e :: e in eos && Partial(text, e, h)
    ensures forall e, i | e in eos && h < i :: !Partial(text, e, i)
  {
    if eos == [] then 0
    else
      var n := |eos| - 1;
      var here := PartialSuffix(text, eos[n]);
      var rest := Hold(eos[..n], text);
      assert eos == eos[..n] + [eos[n]];
      if here > rest then here else rest
  }

  /** State of a trimmer, with everything it has emitted so far as one text. */
  datatype Trim = Trim(pending: string, done: bool, emitted: string)

  const FRESH := Trim("", false, "")

  function FeedStep(eos: seq<string>, s: Trim, text: string): Trim {
    if s.done || text == "" then s
    else
      var p := s.pending + text;
      var k := Earliest(eos, p);
      if k >= 0 then Trim("", true, s.emitted + p[..k])
      else
        var cut := |p| - Hold(eos, p);
        Trim(p[cut..], false, s.emitted + p[..cut])
  }

  function FinishStep(s: Trim): Trim {
    if s.done then s.(pending := "") else Trim("", false, s.emitted + s.pending)
  }

  function Run(eos: seq<string>, chunks: seq<string>): Trim {
    if chunks == [] then FRESH
    else FeedStep(eos, Run(eos, chunks[..|chunks| - 1]), chunks[|chunks| - 1])
  }

  /** Everything emitted for a stream that came in these chunks. */
  function Output(eos: seq<string>, chunks: seq<string>): string {
    FinishStep(Run(eos, chunks)).emitted
  }

  // ----- the class -----

  class EosTextTrimmer {
    const eosStrings: seq<string>
    var pending: string
    var done: bool
    /** What the `emit` callback has received. */
    var emitted: string

    function State(): Trim
      reads this
    {
      Trim(pending, done, emitted)
    }

    constructor (eos: seq<string>)
      ensures eosStrings == DropEmpty(eos)
      ensures State() == FRESH
    {
      eosStrings := DropEmpty(eos);
      pending, done, emitted := "", false, "";
    }

    method Feed(text: string)
      modifies this
      ensures State() == FeedStep(eosStrings, old(State()), text)
    {
      if done || text == "" {
        return;
      }
      pending := pending + text;
      var first := -1;
      var i := 0;
      while i < |eosStrings|
        invariant 0 <= i <= |eosStrings|
        invariant first == Earliest(eosStrings[..i], pending)
        invariant State() == Trim(old(pending) + text, false, old(emitted))
      {
        assert eosStrings[..i + 1][..i] == eosStrings[..i];
        var idx := FindFrom(pending, eosStrings[i], 0);
        if idx >= 0 && (first == -1 || idx < first) {
          first := idx;
        }
        i := i + 1;
      }
      assert eosStrings[..|eosStrings|] == eosStrings;
      if first >= 0 {
        if first > 0 {
          emitted := emitted + pending[..first];
        }
        pending := "";
        done := true;
        return;
      }
      var hold := HoldLength();
      if |pending| > hold {
        emitted := emitted + pending[..|pending| - hold];
        pending := pending[|pending| - hold..];
      }
    }

    method HoldLength() returns (hold: nat)
      ensures hold == Hold(eosStrings, pending)
    {
      hold := 0;
      for i := 0 to |eosStrings|
        invariant hold == Hold(eosStrings[..i], pending)
      {
        assert eosStrings[..i + 1][..i] == eosStrings[..i];
        var k := PartialSuffixLen(pending, eosStrings[i]);
        if k > hold {
          hold := k;
        }
      }
      assert eosStrings[..|eosStrings|] == eosStrings;
    }

    method Finish()
      modifies this
      ensures State() == FinishStep(old(State()))
    {
      if !done && pending != "" {
        emitted := emitted + pending;
      }
      pending := "";
    }
  }

  function DropEmpty(eos: seq<string>): (kept: seq<string>)
    ensures NonEmpty(kept) && forall e | e != "" :: e in eos <==> e in kept
  {
    if eos == [] then []
    else (if eos[0] == "" then [] else [eos[0]]) + DropEmpty(eos[1..])
  }

  /** A whole stream through the class: it emits `Output` for the EOS strings that are not
      empty, whatever the chunks. */
  method TrimStream(eos: seq<string>, chunks: seq<string>) returns (emitted: string)
    ensures emitted == Output(DropEmpty(eos), chunks)
    ensures NonEmpty(eos) ==> emitted == Output(eos, chunks)
  {
    var trimmer := new EosTextTrimmer(eos);
    if NonEmpty(eos) {
      DropEmptyKeepsNonEmpty(eos);
    }
    for i := 0 to |chunks|
      invariant trimmer.eosStrings == DropEmpty(eos)
      invariant trimmer.State() == Run(DropEmpty(eos), chunks[..i])
    {
      assert chunks[..i + 1][..i] == chunks[..i];
      trimmer.Feed(chunks[i]);
    }
    assert chunks[..|chunks|] == chunks;
    trimmer.Finish();
    emitted := trimmer.emitted;
  }

  lemma {:induction false} DropEmptyKeepsNonEmpty(eos: seq<string>)
    requires NonEmpty(eos)
    ensures DropEmpty(eos) == eos
  {
    if eos == [] {
    } else {
      assert eos == [eos[0]] + eos[1..] && eos[0] in eos && forall e | e in eos[1..] :: e in eos;
      DropEmptyKeepsNonEmpty(eos[1..]);
    }
  }

  // ----- every run -----

  /** What holds after the chunks of `total` were fed. While nothing was found, the
      pending text is exactly the longest end of the stream that may start an EOS
      string. Once done, the output is the text before the earliest EOS string of the
      part of the stream read until then. */
  ghost predicate Inv(eos: seq<string>, s: Trim, total: string) {
    if !s.done then
      && total == s.emitted + s.pending
      && Earliest(eos, total) == -1
      && |s.pending| == Hold(eos, total)
    else
      exists n | 0 <= n <= |total| :: FoundIn(eos, s.emitted, total[..n])
  }

  ghost predicate FoundIn(eos: seq<string>, emitted: string, read: string) {
    Earliest(eos, read) >= 0 && emitted == read[..Earliest(eos, read)]
  }

  lemma HoldIs(eos: seq<string>, text: string, h: nat)
    requires h == 0 || exists e :: e in eos && Partial(text, e, h)
    requires forall e, i | e in eos && h < i :: !Partial(text, e, i)
    ensures Hold(eos, text) == h
  {
  }

  /** Text before the held end plays no part in what is held later. */
  lemma HoldIsSettled(eos: seq<string>, sent: string, pending: string, text: string)
    requires |pending| == Hold(eos, sent + pending)
    ensures Hold(eos, sent + pending + text) == Hold(eos, pending + text)
  {
    var total, p := sent + pending + text, pending + text;
    var h := Hold(eos, p);
    assert total == sent + p;
    if h > 0 {
      var e :| e in eos && Partial(p, e, h);
      PartialWithinTail(sent, p, e, h);
    }
    forall e, i | e in eos && h < i ensures !Partial(total, e, i) {
      if i <= |p| {
        PartialWithinTail(sent, p, e, i);
      } else if Partial(total, e, i) {
        PartialAcross(sent + pending, text, e, i);
      }
    }
    HoldIs(eos, total, h);
  }

  /** No EOS string starts before the held end. */
  lemma EarliestIsSettled(eos: seq<string>, sent: string, pending: string, text: string)
    requires NonEmpty(eos) && Earliest(eos, sent + pending) == -1 && |pending| == Hold(eos, sent + pending)
    ensures var (total, p) := (sent + pending + text, pending + text);
            Earliest(eos, total) == if Earliest(eos, p) == -1 then -1 else |sent| + Earliest(eos, p)
  {
    var total := sent + pending + text;
    assert total[|sent|..] == pending + text;
    forall k | 0 <= k < |sent| ensures !EosAt(eos, total, k) {
      NoneStartsBeforeHold(eos, sent + pending, text, k);
    }
    EarliestShifts(eos, total, |sent|);
  }

  lemma NoneStartsBeforeHold(eos: seq<string>, before: string, text: string, k: nat)
    requires Earliest(eos, before) == -1 && k + Hold(eos, before) < |before|
    ensures !EosAt(eos, before + text, k)
  {
    if EosAt(eos, before + text, k) {
      var e :| e in eos && OccursAt(before + text, k, e);
      NotYetWhole(eos, before, text, k, e);
    }
  }

  /** An EOS string that starts in the text read so far but is not in it is there in part. */
  lemma NotYetWhole(eos: seq<string>, read: string, rest: string, k: nat, e: string)
    requires e in eos && OccursAt(read + rest, k, e) && k <= |read| && !EosAt(eos, read, k)
    ensures Partial(read, e, |read| - k)
  {
    if k + |e| <= |read| {
      OccursInPrefix(read, rest, k, e);
    } else {
      OccursAcross(read, rest, k, e);
    }
  }

  lemma EarliestShifts(eos: seq<string>, total: string, n: nat)
    requires n <= |total|
    requires forall k :: EosAt(eos, total, k) ==> n <= k
    ensures Earliest(eos, total) == (if Earliest(eos, total[n..]) == -1 then -1 else n + Earliest(eos, total[n..]))
  {
    forall k | 0 <= k ensures EosAt(eos, total[n..], k) <==> EosAt(eos, total, n + k) {
      forall e | e in eos ensures OccursAt(total[n..], k, e) <==> OccursAt(total, n + k, e) {
        OccursInSuffix(total, n, k, e);
      }
    }
    var r := Earliest(eos, total);
    if r >= 0 {
      assert EosAt(eos, total[n..], r - n);
    }
  }

  lemma {:induction false} RunInv(eos: seq<string>, chunks: seq<string>)
    requires NonEmpty(eos)
    ensures Inv(eos, Run(eos, chunks), Joined(chunks))
  {
    if chunks == [] {
      assert forall k, e | e in eos :: !OccursAt("", k, e);
    } else {
      var before, text := chunks[..|chunks| - 1], chunks[|chunks| - 1];
      RunInv(eos, before);
      StepInv(eos, Run(eos, before), Joined(before), text);
    }
  }

  lemma StepInv(eos: seq<string>, s: Trim, total: string, text: string)
    requires NonEmpty(eos) && Inv(eos, s, total)
    ensures Inv(eos, FeedStep(eos, s, text), total + text)
  {
    if s.done {
      var n :| 0 <= n <= |total| && FoundIn(eos, s.emitted, total[..n]);
      assert (total + text)[..n] == total[..n];
    } else if text == "" {
      assert total + text == total;
    } else {
      LiveStepInv(eos, s.emitted, s.pending, text);
    }
  }

  lemma LiveStepInv(eos: seq<string>, sent: string, pending: string, text: string)
    requires NonEmpty(eos) && Inv(eos, Trim(pending, false, sent), sent + pending) && text != ""
    ensures Inv(eos, FeedStep(eos, Trim(pending, false, sent), text), sent + pending + text)
  {
    var p := pending + text;
    assert sent + pending + text == sent + p;
    EarliestIsSettled(eos, sent, pending, text);
    if Earliest(eos, p) >= 0 {
      FoundAtEnd(eos, sent, p, Earliest(eos, p));
    } else {
      HoldIsSettled(eos, sent, pending, text);
      NothingFound(eos, sent, p);
    }
  }

  lemma NothingFound(eos: seq<string>, sent: string, p: string)
    requires Earliest(eos, sent + p) == -1 && Hold(eos, sent + p) == Hold(eos, p)
    ensures var cut := |p| - Hold(eos, p); Inv(eos, Trim(p[cut..], false, sent + p[..cut]), sent + p)
  {
    Resplit(sent, p, |p| - Hold(eos, p));
  }

  lemma FoundAtEnd(eos: seq<string>, sent: string, p: string, k: nat)
    requires k <= |p| && Earliest(eos, sent + p) == |sent| + k
    ensures Inv(eos, Trim("", true, sent + p[..k]), sent + p)
  {
    var total := sent + p;
    assert total[..|total|] == total && sent + p[..k] == total[..|sent| + k];
  }

  /** Whatever the EOS strings and the chunks: the output is a prefix of the stream that
      contains no EOS string, and the whole stream if it contains none. */
  lemma OutputIsCleanPrefix(eos: seq<string>, chunks: seq<string>)
    requires NonEmpty(eos)
    ensures Output(eos, chunks) <= Joined(chunks)
    ensures Earliest(eos, Output(eos, chunks)) == -1
    ensures Earliest(eos, Joined(chunks)) == -1 ==> Output(eos, chunks) == Joined(chunks)
  {
    RunInv(eos, chunks);
    var s, total := Run(eos, chunks), Joined(chunks);
    if s.done {
      var n :| 0 <= n <= |total| && FoundIn(eos, s.emitted, total[..n]);
      BeforeEarliestIsClean(eos, total[..n]);
      EarliestOfPrefix(eos, total, n);
      assert total[..n][..Earliest(eos, total[..n])] == total[..Earliest(eos, total[..n])];
    }
  }

  lemma BeforeEarliestIsClean(eos: seq<string>, read: string)
    requires NonEmpty(eos) && Earliest(eos, read) >= 0
    ensures Earliest(eos, read[..Earliest(eos, read)]) == -1
  {
    var m := Earliest(eos, read);
    assert read == read[..m] + read[m..];
    forall k, e | e in eos && OccursAt(read[..m], k, e) ensures EosAt(eos, read, k) {
      OccursInExtension(read[..m], read[m..], k, e);
    }
  }

  lemma EarliestOfPrefix(eos: seq<string>, total: string, n: nat)
    requires n <= |total| && Earliest(eos, total[..n]) >= 0
    ensures 0 <= Earliest(eos, total) <= Earliest(eos, total[..n])
  {
    var m := Earliest(eos, total[..n]);
    assert total == total[..n] + total[n..];
    var e :| e in eos && OccursAt(total[..n], m, e);
    OccursInExtension(total[..n], total[n..], m, e);
    assert EosAt(eos, total, m);
  }

  // ----- independence of the chunking -----

  /** What the trimmer promises to print for a stream. */
  function Trimmed(eos: seq<string>, total: string): string {
    if Earliest(eos, total) == -1 then total else total[..Earliest(eos, total)]
  }

  /** No started EOS string completes another one first, unless both start together. */
  ghost predicate Unambiguous(eos: seq<string>) {
    forall e, n | e in eos && 0 <= n < |e| :: Earliest(eos, e[..n]) <= 0
  }

  /** The condition callers can read off the strings: none sits strictly inside another. */
  ghost predicate NoneInside(eos: seq<string>) {
    forall e, f, k | e in eos && f in eos && 0 < k && k + |f| < |e| :: !OccursAt(e, k, f)
  }

  lemma NoneInsideIsEnough(eos: seq<string>)
    requires NoneInside(eos)
    ensures Unambiguous(eos)
  {
    forall e, n | e in eos && 0 <= n < |e| ensures Earliest(eos, e[..n]) <= 0 {
      var k := Earliest(eos, e[..n]);
      if k > 0 {
        var f :| f in eos && OccursAt(e[..n], k, f);
        assert e == e[..n] + e[n..];
        OccursInExtension(e[..n], e[n..], k, f);
      }
    }
  }

  /** A prefix of the stream that holds an EOS string already shows the earliest one. */
  lemma PrefixShowsEarliest(eos: seq<string>, total: string, n: nat)
    requires NonEmpty(eos) && Unambiguous(eos) && n <= |total| && Earliest(eos, total[..n]) >= 0
    ensures Earliest(eos, total) == Earliest(eos, total[..n])
  {
    EarliestOfPrefix(eos, total, n);
    if Earliest(eos, total) < Earliest(eos, total[..n]) {
      assert total == total[..n] + total[n..];
      Overtaken(eos, total[..n], total[n..]);
    }
  }

  /** An EOS string overtaken by another: the text read so far, from where it starts, is
      a proper prefix of it that holds another one, but none at its start. */
  lemma Overtaken(eos: seq<string>, read: string, rest: string)
    requires 0 <= Earliest(eos, read + rest) < Earliest(eos, read)
    ensures !Unambiguous(eos)
  {
    var m, m' := Earliest(eos, read + rest), Earliest(eos, read);
    var e :| e in eos && OccursAt(read + rest, m, e);
    NotYetWhole(eos, read, rest, m, e);
    EarliestShifts(eos, read, m);
    var n := |read| - m;
    assert read[m..] == e[..n];
  }

  /** Under that condition the output is the text before the earliest EOS string of the
      whole stream, for every split of the stream. */
  lemma OutputIsTrimmed(eos: seq<string>, chunks: seq<string>)
    requires NonEmpty(eos) && Unambiguous(eos)
    ensures Output(eos, chunks) == Trimmed(eos, Joined(chunks))
  {
    RunInv(eos, chunks);
    var s, total := Run(eos, chunks), Joined(chunks);
    if s.done {
      var n :| 0 <= n <= |total| && FoundIn(eos, s.emitted, total[..n]);
      PrefixShowsEarliest(eos, total, n);
    }
  }

  /** Said directly: with no EOS string strictly inside another, the output is the text before
      the place where the first one stands. */
  lemma OutputStopsAtFirst(eos: seq<string>, chunks: seq<string>, e: string, k: nat)
    requires NonEmpty(eos) && NoneInside(eos) && e in eos && OccursAt(Joined(chunks), k, e)
    requires forall f, i | f in eos && 0 <= i < k :: !OccursAt(Joined(chunks), i, f)
    ensures Output(eos, chunks) == Joined(chunks)[..k]
  {
    NoneInsideIsEnough(eos);
    OutputIsTrimmed(eos, chunks);
    assert EosAt(eos, Joined(chunks), k);
    forall i | 0 <= i < k ensures !EosAt(eos, Joined(chunks), i) {
    }
  }

  /** Nothing is held back without need: while no EOS string was found, all text has been
      emitted but the longest end that may be the start of one. */
  lemma HoldsBackOnlyPartialMarkers(eos: seq<string>, chunks: seq<string>)
    requires NonEmpty(eos) && Earliest(eos, Joined(chunks)) == -1
    ensures var s := Run(eos, chunks);
            && Joined(chunks) == s.emitted + s.pending
            && (s.pending != "" ==> exists e :: e in eos && |s.pending| < |e| && s.pending <= e)
            && forall e, n | e in eos && |s.pending| < n < |e| && n <= |Joined(chunks)| ::
                 Joined(chunks)[|Joined(chunks)| - n..] != e[..n]
  {
    RunInv(eos, chunks);
    var s, total := Run(eos, chunks), Joined(chunks);
    if s.done {
      var n :| 0 <= n <= |total| && FoundIn(eos, s.emitted, total[..n]);
      EarliestOfPrefix(eos, total, n);
    } else {
      forall e, n | e in eos && |s.pending| < n < |e| && n <= |total| ensures total[|total| - n..] != e[..n] {
        assert !Partial(total, e, n);
      }
      if s.pending != "" {
        var e :| e in eos && Partial(total, e, |s.pending|);
        assert total[|total| - |s.pending|..] == s.pending;
      }
    }
  }

  ghost predicate ChunkingIndependent(eos: seq<string>) {
    forall a, b :: Joined(a) == Joined(b) ==> Output(eos, a) == Output(eos, b)
  }

  /** Exactly when: the output depends on the text alone if and only if no started EOS
      string is overtaken by another one. */
  lemma ChunkingIndependentIff(eos: seq<string>)
    requires NonEmpty(eos)
    ensures ChunkingIndependent(eos) <==> Unambiguous(eos)
  {
    if Unambiguous(eos) {
      forall a, b | Joined(a) == Joined(b) ensures Output(eos, a) == Output(eos, b) {
        OutputIsTrimmed(eos, a);
        OutputIsTrimmed(eos, b);
      }
    } else {
      var e, n :| e in eos && 0 <= n < |e| && Earliest(eos, e[..n]) > 0;
      OvertakenOutputs(eos, e, n);
    }
  }

  /** The counterexample: `e` in one chunk prints nothing, in two it prints the text
      before the string that overtakes it. */
  lemma OvertakenOutputs(eos: seq<string>, e: string, n: nat)
    requires NonEmpty(eos) && e in eos && n < |e| && Earliest(eos, e[..n]) > 0
    ensures Joined([e]) == Joined([e[..n], e[n..]])
    ensures Output(eos, [e]) == "" != Output(eos, [e[..n], e[n..]])
  {
    var first, rest := e[..n], e[n..];
    JoinedPair(first, rest);
    JoinedPair(e, "");
    assert first + rest == e;
    assert OccursAt(e, 0, e);
    assert EosAt(eos, e, 0);
    assert [e][..0] == [] && Run(eos, []) == FRESH;
    assert FRESH.pending + e == e && FRESH.pending + first == first;
    assert [first, rest][..1] == [first] && [first][..0] == [];
    assert Run(eos, [first]) == FeedStep(eos, FRESH, first);
    assert Run(eos, [first, rest]) == FeedStep(eos, Run(eos, [first]), rest);
  }

  /** There are such lists: `bc` overtakes `abcd`. */
  lemma SomeListsAreAmbiguous()
    ensures NonEmpty(["abcd", "bc"]) && !Unambiguous(["abcd", "bc"]) && !ChunkingIndependent(["abcd", "bc"])
  {
    var eos := ["abcd", "bc"];
    assert "abcd"[..3] == "abc" && "abc"[1..3] == "bc";
    assert eos[1] in eos && OccursAt("abc", 1, eos[1]);
    assert EosAt(eos, "abc", 1);
    assert !EosAt(eos, "abc", 0) by {
      assert "abc"[0..2] == "ab";
    }
    assert Earliest(eos, "abcd"[..3]) == 1;
    ChunkingIndependentIff(eos);
  }
}
