/** Text helpers of the streaming chat machines. */
module StreamText {
  import opened Sequences

  /** The last `i` characters of the text are the start of the marker, but not all of it. */
  predicate Partial(text: string, marker: string, i: int) {
    0 <= i < |marker| && i <= |text| && text[|text| - i..] == marker[..i]
  }

  lemma PartialWithinTail(a: string, b: string, marker: string, i: int)
    requires i <= |b|
    ensures Partial(a + b, marker, i) <==> Partial(b, marker, i)
  {
  }

  lemma PartialAcross(a: string, b: string, marker: string, i: int)
    requires |b| <= i && Partial(a + b, marker, i)
    ensures Partial(a, marker, i - |b|)
  {
    var m := i - |b|;
    assert a[|a| - m..] == (a + b)[|a + b| - i..][..m] == marker[..i][..m] == marker[..m];
  }

  lemma NothingBefore(text: string)
    ensures "" + text == text && text + "" == text
  {
  }

  lemma Resplit(a: string, b: string, cut: nat)
    requires cut <= |b|
    ensures a + b == (a + b[..cut]) + b[cut..]
  {
  }

  lemma SixPieces(a: string, b: string, c: string, d: string, e: string, f: string)
    ensures a + b + (c + d + e + f) == a + b + c + d + e + f
  {
  }

  /** An occurrence that begins in `a` and ends beyond it is a partial one at the end of `a`. */
  lemma OccursAcross(a: string, b: string, k: nat, marker: string)
    requires OccursAt(a + b, k, marker) && k <= |a| < k + |marker|
    ensures Partial(a, marker, |a| - k)
  {
  }

  /** The text a stream of chunks carries. */
  function Joined(chunks: seq<string>): string {
    if chunks == [] then "" else Joined(chunks[..|chunks| - 1]) + chunks[|chunks| - 1]
  }

  predicate LongestPartial(text: string, marker: string, k: nat) {
    && k <= |text| && (k == 0 || Partial(text, marker, k))
    && forall i | k < i < |marker| :: !Partial(text, marker, i)
  }

  lemma {:induction false} LongestPartialExists(text: string, marker: string, top: nat)
    requires top <= |text| && forall i | top < i :: !Partial(text, marker, i)
    ensures exists k: nat :: k <= |text| && LongestPartial(text, marker, k)
  {
    if top == 0 || Partial(text, marker, top) {
      assert LongestPartial(text, marker, top);
    } else {
      LongestPartialExists(text, marker, top - 1);
    }
  }

  /** Length of the longest suffix of `text` that is a proper prefix of `marker`. */
  function PartialSuffix(text: string, marker: string): (k: nat)
    ensures k == 0 || Partial(text, marker, k)
    ensures k <= |text| && forall i | k < i :: !Partial(text, marker, i)
  {
    LongestPartialExists(text, marker, |text|);
    var k: nat :| k <= |text| && LongestPartial(text, marker, k);
    k
  }

  /** `partial_suffix_len`: try the longest candidate first. */
  method PartialSuffixLen(text: string, marker: string) returns (k: nat)
    ensures k == PartialSuffix(text, marker)
  {
    var maxLen := if |text| < |marker| - 1 then |text| else |marker| - 1;
    k := if maxLen < 0 then 0 else maxLen;
    while k > 0
      invariant 0 <= k <= |text| && (k == 0 || k < |marker|)
      invariant forall i | k < i :: !Partial(text, marker, i)
    {
      if text[|text| - k..] == marker[..k] {
        assert Partial(text, marker, k);
        return;
      }
      k := k - 1;
    }
  }

  lemma JoinedPair(first: string, second: string)
    ensures Joined([first, second]) == first + second
    ensures Joined([first]) == first
  {
    assert [first, second][..1] == [first];
    assert [first][..0] == [];
    assert Joined([first]) == "" + first;
  }

  lemma PartialSuffixIs(text: string, marker: string, k: nat)
    requires k <= |text| && (k == 0 || Partial(text, marker, k))
    requires forall i | k < i :: !Partial(text, marker, i)
    ensures PartialSuffix(text, marker) == k
  {
  }

  /** Once the marker was not found, all but the longest partial marker at the end can be
      let go: looking at the kept end and the new text finds the same. */
  lemma SearchResumes(sent: string, kept: string, text: string, marker: string)
    requires FindFrom(sent + kept, marker, 0) == -1 && |kept| == PartialSuffix(sent + kept, marker)
    ensures var (total, p) := (sent + kept + text, kept + text);
            && FindFrom(total, marker, 0) == (if FindFrom(p, marker, 0) == -1 then -1 else |sent| + FindFrom(p, marker, 0))
            && PartialSuffix(total, marker) == PartialSuffix(p, marker)
  {
    SearchResumesFind(sent, kept, text, marker);
    SearchResumesKeep(sent, kept, text, marker);
  }

  lemma SearchResumesFind(sent: string, kept: string, text: string, marker: string)
    requires FindFrom(sent + kept, marker, 0) == -1 && |kept| == PartialSuffix(sent + kept, marker)
    ensures var (total, p) := (sent + kept + text, kept + text);
            FindFrom(total, marker, 0) == if FindFrom(p, marker, 0) == -1 then -1 else |sent| + FindFrom(p, marker, 0)
  {
    var before, total, p := sent + kept, sent + kept + text, kept + text;
    assert total[|sent|..] == p;
    forall k | 0 <= k < |sent| ensures !OccursAt(total, k, marker) {
      if OccursAt(total, k, marker) {
        if k + |marker| <= |before| {
          OccursInPrefix(before, text, k, marker);
        } else {
          OccursAcross(before, text, k, marker);
        }
      }
    }
    forall k | 0 <= k ensures OccursAt(p, k, marker) <==> OccursAt(total, |sent| + k, marker) {
      OccursInSuffix(total, |sent|, k, marker);
    }
    var r := FindFrom(total, marker, 0);
    if r != -1 {
      assert OccursAt(p, r - |sent|, marker);
      FindFromIsLeast(p, marker, 0, r - |sent|);
    }
  }

  lemma SearchResumesKeep(sent: string, kept: string, text: string, marker: string)
    requires |kept| == PartialSuffix(sent + kept, marker)
    ensures PartialSuffix(sent + kept + text, marker) == PartialSuffix(kept + text, marker)
  {
    var total, p := sent + kept + text, kept + text;
    var h := PartialSuffix(p, marker);
    assert total == sent + p;
    PartialWithinTail(sent, p, marker, h);
    forall i | h < i ensures !Partial(total, marker, i) {
      if i <= |p| {
        PartialWithinTail(sent, p, marker, i);
      } else if Partial(total, marker, i) {
        PartialAcross(sent + kept, text, marker, i);
      }
    }
    PartialSuffixIs(total, marker, h);
  }
}
