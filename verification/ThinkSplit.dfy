/** The thinking splitter: a streamed turn is cut into the text between the thinking
    markers and the printed reply. */
module ThinkSplit {
  import opened Sequences
  import opened StreamText

  datatype Mode = Detect | Think | Reply

  datatype Split = Split(mode: Mode, pending: string, thinkText: string, printed: string)

  const FRESH := Split(Detect, "", "", "")

  /** The characters Python's `str.lstrip` removes. */
  predicate IsSpace(c: char) {
    || 9 as char <= c <= 13 as char || 28 as char <= c <= 32 as char
    || c == 133 as char || c == 160 as char || c == 0x1680 as char || 0x2000 as char <= c <= 0x200A as char
    || c == 0x2028 as char || c == 0x2029 as char || c == 0x202F as char || c == 0x205F as char || c == 0x3000 as char
  }

  predicate SpaceUntil(text: string, w: nat) {
    w <= |text| && (forall i | 0 <= i < w :: IsSpace(text[i])) && (w < |text| ==> !IsSpace(text[w]))
  }

  lemma SpaceUntilExists(text: string, w: nat)
    requires w <= |text| && forall i | 0 <= i < w :: IsSpace(text[i])
    ensures exists v: nat :: v <= |text| && SpaceUntil(text, v)
    decreases |text| - w
  {
    if w < |text| && IsSpace(text[w]) {
      SpaceUntilExists(text, w + 1);
    } else {
      assert SpaceUntil(text, w);
    }
  }

  /** How much whitespace the text starts with. */
  function LeadingSpace(text: string): (w: nat)
    ensures w <= |text|
  {
    SpaceUntilExists(text, 0);
    var w: nat :| w <= |text| && SpaceUntil(text, w);
    w
  }

  predicate Newlines(text: string) {
    forall i | 0 <= i < |text| :: text[i] == '\n'
  }

  /** `printed` is `after` without some of the newlines it starts with. */
  predicate ReplyOf(after: string, printed: string) {
    |printed| <= |after| && var n := |after| - |printed|; after[n..] == printed && Newlines(after[..n])
  }

  /** `after.lstrip("\n")`. */
  function StripNewlines(after: string): (reply: string)
    ensures reply <= after || |reply| < |after|
  {
    if after != "" && after[0] == '\n' then StripNewlines(after[1..]) else after
  }

  lemma {:induction false} StripNewlinesStrips(after: string)
    ensures ReplyOf(after, StripNewlines(after))
    ensures StripNewlines(after) == "" || StripNewlines(after)[0] != '\n'
  {
    if after == "" || after[0] != '\n' {
    } else {
      StripNewlinesStrips(after[1..]);
      var n := |after| - |StripNewlines(after)|;
      assert after[..n] == [after[0]] + after[1..][..n - 1];
    }
  }

  lemma LeadingSpaceIsSpace(text: string)
    ensures var w := LeadingSpace(text);
            (forall i | 0 <= i < w :: IsSpace(text[i])) && (w < |text| ==> !IsSpace(text[w]))
  {
  }

  function Strip(text: string): string {
    text[LeadingSpace(text)..]
  }

  // ----- what the processing loop does -----

  function ReplyStep(s: Split): Split {
    s.(pending := "", printed := s.printed + s.pending)
  }

  /** The thinking step, given where the close marker is (or -1) and how much of the end
      of the pending text may be the start of it. */
  function ThinkOutcome(close: string, s: Split, idx: int, keep: nat): Split
    requires idx == -1 || (0 <= idx && idx + |close| <= |s.pending|)
    requires keep <= |s.pending|
  {
    if idx >= 0 then
      ReplyStep(s.(mode := Reply, thinkText := s.thinkText + s.pending[..idx],
                   pending := StripNewlines(s.pending[idx + |close|..])))
    else
      var cut := |s.pending| - keep;
      s.(thinkText := s.thinkText + s.pending[..cut], pending := s.pending[cut..])
  }

  function ThinkStep(close: string, s: Split): Split {
    ThinkOutcome(close, s, FindFrom(s.pending, close, 0), PartialSuffix(s.pending, close))
  }

  function DetectStep(open: string, close: string, s: Split): Split {
    var stripped := Strip(s.pending);
    if open <= stripped then
      FoundOpen(open, s.pending);
      var idx := FindFrom(s.pending, open, 0);
      ThinkStep(close, s.(mode := Think, pending := s.pending[idx + |open|..]))
    else if stripped == "" || stripped <= open then s
    else ReplyStep(s.(mode := Reply))
  }

  function ProcessStep(open: string, close: string, s: Split): Split {
    match s.mode
    case Detect => DetectStep(open, close, s)
    case Think => ThinkStep(close, s)
    case Reply => ReplyStep(s)
  }

  function FeedStep(open: string, close: string, s: Split, text: string): Split {
    ProcessStep(open, close, s.(pending := s.pending + text))
  }

  function FinishStep(s: Split): Split {
    if s.mode == Think then s.(thinkText := s.thinkText + s.pending, pending := "") else ReplyStep(s)
  }

  function Run(open: string, close: string, chunks: seq<string>): Split {
    if chunks == [] then FRESH
    else FeedStep(open, close, Run(open, close, chunks[..|chunks| - 1]), chunks[|chunks| - 1])
  }

  function Final(open: string, close: string, chunks: seq<string>): Split {
    FinishStep(Run(open, close, chunks))
  }

  // ----- the class -----

  class ThinkStreamRenderer {
    const openMarker: string
    const closeMarker: string
    const collapse: bool
    var mode: Mode
    var pending: string
    var thinkText: string
    /** What was printed to the terminal. */
    var printed: string

    function State(): Split
      reads this
    {
      Split(mode, pending, thinkText, printed)
    }

    constructor (openMarker: string, closeMarker: string, collapse: bool)
      ensures this.openMarker == openMarker && this.closeMarker == closeMarker && this.collapse == collapse
      ensures State() == FRESH
    {
      this.openMarker, this.closeMarker, this.collapse := openMarker, closeMarker, collapse;
      mode, pending, thinkText, printed := Detect, "", "", "";
    }

    method Feed(text: string)
      modifies this
      ensures collapse ==> State() == FeedStep(openMarker, closeMarker, old(State()), text)
      ensures !collapse ==> State() == old(State()).(printed := old(printed) + text)
    {
      if !collapse {
        printed := printed + text;
        return;
      }
      pending := pending + text;
      Process();
    }

    method Process()
      modifies this
      ensures State() == ProcessStep(openMarker, closeMarker, old(State()))
    {
      while true
        invariant ProcessStep(openMarker, closeMarker, State()) == ProcessStep(openMarker, closeMarker, old(State()))
        decreases if mode == Detect then 2 else if mode == Think then 1 else 0
      {
        ghost var s := State();
        if mode == Detect {
          var stripped := Strip(pending);
          if openMarker <= stripped {
            FoundOpen(openMarker, pending);
            DetectOpens(openMarker, closeMarker, s);
            var idx := FindFrom(pending, openMarker, 0);
            pending := pending[idx + |openMarker|..];
            mode := Think;
            assert State() == AfterOpen(openMarker, s);
            continue;
          }
          if stripped == "" || stripped <= openMarker {
            return;
          }
          mode := Reply;
          continue;
        }
        if mode == Think {
          var idx := FindFrom(pending, closeMarker, 0);
          if idx >= 0 {
            thinkText := thinkText + pending[..idx];
            pending := StripNewlines(pending[idx + |closeMarker|..]);
            mode := Reply;
            assert ReplyStep(State()) == ThinkStep(closeMarker, s);
            continue;
          }
          var keep := PartialSuffixLen(pending, closeMarker);
          var emitUntil := |pending| - keep;
          thinkText := thinkText + pending[..emitUntil];
          pending := pending[emitUntil..];
          return;
        }
        if pending != "" {
          printed := printed + pending;
          pending := "";
        }
        return;
      }
    }

    method Finish()
      modifies this
      ensures collapse ==> State() == FinishStep(old(State()))
      ensures !collapse ==> State() == old(State())
    {
      if !collapse {
        return;
      }
      if mode == Think {
        thinkText := thinkText + pending;
        pending := "";
      } else if pending != "" {
        printed := printed + pending;
        pending := "";
      }
    }
  }

  /** A whole turn through the class. */
  method RenderTurn(open: string, close: string, chunks: seq<string>) returns (thinkText: string, printed: string)
    ensures thinkText == Final(open, close, chunks).thinkText
    ensures printed == Final(open, close, chunks).printed
  {
    var renderer := new ThinkStreamRenderer(open, close, true);
    for i := 0 to |chunks|
      invariant renderer.openMarker == open && renderer.closeMarker == close && renderer.collapse
      invariant renderer.State() == Run(open, close, chunks[..i])
    {
      assert chunks[..i + 1][..i] == chunks[..i];
      renderer.Feed(chunks[i]);
    }
    assert chunks[..|chunks|] == chunks;
    renderer.Finish();
    thinkText, printed := renderer.thinkText, renderer.printed;
  }

  // ----- what a whole stream means -----

  /** Where the open marker must stand: after the leading whitespace. */
  function OpenAt(open: string, total: string): (w: nat)
    ensures w <= |total|
  {
    if open == "" then 0 else LeadingSpace(total)
  }

  predicate Opened(open: string, total: string) {
    open <= total[OpenAt(open, total)..]
  }

  /** The text after the open marker. */
  function Body(open: string, total: string): string
    requires Opened(open, total)
  {
    total[OpenAt(open, total) + |open|..]
  }

  /** The thinking text of a stream. */
  function ThinkOf(open: string, close: string, total: string): string {
    if !Opened(open, total) then ""
    else
      var body := Body(open, total);
      var k := FindFrom(body, close, 0);
      if k == -1 then body else body[..k]
  }

  /** The stream is whitespace, open marker, thinking text, close marker, some newlines
      and the printed reply, in that order. */
  ghost predicate ClosedForm(open: string, close: string, total: string, s: Split) {
    exists newlines ::
      && Newlines(newlines)
      && total == total[..OpenAt(open, total)] + open + s.thinkText + close + newlines + s.printed
  }

  /** What `Final` says of the stream, in its three forms. */
  ghost predicate Explains(open: string, close: string, total: string, s: Split) {
    if !Opened(open, total) then
      s.thinkText == "" && s.printed == total
    else if FindFrom(Body(open, total), close, 0) == -1 then
      s.printed == "" && total == total[..OpenAt(open, total)] + open + s.thinkText
    else
      ClosedForm(open, close, total, s)
  }

  // ----- every run -----

  lemma FoundOpen(open: string, text: string)
    requires open <= Strip(text)
    ensures Opened(open, text) && FindFrom(text, open, 0) == OpenAt(open, text)
  {
    LeadingSpaceIsSpace(text);
    var w := OpenAt(open, text);
    assert open <= text[w..];
    assert text[w..w + |open|] == text[w..][..|open|] == open;
    forall i | 0 <= i < w ensures !OccursAt(text, i, open) {
      if i + |open| <= |text| {
        assert text[i..i + |open|][0] == text[i];
        assert open[0] == text[w];
      }
    }
    FindFromIsLeast(text, open, 0, w);
  }

  /** It can still turn out either way. */
  predicate Undecided(open: string, total: string) {
    if open == "" then total == "" else !(open <= Strip(total)) && Strip(total) <= open
  }

  /** The stream can no longer open. */
  predicate Hopeless(open: string, total: string) {
    open != "" && Strip(total) != "" && !(open <= Strip(total)) && !(Strip(total) <= open)
  }

  /** What holds once the open marker was read, `body` being the stream after it, `k` where
      the close marker stands in it (or -1), `keep` the partial close marker at its end. */
  ghost predicate InvBodyAt(close: string, s: Split, body: string, k: int, keep: nat) {
    match s.mode
    case Detect => false
    case Think => k == -1 && s.printed == "" && body == s.thinkText + s.pending && |s.pending| == keep
    case Reply => 0 <= k && k + |close| <= |body| && s.pending == ""
                  && s.thinkText == body[..k] && ReplyOf(body[k + |close|..], s.printed)
  }

  ghost predicate InvBody(close: string, s: Split, body: string) {
    InvBodyAt(close, s, body, FindFrom(body, close, 0), PartialSuffix(body, close))
  }

  ghost predicate Inv(open: string, close: string, s: Split, total: string) {
    if Opened(open, total) && s.mode != Detect then InvBody(close, s, Body(open, total))
    else if s.mode == Detect then s == Split(Detect, total, "", "") && Undecided(open, total)
    else s == Split(Reply, "", "", total) && Hopeless(open, total)
  }

  lemma LeadingSpaceOfExtension(total: string, text: string)
    requires Strip(total) != ""
    ensures LeadingSpace(total + text) == LeadingSpace(total)
    ensures Strip(total + text) == Strip(total) + text
  {
    LeadingSpaceIsSpace(total);
    var w := LeadingSpace(total);
    assert (total + text)[w] == total[w];
    LeadingSpaceIs(total + text, w);
  }

  lemma LeadingSpaceIs(text: string, w: nat)
    requires w < |text| && !IsSpace(text[w]) && forall i | 0 <= i < w :: IsSpace(text[i])
    ensures LeadingSpace(text) == w
  {
  }

  lemma OpenedExtends(open: string, total: string, text: string)
    requires Opened(open, total)
    ensures OpenAt(open, total + text) == OpenAt(open, total) && Opened(open, total + text)
    ensures Body(open, total + text) == Body(open, total) + text
  {
    if open != "" {
      LeadingSpaceOfExtension(total, text);
    }
  }

  lemma HopelessExtends(open: string, total: string, text: string)
    requires Hopeless(open, total)
    ensures Hopeless(open, total + text) && !Opened(open, total + text)
  {
    LeadingSpaceOfExtension(total, text);
    NeitherPrefixExtends(open, Strip(total), text);
  }

  lemma NeitherPrefixExtends(a: string, b: string, more: string)
    requires !(a <= b) && !(b <= a)
    ensures !(a <= b + more) && !(b + more <= a)
  {
  }

  lemma ThinkOutcomeInv(close: string, s: Split, body: string, idx: int, keep: nat)
    requires s.mode == Think && s.printed == "" && body == s.thinkText + s.pending
    requires idx == -1 || (0 <= idx && idx + |close| <= |s.pending|)
    requires keep <= |s.pending|
    ensures InvBodyAt(close, ThinkOutcome(close, s, idx, keep), body, if idx == -1 then -1 else |s.thinkText| + idx, keep)
  {
    var p := s.pending;
    if idx >= 0 {
      ClosesInv(close, s.thinkText, p, idx);
    } else {
      Resplit(s.thinkText, p, |p| - keep);
    }
  }

  lemma ClosesInv(close: string, sent: string, p: string, idx: nat)
    requires idx + |close| <= |p|
    ensures (sent + p)[..|sent| + idx] == sent + p[..idx]
    ensures ReplyOf((sent + p)[|sent| + idx + |close|..], "" + StripNewlines(p[idx + |close|..]))
  {
    DropPastAppend(sent, p, idx + |close|);
    DropPastAppend(sent, p, idx);
    var after := p[idx + |close|..];
    StripNewlinesStrips(after);
    NothingBefore(StripNewlines(after));
  }

  lemma ReplyOfExtends(after: string, printed: string, text: string)
    requires ReplyOf(after, printed)
    ensures ReplyOf(after + text, printed + text)
  {
  }

  lemma FoundStaysFound(body: string, text: string, close: string)
    requires FindFrom(body, close, 0) != -1
    ensures FindFrom(body + text, close, 0) == FindFrom(body, close, 0)
  {
    var k := FindFrom(body, close, 0);
    OccursInExtension(body, text, k, close);
    forall i | 0 <= i < k ensures !OccursAt(body + text, i, close) {
      if OccursAt(body + text, i, close) {
        OccursInPrefix(body, text, i, close);
      }
    }
    FindFromIsLeast(body + text, close, 0, k);
  }

  lemma ReplyStepInv(close: string, s: Split, body: string, text: string, k: int, keep: nat, keep': nat)
    requires s.mode == Reply && InvBodyAt(close, s, body, k, keep)
    ensures InvBodyAt(close, ReplyStep(s.(pending := s.pending + text)), body + text, k, keep')
  {
    NothingBefore(text);
    TakeOfAppend(body, text, k);
    DropOfAppend(body, text, k + |close|);
    ReplyOfExtends(body[k + |close|..], s.printed, text);
  }

  lemma ThinkingStepInv(close: string, s: Split, body: string, text: string)
    requires s.mode == Think && InvBody(close, s, body)
    ensures InvBody(close, ThinkStep(close, s.(pending := s.pending + text)), body + text)
  {
    var p := s.pending + text;
    SearchResumes(s.thinkText, s.pending, text, close);
    Associates(s.thinkText, s.pending, text);
    ThinkOutcomeInv(close, s.(pending := p), body + text, FindFrom(p, close, 0), PartialSuffix(p, close));
  }

  lemma ReplyingStepInv(close: string, s: Split, body: string, text: string)
    requires s.mode == Reply && InvBody(close, s, body)
    ensures InvBody(close, ReplyStep(s.(pending := s.pending + text)), body + text)
  {
    FoundStaysFound(body, text, close);
    ReplyStepInv(close, s, body, text, FindFrom(body, close, 0), PartialSuffix(body, close), PartialSuffix(body + text, close));
  }

  lemma StepInv(open: string, close: string, s: Split, total: string, text: string)
    requires Inv(open, close, s, total)
    ensures Inv(open, close, FeedStep(open, close, s, text), total + text)
  {
    if s.mode == Detect {
      DetectStepInv(open, close, total + text);
    } else if Opened(open, total) {
      OpenedExtends(open, total, text);
      if s.mode == Think {
        ThinkingStepInv(close, s, Body(open, total), text);
      } else {
        ReplyingStepInv(close, s, Body(open, total), text);
      }
    } else {
      HopelessExtends(open, total, text);
      assert s.pending + text == text;
    }
  }

  /** The state once the open marker of the pending text is read. */
  function AfterOpen(open: string, s: Split): Split
    requires open <= Strip(s.pending)
  {
    s.(mode := Think, pending := Body(open, s.pending))
  }

  lemma DetectOpens(open: string, close: string, s: Split)
    requires s.mode == Detect && open <= Strip(s.pending)
    ensures Opened(open, s.pending)
    ensures DetectStep(open, close, s) == ThinkStep(close, AfterOpen(open, s))
  {
    FoundOpen(open, s.pending);
  }

  lemma DetectStepInv(open: string, close: string, total: string)
    ensures Inv(open, close, DetectStep(open, close, Split(Detect, total, "", "")), total)
  {
    var s := Split(Detect, total, "", "");
    NothingBefore(total);
    if open <= Strip(total) {
      DetectOpens(open, close, s);
      var body := Body(open, total);
      NothingBefore(body);
      ThinkOutcomeInv(close, AfterOpen(open, s), body, FindFrom(body, close, 0), PartialSuffix(body, close));
    }
  }

  lemma {:induction false} RunInv(open: string, close: string, chunks: seq<string>)
    ensures Inv(open, close, Run(open, close, chunks), Joined(chunks))
  {
    if chunks == [] {
    } else {
      var before, text := chunks[..|chunks| - 1], chunks[|chunks| - 1];
      RunInv(open, close, before);
      StepInv(open, close, Run(open, close, before), Joined(before), text);
    }
  }

  lemma OpenedPrefixOfStream(open: string, total: string)
    requires Opened(open, total)
    ensures total == total[..OpenAt(open, total)] + open + Body(open, total)
  {
  }

  /** For every split of every stream: the thinking text is that of the stream, and
      stream, thinking text and printed reply fit together in one of the three forms. */
  lemma FinalExplainsStream(open: string, close: string, chunks: seq<string>)
    ensures Final(open, close, chunks).thinkText == ThinkOf(open, close, Joined(chunks))
    ensures Explains(open, close, Joined(chunks), Final(open, close, chunks))
  {
    RunInv(open, close, chunks);
    var s, total := Run(open, close, chunks), Joined(chunks);
    if Opened(open, total) && s.mode != Detect {
      OpenedPrefixOfStream(open, total);
      if s.mode == Reply {
        ClosedFormHolds(open, close, total, s);
      }
    } else {
      assert s.printed + s.pending == total;
    }
  }

  lemma ReplyForm(body: string, k: nat, close: string, printed: string)
    requires OccursAt(body, k, close) && ReplyOf(body[k + |close|..], printed)
    ensures var after := body[k + |close|..];
            body == body[..k] + close + after[..|after| - |printed|] + printed
  {
  }

  lemma ClosedFormHolds(open: string, close: string, total: string, s: Split)
    requires Opened(open, total) && s.mode == Reply && InvBody(close, s, Body(open, total))
    ensures ClosedForm(open, close, total, FinishStep(s))
  {
    OpenedPrefixOfStream(open, total);
    var body := Body(open, total);
    var newlines := NewlinesBetween(close, s, body, FindFrom(body, close, 0), PartialSuffix(body, close));
    SixPieces(total[..OpenAt(open, total)], open, s.thinkText, close, newlines, FinishStep(s).printed);
  }

  lemma NewlinesBetween(close: string, s: Split, body: string, k: int, keep: nat) returns (newlines: string)
    requires s.mode == Reply && InvBodyAt(close, s, body, k, keep) && OccursAt(body, k, close)
    ensures Newlines(newlines)
    ensures body == s.thinkText + close + newlines + FinishStep(s).printed
  {
    ReplyForm(body, k, close, s.printed);
    NothingBefore(s.printed);
    var after := body[k + |close|..];
    newlines := after[..|after| - |s.printed|];
  }

  /** The thinking text does not depend on the chunks. */
  lemma ThinkTextIgnoresChunking(open: string, close: string, a: seq<string>, b: seq<string>)
    requires Joined(a) == Joined(b)
    ensures Final(open, close, a).thinkText == Final(open, close, b).thinkText
  {
    FinalExplainsStream(open, close, a);
    FinalExplainsStream(open, close, b);
  }

  // ----- the printed reply -----

  /** The stream closes and a newline follows the close marker. */
  predicate NewlineAfterClose(open: string, close: string, total: string) {
    && Opened(open, total)
    && var body := Body(open, total);
       var k := FindFrom(body, close, 0);
       k != -1 && k + |close| < |body| && body[k + |close|] == '\n'
  }

  lemma ReplyPrintedWithoutNewline(close: string, s: Split, body: string, k: int, keep: nat)
    requires s.mode == Reply && InvBodyAt(close, s, body, k, keep)
    requires k + |close| < |body| ==> body[k + |close|] != '\n'
    ensures FinishStep(s).printed == body[k + |close|..]
  {
  }

  lemma PrintedWithoutNewline(open: string, close: string, chunks: seq<string>)
    requires !NewlineAfterClose(open, close, Joined(chunks))
    ensures Final(open, close, chunks).printed == PrintedOf(open, close, Joined(chunks))
  {
    RunInv(open, close, chunks);
    var s, total := Run(open, close, chunks), Joined(chunks);
    if s.mode == Reply && Opened(open, total) {
      var body := Body(open, total);
      ReplyPrintedWithoutNewline(close, s, body, FindFrom(body, close, 0), PartialSuffix(body, close));
    } else if s.mode != Think {
      UnopenedPrinted(open, close, total, s);
    }
  }

  lemma UnopenedPrinted(open: string, close: string, total: string, s: Split)
    requires Inv(open, close, s, total) && s.mode != Think && (s.mode == Reply ==> !Opened(open, total))
    ensures FinishStep(s).printed == total == PrintedOf(open, close, total)
  {
    NothingBefore(total);
  }

  function PrintedOf(open: string, close: string, total: string): string {
    if !Opened(open, total) then total
    else
      var body := Body(open, total);
      var k := FindFrom(body, close, 0);
      if k == -1 then "" else body[k + |close|..]
  }

  ghost predicate ReplyIgnoresChunking(open: string, close: string, total: string) {
    forall a, b :: Joined(a) == total && Joined(b) == total ==> Final(open, close, a).printed == Final(open, close, b).printed
  }

  /** Exactly when the printed reply is independent of the chunks too: unless a newline
      follows the close marker, since only newlines that arrive with it are stripped. */
  lemma ReplyIgnoresChunkingIff(open: string, close: string, total: string)
    ensures ReplyIgnoresChunking(open, close, total) <==> !NewlineAfterClose(open, close, total)
  {
    if NewlineAfterClose(open, close, total) {
      NewlinesStrippedOrPrinted(open, close, total);
    } else {
      forall a, b | Joined(a) == total && Joined(b) == total
        ensures Final(open, close, a).printed == Final(open, close, b).printed
      {
        PrintedWithoutNewline(open, close, a);
        PrintedWithoutNewline(open, close, b);
      }
    }
  }

  /** In one chunk the newlines are stripped, cut after the close marker they are printed. */
  lemma NewlinesStrippedOrPrinted(open: string, close: string, total: string)
    requires NewlineAfterClose(open, close, total)
    ensures !ReplyIgnoresChunking(open, close, total)
  {
    var first, rest := CutAfterClose(open, close, total);
    JoinedPair(first, rest);
    JoinedPair(total, "");
    PrintedInOneChunk(open, close, total);
    PrintedInTwoChunks(open, close, first, rest);
    StripNewlinesShortens(rest);
    RepliesDiffer(open, close, total, [total], [first, rest]);
  }

  lemma RepliesDiffer(open: string, close: string, total: string, a: seq<string>, b: seq<string>)
    requires Joined(a) == total == Joined(b) && Final(open, close, a).printed != Final(open, close, b).printed
    ensures !ReplyIgnoresChunking(open, close, total)
  {
  }

  lemma StripNewlinesShortens(after: string)
    requires after != "" && after[0] == '\n'
    ensures |StripNewlines(after)| < |after|
  {
  }

  lemma FoundInPrefix(body: string, close: string, m: nat)
    requires m <= |body| && FindFrom(body, close, 0) != -1 && FindFrom(body, close, 0) + |close| <= m
    ensures FindFrom(body[..m], close, 0) == FindFrom(body, close, 0)
  {
    var k := FindFrom(body, close, 0);
    assert body == body[..m] + body[m..];
    OccursInPrefix(body[..m], body[m..], k, close);
    forall i | 0 <= i < k ensures !OccursAt(body[..m], i, close) {
      if OccursAt(body[..m], i, close) {
        OccursInExtension(body[..m], body[m..], i, close);
      }
    }
    FindFromIsLeast(body[..m], close, 0, k);
  }

  lemma OpenedInPrefix(open: string, total: string, n: nat)
    requires Opened(open, total) && OpenAt(open, total) + |open| <= n <= |total|
    ensures Opened(open, total[..n])
    ensures Body(open, total[..n]) == Body(open, total)[..n - OpenAt(open, total) - |open|]
  {
  }

  lemma CutAfterClose(open: string, close: string, total: string) returns (first: string, rest: string)
    requires NewlineAfterClose(open, close, total)
    ensures first + rest == total && rest != "" && rest[0] == '\n'
    ensures var body := Body(open, total); rest == body[FindFrom(body, close, 0) + |close|..]
    ensures Opened(open, first)
    ensures var body := Body(open, first); var k := FindFrom(body, close, 0); k != -1 && k + |close| == |body|
  {
    var body := Body(open, total);
    var m := FindFrom(body, close, 0) + |close|;
    var n := OpenAt(open, total) + |open| + m;
    first, rest := total[..n], total[n..];
    OpenedInPrefix(open, total, n);
    FoundInPrefix(body, close, m);
  }

  lemma PrintedInOneChunk(open: string, close: string, total: string)
    requires Opened(open, total) && FindFrom(Body(open, total), close, 0) != -1
    ensures var body := Body(open, total);
            Final(open, close, [total]).printed == StripNewlines(body[FindFrom(body, close, 0) + |close|..])
  {
    var body := Body(open, total);
    OneChunkRun(open, close, total);
    ThinkOutcomePrints(close, Split(Think, body, "", ""), FindFrom(body, close, 0), PartialSuffix(body, close));
  }

  lemma OneChunkRun(open: string, close: string, total: string)
    requires Opened(open, total)
    ensures Run(open, close, [total]) == ThinkStep(close, Split(Think, Body(open, total), "", ""))
  {
    NothingBefore(total);
    assert [total][..0] == [];
    assert Run(open, close, []) == FRESH;
    DetectOpens(open, close, Split(Detect, total, "", ""));
  }

  lemma ThinkOutcomePrints(close: string, t: Split, idx: nat, keep: nat)
    requires idx + |close| <= |t.pending| && keep <= |t.pending| && t.printed == ""
    ensures FinishStep(ThinkOutcome(close, t, idx, keep)).printed == StripNewlines(t.pending[idx + |close|..])
  {
  }

  lemma PrintedInTwoChunks(open: string, close: string, first: string, rest: string)
    requires Opened(open, first) && FindFrom(Body(open, first), close, 0) + |close| == |Body(open, first)|
    requires FindFrom(Body(open, first), close, 0) != -1
    ensures Final(open, close, [first, rest]).printed == rest
  {
    assert [first, rest][..1] == [first];
    RunInv(open, close, [first]);
    JoinedPair(first, rest);
    var s := Run(open, close, [first]);
    assert s.mode == Reply && s.printed == "" && s.pending == "";
    NothingBefore(rest);
    assert Run(open, close, [first, rest]) == ReplyStep(s.(pending := rest));
  }
}
