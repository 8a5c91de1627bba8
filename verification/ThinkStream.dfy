/** What a streamed turn becomes, said of the stream itself: the markers are looked for where
    they stand, whatever the chunks. */
module ThinkStream {
  import opened Sequences
  import opened StreamText
  import opened ThinkSplit

  /** Leading whitespace, and then text that does not begin with any. */
  ghost predicate StartsAfter(total: string, ws: string, rest: string) {
    total == ws + rest && (forall i | 0 <= i < |ws| :: IsSpace(ws[i])) && (rest != "" ==> !IsSpace(rest[0]))
  }

  lemma OpensAfter(open: string, total: string, ws: string, rest: string)
    requires open != "" && StartsAfter(total, ws, rest)
    ensures Opened(open, total) <==> open <= rest
    ensures Opened(open, total) ==> Body(open, total) == rest[|open|..]
  {
    if rest == "" {
      assert total == ws;
      LeadingSpaceIsSpace(total);
      assert forall i | 0 <= i < |total| :: IsSpace(total[i]);
    } else {
      assert total[|ws|] == rest[0];
      LeadingSpaceIs(total, |ws|);
    }
    assert total[|ws|..] == rest;
  }

  /** A stream that does not begin with the open marker, whitespace aside, is printed whole. */
  lemma UnmarkedStreamIsPrinted(open: string, close: string, chunks: seq<string>, ws: string, rest: string)
    requires open != "" && StartsAfter(Joined(chunks), ws, rest) && !(open <= rest)
    ensures Final(open, close, chunks).thinkText == "" && Final(open, close, chunks).printed == Joined(chunks)
  {
    OpensAfter(open, Joined(chunks), ws, rest);
    FinalExplainsStream(open, close, chunks);
  }

  /** After the open marker everything is thinking, if the close marker never comes. */
  lemma UnclosedStreamIsThinking(open: string, close: string, chunks: seq<string>, ws: string, body: string)
    requires open != "" && !IsSpace(open[0]) && StartsAfter(Joined(chunks), ws, open + body)
    requires forall i | 0 <= i <= |body| :: !OccursAt(body, i, close)
    ensures Final(open, close, chunks).thinkText == body && Final(open, close, chunks).printed == ""
  {
    OpensAfter(open, Joined(chunks), ws, open + body);
    assert (open + body)[|open|..] == body;
    assert forall i | 0 <= i :: !OccursAt(body, i, close);
    FinalExplainsStream(open, close, chunks);
  }

  /** If it comes, what is between the markers is thinking, and what is after it is printed,
      but for some newlines at its start. */
  lemma ClosedStreamIsSplit(open: string, close: string, chunks: seq<string>, ws: string, think: string, after: string)
    requires open != "" && !IsSpace(open[0]) && StartsAfter(Joined(chunks), ws, open + (think + (close + after)))
    requires forall i | 0 <= i < |think| :: !OccursAt(think + (close + after), i, close)
    ensures var s := Final(open, close, chunks);
            && s.thinkText == think
            && |s.printed| <= |after| && after[|after| - |s.printed|..] == s.printed
            && (forall i | 0 <= i < |after| - |s.printed| :: after[i] == '\n')
  {
    var body := think + (close + after);
    OpensAfter(open, Joined(chunks), ws, open + body);
    CutsAtClose(open, close, think, after);
    FinalExplainsStream(open, close, chunks);
    RestIsReply(open, close, chunks);
  }

  lemma CutsAtClose(open: string, close: string, think: string, after: string)
    requires forall i | 0 <= i < |think| :: !OccursAt(think + (close + after), i, close)
    ensures var body := think + (close + after);
            && (open + body)[|open|..] == body
            && FindFrom(body, close, 0) == |think| && body[..|think|] == think && body[|think| + |close|..] == after
  {
    var body := think + (close + after);
    assert body[|think|..|think| + |close|] == close;
    FindFromIsLeast(body, close, 0, |think|);
  }

  lemma ReplyLeft(close: string, s: Split, body: string, k: int, keep: nat)
    requires s.mode == Reply && InvBodyAt(close, s, body, k, keep)
    ensures ReplyOf(body[k + |close|..], FinishStep(s).printed)
  {
    NothingBefore(s.printed);
  }

  lemma ClosedRunReplies(open: string, close: string, s: Split, total: string)
    requires open != "" && Inv(open, close, s, total) && Opened(open, total) && FindFrom(Body(open, total), close, 0) != -1
    ensures s.mode == Reply && InvBody(close, s, Body(open, total))
  {
  }

  lemma ClosedRunLeaves(open: string, close: string, s: Split, total: string)
    requires open != "" && Inv(open, close, s, total) && Opened(open, total) && FindFrom(Body(open, total), close, 0) != -1
    ensures var body := Body(open, total); ReplyOf(body[FindFrom(body, close, 0) + |close|..], FinishStep(s).printed)
  {
    ClosedRunReplies(open, close, s, total);
    var body := Body(open, total);
    ReplyLeft(close, s, body, FindFrom(body, close, 0), PartialSuffix(body, close));
  }

  lemma RestIsReply(open: string, close: string, chunks: seq<string>)
    requires open != "" && Opened(open, Joined(chunks)) && FindFrom(Body(open, Joined(chunks)), close, 0) != -1
    ensures var body := Body(open, Joined(chunks));
            ReplyOf(body[FindFrom(body, close, 0) + |close|..], Final(open, close, chunks).printed)
  {
    RunInv(open, close, chunks);
    ClosedRunLeaves(open, close, Run(open, close, chunks), Joined(chunks));
  }

  lemma OneChunkStrips(open: string, close: string, total: string)
    requires Opened(open, total) && FindFrom(Body(open, total), close, 0) != -1
    ensures var s := Final(open, close, [total]); s.printed == "" || s.printed[0] != '\n'
  {
    PrintedInOneChunk(open, close, total);
    var body := Body(open, total);
    StripNewlinesStrips(body[FindFrom(body, close, 0) + |close|..]);
  }

  /** A stream that comes in one chunk loses all newlines at the start of its reply. */
  lemma OneChunkStripsNewlines(open: string, close: string, ws: string, think: string, after: string)
    requires open != "" && !IsSpace(open[0]) && StartsAfter(ws + (open + (think + (close + after))), ws, open + (think + (close + after)))
    requires forall i | 0 <= i < |think| :: !OccursAt(think + (close + after), i, close)
    ensures var s := Final(open, close, [ws + (open + (think + (close + after)))]);
            s.printed == "" || s.printed[0] != '\n'
  {
    var body := think + (close + after);
    var total := ws + (open + body);
    OpensAfter(open, total, ws, open + body);
    CutsAtClose(open, close, think, after);
    OneChunkStrips(open, close, total);
  }

  /** Thinking text keeps up with the stream: all of it has been taken over but the longest
      end that may be the start of the close marker. */
  lemma ThinkTextKeepsUp(open: string, close: string, chunks: seq<string>)
    requires Run(open, close, chunks).mode == Think
    ensures var s := Run(open, close, chunks);
            && Opened(open, Joined(chunks)) && Body(open, Joined(chunks)) == s.thinkText + s.pending && s.printed == ""
            && (s.pending != "" ==> |s.pending| < |close| && s.pending <= close)
            && forall n | |s.pending| < n :: !Partial(s.thinkText + s.pending, close, n)
  {
    RunInv(open, close, chunks);
    var s := Run(open, close, chunks);
    assert (s.thinkText + s.pending)[|s.thinkText|..] == s.pending;
  }
}
