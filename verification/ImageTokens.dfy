/** Image placeholders in a rendered prompt, expanded to their token grids. */
module ImageTokens {
  import opened Sequences
  import opened ImageGrid
  import opened MarkerText
  import opened StreamText

  const MARKS := Marks("<|image_start|>", "<|image_pad|>", "<|image_break|>", "<|image_end|>")

  predicate HasGrid(size: Size) {
    size.height / SIDE >= 1 && size.width / SIDE >= 1
  }

  function TokenText(ms: Marks, size: Size): string
    requires HasGrid(size)
  {
    ms.start + GridText(ms, size.height / SIDE, size.width / SIDE)
  }

  function ImageTokenString(size: Size): Result<string> {
    if HasGrid(size) then Ok(TokenText(MARKS, size)) else Err
  }

  function TokenTexts(ms: Marks, sizes: seq<Size>): (texts: seq<string>)
    requires forall size | size in sizes :: HasGrid(size)
    ensures |texts| == |sizes| && forall i | 0 <= i < |sizes| :: texts[i] == TokenText(ms, sizes[i])
  {
    seq(|sizes|, i requires 0 <= i < |sizes| => TokenText(ms, sizes[i]))
  }

  /** One size for each placeholder, and a grid for each size. */
  predicate Expandable(ms: Marks, prompt: string, sizes: seq<Size>)
    requires ms.start != ""
  {
    |Split(prompt, ms.start)| == |sizes| + 1 && forall size | size in sizes :: HasGrid(size)
  }

  function Expand(ms: Marks, prompt: string, sizes: seq<Size>): Result<string>
    requires ms.start != ""
  {
    if Expandable(ms, prompt, sizes) then Ok(Fill(Split(prompt, ms.start), TokenTexts(ms, sizes))) else Err
  }

  lemma FillStep(ms: Marks, pieces: seq<string>, sizes: seq<Size>, n: nat)
    requires |pieces| == |sizes| + 1 && n < |sizes| && forall k | 0 <= k <= n :: HasGrid(sizes[k])
    ensures Fill(pieces[..n + 2], TokenTexts(ms, sizes[..n + 1]))
            == Fill(pieces[..n + 1], TokenTexts(ms, sizes[..n])) + TokenText(ms, sizes[n]) + pieces[n + 1]
  {
    assert pieces[..n + 2] == pieces[..n + 1] + [pieces[n + 1]];
    assert TokenTexts(ms, sizes[..n + 1]) == TokenTexts(ms, sizes[..n]) + [TokenText(ms, sizes[n])];
    FillLast(pieces[..n + 1], TokenTexts(ms, sizes[..n]), TokenText(ms, sizes[n]), pieces[n + 1]);
  }

  method ExpandPlaceholders(ms: Marks, prompt: string, sizes: seq<Size>) returns (expanded: Result<string>)
    requires ms.start != ""
    ensures expanded == Expand(ms, prompt, sizes)
  {
    var pieces := Split(prompt, ms.start);
    if |pieces| - 1 != |sizes| {
      return Err;
    }
    var text := pieces[0];
    for i := 0 to |sizes|
      invariant forall k | 0 <= k < i :: HasGrid(sizes[k])
      invariant text == Fill(pieces[..i + 1], TokenTexts(ms, sizes[..i]))
    {
      if !HasGrid(sizes[i]) {
        return Err;
      }
      FillStep(ms, pieces, sizes, i);
      text := text + TokenText(ms, sizes[i]) + pieces[i + 1];
    }
    assert pieces[..|sizes| + 1] == pieces && sizes[..|sizes|] == sizes;
    expanded := Ok(text);
  }

  method ExpandImagePlaceholders(prompt: string, sizes: seq<Size>) returns (expanded: Result<string>)
    ensures expanded == Expand(MARKS, prompt, sizes)
  {
    expanded := ExpandPlaceholders(MARKS, prompt, sizes);
  }

  // ----- what expansion promises -----

  lemma MarksAreRecognizable()
    ensures Recognizable(MARKS)
  {
    assert MARKS.end[8] == 'e' && MARKS.pad[8] == 'p' && MARKS.brk[8] == 'b';
  }

  lemma TokenTextIsImage(ms: Marks, size: Size)
    requires Recognizable(ms) && HasGrid(size)
    ensures IsImage(TokenText(ms, size), ms.start, ms.end)
  {
    var grid := GridText(ms, size.height / SIDE, size.width / SIDE);
    forall rest: string ensures FindFrom(grid + rest, ms.end, 0) == |grid| - |ms.end| {
      EndClosesGrid(ms, size.height / SIDE, size.width / SIDE, rest);
    }
    assert TokenText(ms, size)[|ms.start|..] == grid;
  }

  /** Collapsing an expanded prompt gives the prompt back, whatever else it contains. */
  lemma CollapseUndoesExpand(ms: Marks, prompt: string, sizes: seq<Size>)
    requires Recognizable(ms) && Expand(ms, prompt, sizes).Ok?
    ensures Collapse(Expand(ms, prompt, sizes).value, ms.start, ms.end) == prompt
  {
    var texts := TokenTexts(ms, sizes);
    forall i | 0 <= i < |texts| ensures IsImage(texts[i], ms.start, ms.end) {
      TokenTextIsImage(ms, sizes[i]);
    }
    CollapseFill(prompt, texts, ms.start, ms.end);
  }

  // ----- what stands where -----

  lemma {:induction false} JoinedCons(x: string, xs: seq<string>)
    ensures Joined([x] + xs) == x + Joined(xs)
  {
    if xs == [] {
      assert [x] + xs == [x] && [x][..0] == [];
      NothingBefore(x);
    } else {
      var n := |xs| - 1;
      JoinedCons(x, xs[..n]);
      assert ([x] + xs)[..|xs|] == [x] + xs[..n];
      Associates(x, Joined(xs[..n]), xs[n]);
    }
  }

  lemma {:induction false} PadsOf(pad: string, n: nat) returns (pads: seq<string>)
    ensures |pads| == n && (forall c | 0 <= c < n :: pads[c] == pad) && Joined(pads) == Times(pad, n)
  {
    if n == 0 {
      pads := [];
    } else {
      var rest := PadsOf(pad, n - 1);
      JoinedCons(pad, rest);
      pads := [pad] + rest;
    }
  }

  /** One line of the grid: its pads, and then the marker that ends the line. */
  ghost predicate IsLine(line: seq<string>, pad: string, columns: nat, last: string) {
    |line| == columns + 1 && line[columns] == last && forall c | 0 <= c < columns :: line[c] == pad
  }

  lemma LineOf(pad: string, columns: nat, last: string) returns (line: seq<string>)
    ensures IsLine(line, pad, columns, last) && Joined(line) == Times(pad, columns) + last
  {
    var pads := PadsOf(pad, columns);
    line := pads + [last];
    assert line[..columns] == pads;
  }

  function Texts(lines: seq<seq<string>>): (texts: seq<string>)
    ensures |texts| == |lines| && forall r | 0 <= r < |lines| :: texts[r] == Joined(lines[r])
  {
    seq(|lines|, r requires 0 <= r < |lines| => Joined(lines[r]))
  }

  lemma {:induction false} LinesOf(ms: Marks, rows: nat, columns: nat) returns (lines: seq<seq<string>>)
    requires rows >= 1
    ensures |lines| == rows && Joined(Texts(lines)) == GridText(ms, rows, columns)
    ensures forall r | 0 <= r < rows :: IsLine(lines[r], ms.pad, columns, if r == rows - 1 then ms.end else ms.brk)
  {
    GridTextSteps(ms, rows, columns, "");
    NothingBefore(GridText(ms, rows, columns));
    if rows == 1 {
      var line := LineOf(ms.pad, columns, ms.end);
      lines := [line];
      JoinedCons(Joined(line), []);
      assert Texts(lines) == [Joined(line)] + [];
      NothingBefore(ms.end);
      NothingBefore(Joined(line));
    } else {
      var line := LineOf(ms.pad, columns, ms.brk);
      var rest := LinesOf(ms, rows - 1, columns);
      lines := [line] + rest;
      JoinedCons(Joined(line), Texts(rest));
      assert Texts(lines) == [Joined(line)] + Texts(rest);
      NothingBefore(GridText(ms, rows - 1, columns));
      Associates(Times(ms.pad, columns), ms.brk, GridText(ms, rows - 1, columns));
    }
  }

  /** The token string is the start marker and then, for each row of patches, as many pads as
      there are columns and a break, the last row being closed by the end marker instead. */
  lemma TokenStringLayout(size: Size) returns (lines: seq<seq<string>>)
    requires size.height / 28 >= 1 && size.width / 28 >= 1
    ensures |lines| == size.height / 28
    ensures forall r | 0 <= r < |lines| :: IsLine(lines[r], MARKS.pad, size.width / 28, if r == |lines| - 1 then MARKS.end else MARKS.brk)
    ensures ImageTokenString(size) == Ok(MARKS.start + Joined(Texts(lines)))
  {
    lines := LinesOf(MARKS, size.height / 28, size.width / 28);
  }

  /** A size without a full patch each way has no token string. */
  lemma NoTokenString(size: Size)
    requires size.height / 28 < 1 || size.width / 28 < 1
    ensures ImageTokenString(size) == Err
  {
  }

  lemma TokenTextsTail(ms: Marks, sizes: seq<Size>)
    requires sizes != [] && forall size | size in sizes :: HasGrid(size)
    ensures TokenTexts(ms, sizes)[1..] == TokenTexts(ms, sizes[1..])
  {
  }

  /** A text without placeholders stays as it is, and takes no image. */
  lemma ExpandPlain(ms: Marks, text: string, sizes: seq<Size>)
    requires ms.start != "" && forall i | 0 <= i <= |text| :: !OccursAt(text, i, ms.start)
    ensures Expand(ms, text, sizes) == if sizes == [] then Ok(text) else Err
  {
    assert FindFrom(text, ms.start, 0) == -1;
    assert Split(text, ms.start) == [text];
  }

  /** The first placeholder takes the first image, and the rest of the prompt the others. */
  lemma ExpandFirst(ms: Marks, before: string, after: string, sizes: seq<Size>)
    requires Opens(ms.start) && forall i | 0 <= i <= |before| :: !OccursAt(before, i, ms.start)
    ensures Expand(ms, before + (ms.start + after), sizes) ==
            if sizes == [] || !HasGrid(sizes[0]) then Err
            else match Expand(ms, after, sizes[1..])
                 case Err => Err
                 case Ok(rest) => Ok(before + (TokenText(ms, sizes[0]) + rest))
  {
    var prompt := before + (ms.start + after);
    assert FindFrom(before, ms.start, 0) == -1;
    FoundThere(before, ms.start, after);
    SplitFirst(prompt, ms.start, before, after);
    if sizes != [] {
      assert sizes == [sizes[0]] + sizes[1..];
      if Expandable(ms, prompt, sizes) {
        TokenTextsTail(ms, sizes);
      }
    }
  }

  lemma SplitFirst(prompt: string, start: string, before: string, after: string)
    requires start != "" && prompt == before + (start + after) && FindFrom(prompt, start, 0) == |before|
    ensures Split(prompt, start) == [before] + Split(after, start)
    ensures Split(prompt, start)[0] == before && Split(prompt, start)[1..] == Split(after, start)
  {
    assert prompt[..|before|] == before && prompt[|before| + |start|..] == after;
  }

  /** So the images fill the placeholders one by one, in order: this is all that
      `expand_image_placeholders` does to a prompt. */
  lemma ImagesFillInOrder(before: string, after: string, sizes: seq<Size>)
    requires forall i | 0 <= i <= |before| :: !OccursAt(before, i, MARKS.start)
    ensures Expand(MARKS, before, sizes) == if sizes == [] then Ok(before) else Err
    ensures Expand(MARKS, before + (MARKS.start + after), sizes) ==
            if sizes == [] then Err
            else match ImageTokenString(sizes[0])
                 case Err => Err
                 case Ok(tokens) =>
                   match Expand(MARKS, after, sizes[1..])
                   case Err => Err
                   case Ok(rest) => Ok(before + (tokens + rest))
  {
    MarksAreRecognizable();
    ExpandPlain(MARKS, before, sizes);
    ExpandFirst(MARKS, before, after, sizes);
  }

  /** Pads, row breaks, start and end of a resized image. */
  function TokensOf(size: Size): int {
    (size.height / SIDE) * (size.width / SIDE) + (size.height / SIDE - 1) + 2
  }

  lemma TokenTextAdds(ms: Marks, size: Size)
    requires Recognizable(ms) && HasGrid(size)
    ensures Adds(ms, TokenText(ms, size), TokensOf(size))
  {
    var text, grid := TokenText(ms, size), GridText(ms, size.height / SIDE, size.width / SIDE);
    forall rest: string ensures Markers(ms, text + rest) == TokensOf(size) + Markers(ms, rest) {
      assert text + rest == ms.start + (grid + rest);
      OneMarker(ms, ms.start, grid + rest);
      MarkersOfGrid(ms, size.height / SIDE, size.width / SIDE, rest);
    }
  }

  /** The token string of a resized image holds exactly the promised number of markers,
      unless a side was rounded to 0: then there is no token string. */
  lemma TokenStringMatchesCount(image: Size, limit: nat)
    requires ValidLimit(limit) && image.height > 0 && image.width > 0
    ensures var tokens := ImageTokenString(ImageSize(image, limit).value);
            if Vanishes(image, limit) then tokens == Err
            else tokens.Ok? && Markers(MARKS, tokens.value) == ImageTokenCount(image, limit).value
  {
    var size := ImageSize(image, limit).value;
    GridCoversImage(image, limit);
    if !Vanishes(image, limit) {
      MarkersInUse(size);
    }
  }

  lemma MarkersInUse(size: Size)
    requires HasGrid(size)
    ensures Markers(MARKS, TokenText(MARKS, size)) == TokensOf(size)
  {
    MarksAreRecognizable();
    MarkersOfTokenText(MARKS, size);
  }

  lemma MarkersOfTokenText(ms: Marks, size: Size)
    requires Recognizable(ms) && HasGrid(size)
    ensures Markers(ms, TokenText(ms, size)) == TokensOf(size)
  {
    TokenTextAdds(ms, size);
    assert TokenText(ms, size) + "" == TokenText(ms, size);
  }

  function ExtraTokens(sizes: seq<Size>): (counts: seq<int>)
    ensures |counts| == |sizes| && forall i | 0 <= i < |sizes| :: counts[i] == TokensOf(sizes[i]) - 1
  {
    seq(|sizes|, i requires 0 <= i < |sizes| => TokensOf(sizes[i]) - 1)
  }

  /** Expansion adds exactly the tokens of its images: each placeholder becomes one grid, and
      every other marker of the prompt stays. */
  lemma ExpansionAddsItsTokens(ms: Marks, prompt: string, sizes: seq<Size>)
    requires Recognizable(ms) && Expand(ms, prompt, sizes).Ok?
    ensures Markers(ms, Expand(ms, prompt, sizes).value) == Markers(ms, prompt) + Total(ExtraTokens(sizes))
  {
    var texts, counts := TokenTexts(ms, sizes), ExtraTokens(sizes);
    forall i | 0 <= i < |texts| ensures Adds(ms, texts[i], counts[i] + 1) {
      TokenTextAdds(ms, sizes[i]);
    }
    MarkersOfFill(ms, prompt, texts, counts);
  }

  /** Both, for the markers in use. */
  lemma ExpansionKeepsPrompt(prompt: string, sizes: seq<Size>)
    requires Expand(MARKS, prompt, sizes).Ok?
    ensures var expanded := Expand(MARKS, prompt, sizes).value;
            && Collapse(expanded, MARKS.start, MARKS.end) == prompt
            && Markers(MARKS, expanded) == Markers(MARKS, prompt) + Total(ExtraTokens(sizes))
  {
    MarksAreRecognizable();
    CollapseUndoesExpand(MARKS, prompt, sizes);
    ExpansionAddsItsTokens(MARKS, prompt, sizes);
  }
}
