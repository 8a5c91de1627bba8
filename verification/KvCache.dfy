/** The cross-turn KV cache: when the cache handed to `generate` is sure to hold exactly the
    reused prefix of the freshly rendered prompt. */
module KvCache {
  import opened Wrappers

  predicate IsCommonPrefix(a: seq<int>, b: seq<int>, n: nat) {
    n <= |a| && n <= |b| && a[..n] == b[..n]
  }

  /** Length of the longest common prefix. */
  function CommonPrefix(a: seq<int>, b: seq<int>): (n: nat)
    ensures IsCommonPrefix(a, b, n)
    ensures n < |a| && n < |b| ==> a[n] != b[n]
  {
    if a == [] || b == [] || a[0] != b[0] then 0
    else
      var n := 1 + CommonPrefix(a[1..], b[1..]);
      assert a[..n] == [a[0]] + a[1..][..n - 1] && b[..n] == [b[0]] + b[1..][..n - 1];
      n
  }

  lemma CommonPrefixIsLongest(a: seq<int>, b: seq<int>, n: nat)
    requires IsCommonPrefix(a, b, n)
    ensures n <= CommonPrefix(a, b)
  {
  }

  lemma CommonPrefixIs(a: seq<int>, b: seq<int>, n: nat)
    requires IsCommonPrefix(a, b, n) && (n < |a| && n < |b| ==> a[n] != b[n])
    ensures CommonPrefix(a, b) == n
  {
  }

  method LongestCommonPrefixLen(a: seq<int>, b: seq<int>) returns (n: nat)
    ensures n == CommonPrefix(a, b)
  {
    n := if |a| < |b| then |a| else |b|;
    ghost var len := n;
    var i := 0;
    while i < n
      invariant 0 <= i <= n == len && IsCommonPrefix(a, b, i)
    {
      if a[i] != b[i] {
        CommonPrefixIs(a, b, i);
        return i;
      }
      i := i + 1;
    }
    CommonPrefixIs(a, b, n);
  }

  // ----- state and steps -----

  /** `cache` is the sequence of tokens the cache object holds, if there is one. */
  datatype State = State(cache: Option<seq<int>>, cachedIds: seq<int>)

  const EMPTY := State(None, [])

  /** The cache holds what is recorded of it; with an empty record it is never used again. */
  predicate Agrees(s: State) {
    s.cachedIds == [] || s.cache == Some(s.cachedIds)
  }

  /** `_prepare_cache`: the state handed to `generate`. `cropWorks` says whether this kind
      of cache can be cropped. Cropping drops tokens from the end of what the cache holds,
      whatever the record says. */
  function Prepare(s: State, ids: seq<int>, cropWorks: bool): State {
    var common := CommonPrefix(s.cachedIds, ids);
    var keep := if common < |ids| - 1 then common else |ids| - 1;
    if s.cache.None? || keep <= 0 then State(Some([]), [])
    else if keep < |s.cachedIds| then
      var drop := |s.cachedIds| - keep;
      if cropWorks && drop <= |s.cache.value| then State(Some(s.cache.value[..|s.cache.value| - drop]), s.cachedIds[..keep])
      else State(Some([]), [])
    else s
  }

  /** What the environment does with one turn. */
  datatype Outcome =
    | RenderFailed                                   // no prompt, the cache is not touched
    | NotStarted                                     // fails after the cache was prepared
    | GenerateFailed(left: seq<int>)                 // `generate` raises, leaving the cache in any state
    | Escaped(left: seq<int>)                        // an interrupt escapes the turn
    | DisplayRaised(left: seq<int>)                  // the text callback raises an ordinary exception
    | Completed(reply: seq<int>, cached: nat)        // possibly interrupted; the cache holds `cached` tokens

  datatype Turn = Turn(ids: seq<int>, cropWorks: bool, outcome: Outcome)

  /** `generate` extends the cache along the sequence it returns. */
  predicate Extends(t: Turn) {
    t.outcome.Completed? ==> t.outcome.cached <= |t.ids + t.outcome.reply|
  }

  function After(s: State, t: Turn): State
    requires Extends(t)
  {
    match t.outcome
    case RenderFailed => s
    case NotStarted => Prepare(s, t.ids, t.cropWorks)
    case GenerateFailed(_) => EMPTY
    case Escaped(_) => EMPTY
    case DisplayRaised(left) => State(Some(left), Prepare(s, t.ids, t.cropWorks).cachedIds)
    case Completed(reply, cached) => var held := (t.ids + reply)[..cached]; State(Some(held), held)
  }

  // ----- the classes -----

  class DynamicCache {
    var tokens: seq<int>

    constructor ()
      ensures tokens == []
    {
      tokens := [];
    }

    /** `crop(n)` with negative `n` drops the last `-n` tokens, or raises. */
    method Crop(n: int, works: bool) returns (ok: bool)
      requires n < 0
      modifies this
      ensures ok <==> works && -n <= |old(tokens)|
      ensures ok ==> tokens == old(tokens)[..|old(tokens)| + n]
    {
      ok := works && -n <= |tokens|;
      if ok {
        tokens := tokens[..|tokens| + n];
      }
    }
  }

  class CausalTurnGenerator {
    var cache: DynamicCache?
    var cachedIds: seq<int>

    function Current(): State
      reads this, cache
    {
      State(if cache == null then None else Some(cache.tokens), cachedIds)
    }

    constructor ()
      ensures Current() == EMPTY && cache == null
    {
      cache, cachedIds := null, [];
    }

    method ResetCache()
      modifies this
      ensures Current() == EMPTY && cache == null
    {
      cache, cachedIds := null, [];
    }

    method PrepareCache(ids: seq<int>, cropWorks: bool) returns (reused: nat)
      modifies this, cache
      ensures Current() == Prepare(old(Current()), ids, cropWorks)
      ensures cache != null && (cache == old(cache) || fresh(cache))
      ensures reused == |cachedIds|
    {
      var common := LongestCommonPrefixLen(cachedIds, ids);
      var keep := if common < |ids| - 1 then common else |ids| - 1;
      if cache == null || keep <= 0 {
        cache := new DynamicCache();
        cachedIds := [];
        return 0;
      }
      if keep < |cachedIds| {
        var ok := cache.Crop(keep - |cachedIds|, cropWorks);
        if ok {
          cachedIds := cachedIds[..keep];
        } else {
          cache := new DynamicCache();
          cachedIds := [];
          return 0;
        }
      }
      return |cachedIds|;
    }

    /** One turn. The environment's part is given as `turn`; `call` is what `generate` is
        called with, if it is. An escaping interrupt leaves the state as it is. */
    method GenerateTurn(turn: Turn) returns (call: Option<GenerateCall>, escaped: bool)
      requires Extends(turn)
      modifies this, cache
      ensures cache == null || cache == old(cache) || fresh(cache)
      ensures call == CallOf(old(Current()), turn)
      ensures escaped == turn.outcome.Escaped?
      ensures !escaped ==> Current() == After(old(Current()), turn)
    {
      call, escaped := None, false;
      if turn.outcome.RenderFailed? {
        return;
      }
      var reused := PrepareCache(turn.ids, turn.cropWorks);
      if turn.outcome.NotStarted? {
        return;
      }
      call := Some(GenerateCall(turn.ids, reused, cache.tokens));
      match turn.outcome {
        case GenerateFailed(left) =>
          cache.tokens := left;
          ResetCache();
        case Escaped(left) =>
          cache.tokens := left;
          escaped := true;
        case DisplayRaised(left) =>
          cache.tokens := left;
        case Completed(reply, cached) =>
          var sequence := turn.ids + reply;
          cache.tokens := sequence[..cached];
          cachedIds := sequence[..|cache.tokens|];
      }
    }

    /** The chat loop around a turn: an escaped interrupt resets the cache. */
    method ChatTurn(turn: Turn) returns (call: Option<GenerateCall>)
      requires Extends(turn)
      modifies this, cache
      ensures cache == null || cache == old(cache) || fresh(cache)
      ensures call == CallOf(old(Current()), turn)
      ensures Current() == After(old(Current()), turn)
    {
      var escaped;
      call, escaped := GenerateTurn(turn);
      if escaped {
        ResetCache();
      }
    }
  }

  // ----- every run -----

  /** A call of `generate`: the prompt, how many of its tokens are reused, and the tokens
      the cache holds. */
  datatype GenerateCall = GenerateCall(ids: seq<int>, reused: nat, held: seq<int>)

  function CallWith(s: State, ids: seq<int>, cropWorks: bool): GenerateCall {
    var p := Prepare(s, ids, cropWorks);
    GenerateCall(ids, |p.cachedIds|, if p.cache.None? then [] else p.cache.value)
  }

  function CallOf(s: State, t: Turn): Option<GenerateCall> {
    if t.outcome.RenderFailed? || t.outcome.NotStarted? then None
    else Some(CallWith(s, t.ids, t.cropWorks))
  }

  /** The state after a run, and the calls made in it. */
  function Run(turns: seq<Turn>): (State, seq<GenerateCall>)
    requires forall t | t in turns :: Extends(t)
  {
    if turns == [] then (EMPTY, [])
    else
      var (s, calls) := Run(turns[..|turns| - 1]);
      var t := turns[|turns| - 1];
      (After(s, t), match CallOf(s, t) case None => calls case Some(c) => calls + [c])
  }

  /** The cache agrees with the prompt: it holds the reused prefix, and `generate` is left
      at least one token to process. */
  predicate CallAgrees(c: GenerateCall) {
    && c.reused <= |c.ids| && c.held == c.ids[..c.reused]
    && (c.ids != [] ==> c.reused < |c.ids|)
  }

  lemma PrepareAgrees(s: State, ids: seq<int>, cropWorks: bool)
    requires Agrees(s)
    ensures Prepare(s, ids, cropWorks).cache == Some(Prepare(s, ids, cropWorks).cachedIds)
    ensures CallAgrees(CallWith(s, ids, cropWorks))
  {
  }

  /** A prompt that extends a record the cache does not hold gets the wrong cache. */
  lemma WrongCacheIsUsed(s: State, next: int, cropWorks: bool)
    requires s.cache.Some? && !Agrees(s)
    ensures !CallAgrees(CallWith(s, s.cachedIds + [next], cropWorks))
  {
    var rec := s.cachedIds;
    assert (rec + [next])[..|rec|] == rec;
    CommonPrefixIs(rec, rec + [next], |rec|);
    assert CallWith(s, rec + [next], cropWorks) == GenerateCall(rec + [next], |rec|, s.cache.value);
  }

  /** Whatever the next prompt is, its call agrees: exactly when the cache holds its record. */
  lemma NextCallAgreesIff(s: State)
    requires s.cache.Some?
    ensures Agrees(s) <==> forall ids, cropWorks :: CallAgrees(CallWith(s, ids, cropWorks))
  {
    if Agrees(s) {
      forall ids, cropWorks ensures CallAgrees(CallWith(s, ids, cropWorks)) {
        PrepareAgrees(s, ids, cropWorks);
      }
    } else {
      WrongCacheIsUsed(s, 0, true);
    }
  }

  /** The text callback does not raise, or it raises in a turn that reused nothing, or
      before the cache was written. */
  predicate DisplayIsHarmless(s: State, t: Turn) {
    t.outcome.DisplayRaised? ==>
      var rec := Prepare(s, t.ids, t.cropWorks).cachedIds;
      rec == [] || t.outcome.left == rec
  }

  /** After an ordinary exception from the text callback the cache is neither recorded nor
      reset: every next call agrees exactly when the turn reused nothing or left the cache
      as it was. */
  lemma DisplayErrorIff(s: State, t: Turn)
    requires t.outcome.DisplayRaised?
    ensures DisplayIsHarmless(s, t) <==>
            forall ids, cropWorks :: CallAgrees(CallWith(After(s, t), ids, cropWorks))
  {
    NextCallAgreesIff(After(s, t));
  }

  /** In every turn of the run the display was harmless. */
  ghost predicate Harmless(turns: seq<Turn>)
    requires forall t | t in turns :: Extends(t)
  {
    forall i | 0 <= i < |turns| :: HarmlessAt(turns, i)
  }

  ghost predicate HarmlessAt(turns: seq<Turn>, i: nat)
    requires i < |turns| && forall t | t in turns :: Extends(t)
  {
    DisplayIsHarmless(Run(turns[..i]).0, turns[i])
  }

  lemma HarmlessPrefix(turns: seq<Turn>, i: nat)
    requires i <= |turns| && (forall t | t in turns :: Extends(t)) && Harmless(turns)
    ensures Harmless(turns[..i])
  {
    forall k | 0 <= k < i ensures HarmlessAt(turns[..i], k) {
      assert HarmlessAt(turns, k);
      assert turns[..i][..k] == turns[..k];
    }
  }

  lemma TurnAgrees(s: State, t: Turn)
    requires Agrees(s) && Extends(t) && DisplayIsHarmless(s, t)
    ensures Agrees(After(s, t))
    ensures CallOf(s, t).Some? ==> CallAgrees(CallOf(s, t).value)
  {
    PrepareAgrees(s, t.ids, t.cropWorks);
  }

  /** In every run of turns, whatever each prompt is and however each turn ends, the cache
      agrees with the prompt at every call of `generate`, as long as the display is harmless. */
  lemma {:induction false} EveryCallAgrees(turns: seq<Turn>)
    requires forall t | t in turns :: Extends(t)
    requires Harmless(turns)
    ensures Agrees(Run(turns).0) && forall c | c in Run(turns).1 :: CallAgrees(c)
  {
    if turns == [] {
    } else {
      var before, t := turns[..|turns| - 1], turns[|turns| - 1];
      HarmlessPrefix(turns, |turns| - 1);
      assert HarmlessAt(turns, |turns| - 1);
      EveryCallAgrees(before);
      TurnAgrees(Run(before).0, t);
    }
  }

  /** All calls of the run agree, however it is continued from any of its moments. */
  ghost predicate AlwaysAgrees(turns: seq<Turn>)
    requires forall t | t in turns :: Extends(t)
  {
    forall i, next: Turn | 0 <= i <= |turns| && Extends(next) :: AgreesThrough(turns[..i] + [next])
  }

  ghost predicate AgreesThrough(turns: seq<Turn>)
    requires forall t | t in turns :: Extends(t)
  {
    forall c | c in Run(turns).1 :: CallAgrees(c)
  }

  lemma RunStep(before: seq<Turn>, t: Turn)
    requires (forall u | u in before :: Extends(u)) && Extends(t)
    ensures forall u | u in before + [t] :: Extends(u)
    ensures Run(before + [t]).0 == After(Run(before).0, t)
    ensures CallOf(Run(before).0, t).Some? ==> Run(before + [t]).1 == Run(before).1 + [CallOf(Run(before).0, t).value]
  {
  }

  lemma HarmlessContinues(turns: seq<Turn>, next: Turn)
    requires (forall t | t in turns :: Extends(t)) && Extends(next) && Harmless(turns)
    ensures AgreesThrough(turns + [next])
  {
    EveryCallAgrees(turns);
    RunStep(turns, next);
    PrepareAgrees(Run(turns).0, next.ids, next.cropWorks);
  }

  /** The next prompt that shows the harm: what is recorded, and one token more. */
  lemma HarmfulTurn(turns: seq<Turn>) returns (next: Turn)
    requires turns != [] && (forall t | t in turns :: Extends(t)) && !HarmlessAt(turns, |turns| - 1)
    ensures Extends(next) && !AgreesThrough(turns + [next])
  {
    var s := Run(turns).0;
    next := Turn(s.cachedIds + [0], true, GenerateFailed([]));
    RunStep(turns, next);
    WrongCacheIsUsed(s, 0, true);
    var calls := Run(turns).1 + [CallWith(s, next.ids, true)];
    assert calls[|calls| - 1] in Run(turns + [next]).1;
  }

  lemma HarmlessIsEnough(turns: seq<Turn>, i: nat, next: Turn)
    requires (forall t | t in turns :: Extends(t)) && Extends(next) && i <= |turns| && Harmless(turns)
    ensures AgreesThrough(turns[..i] + [next])
  {
    HarmlessPrefix(turns, i);
    HarmlessContinues(turns[..i], next);
  }

  lemma HarmIsSeen(turns: seq<Turn>, i: nat)
    requires i < |turns| && (forall t | t in turns :: Extends(t)) && !HarmlessAt(turns, i)
    ensures !AlwaysAgrees(turns)
  {
    assert turns[..i + 1][..i] == turns[..i];
    var next := HarmfulTurn(turns[..i + 1]);
    assert !AgreesThrough(turns[..i + 1] + [next]);
  }

  /** That is so if and only if the display was harmless in every turn: any other turn has a
      next prompt whose call is handed tokens the prompt does not have. */
  lemma AlwaysAgreesIff(turns: seq<Turn>)
    requires forall t | t in turns :: Extends(t)
    ensures AlwaysAgrees(turns) <==> Harmless(turns)
  {
    if Harmless(turns) {
      forall i, next: Turn | 0 <= i <= |turns| && Extends(next) ensures AgreesThrough(turns[..i] + [next]) {
        HarmlessIsEnough(turns, i, next);
      }
    } else {
      var i :| 0 <= i < |turns| && !HarmlessAt(turns, i);
      HarmIsSeen(turns, i);
    }
  }

  /** Such a turn exists: the cache was extended by two tokens before the callback raised. */
  lemma DisplayErrorBreaksAgreement() returns (turns: seq<Turn>)
    ensures (forall t | t in turns :: Extends(t)) && !AlwaysAgrees(turns)
  {
    var first := Turn([1, 2], true, Completed([3], 3));
    var second := Turn([1, 2, 3, 4], true, DisplayRaised([1, 2, 3, 4, 5]));
    turns := [] + [first] + [second];
    RunStep([], first);
    assert ([1, 2] + [3])[..3] == [1, 2, 3];
    CommonPrefixIs([1, 2, 3], [1, 2, 3, 4], 3);
    assert !HarmlessAt(turns, 1) by {
      assert turns[..1] == [] + [first];
    }
    AlwaysAgreesIff(turns);
  }

  /** Reuse is as long as possible: when something can be kept and cropping works, all of
      the common prefix is reused, but for the one token `generate` needs. */
  lemma ReuseIsMaximal(s: State, ids: seq<int>, n: nat)
    requires Agrees(s) && IsCommonPrefix(s.cachedIds, ids, n) && n < |ids|
    ensures n <= |Prepare(s, ids, true).cachedIds|
  {
  }

  /** A turn that appends to the conversation reuses everything that was cached, whether
      or not the cache can be cropped. */
  lemma AppendedTurnReusesAll(s: State, ids: seq<int>, cropWorks: bool)
    requires Agrees(s) && s.cachedIds <= ids && |s.cachedIds| < |ids|
    ensures Prepare(s, ids, cropWorks).cachedIds == s.cachedIds
  {
  }

  // ----- which calls are made, and what they find -----

  lemma RunExtends(turns: seq<Turn>, t: Turn)
    requires (forall u | u in turns :: Extends(u)) && Extends(t)
    ensures forall u | u in turns + [t] :: Extends(u)
    ensures var made := t.outcome.RenderFailed? || t.outcome.NotStarted?;
            Run(turns + [t]).1 == Run(turns).1 + if made then [] else [CallWith(Run(turns).0, t.ids, t.cropWorks)]
    ensures Run(turns + [t]).0 == After(Run(turns).0, t)
  {
  }

  /** Every turn that gets as far as `generate` calls it once, with its own prompt. */
  lemma EveryTurnCallsOnce(turns: seq<Turn>, t: Turn)
    requires (forall u | u in turns :: Extends(u)) && Extends(t)
    ensures forall u | u in turns + [t] :: Extends(u)
    ensures var before, after := Run(turns).1, Run(turns + [t]).1;
            && before <= after
            && if t.outcome.RenderFailed? || t.outcome.NotStarted? then after == before
               else |after| == |before| + 1 && after[|before|].ids == t.ids
  {
    RunExtends(turns, t);
  }

  lemma ReusesAtLeast(s: State, ids: seq<int>, cropWorks: bool, n: nat)
    requires s.cache == Some(s.cachedIds) && IsCommonPrefix(s.cachedIds, ids, n) && n < |ids|
    requires cropWorks || n == |s.cachedIds|
    ensures var c := CallWith(s, ids, cropWorks); n <= c.reused <= |ids| && c.held == ids[..c.reused]
  {
    PrepareAgrees(s, ids, cropWorks);
    CommonPrefixIsLongest(s.cachedIds, ids, n);
  }

  /** What a completed turn left in the cache is found by the next: as much of it as the new
      prompt begins with, if it can be cropped or need not be. */
  lemma CompletedTurnIsReused(turns: seq<Turn>, t: Turn, next: Turn, n: nat) returns (c: GenerateCall)
    requires (forall u | u in turns :: Extends(u)) && Extends(t) && Extends(next)
    requires t.outcome.Completed? && !next.outcome.RenderFailed? && !next.outcome.NotStarted?
    requires n <= t.outcome.cached && n < |next.ids| && (t.ids + t.outcome.reply)[..n] == next.ids[..n]
    requires next.cropWorks || n == t.outcome.cached
    ensures forall u | u in turns + [t] + [next] :: Extends(u)
    ensures Run(turns + [t] + [next]).1 == Run(turns + [t]).1 + [c]
    ensures c.ids == next.ids && n <= c.reused <= |next.ids| && c.held == next.ids[..c.reused]
  {
    RunExtends(turns, t);
    RunExtends(turns + [t], next);
    var s := Run(turns + [t]).0;
    c := CallWith(s, next.ids, next.cropWorks);
    TakeOfTake(t.ids + t.outcome.reply, t.outcome.cached, n);
    ReusesAtLeast(s, next.ids, next.cropWorks, n);
  }

  lemma TakeOfTake(xs: seq<int>, m: nat, n: nat)
    requires n <= m <= |xs|
    ensures xs[..m][..n] == xs[..n]
  {
  }

  /** After a turn that failed in `generate`, or was left by an interrupt, nothing is reused. */
  lemma FailedTurnLeavesNothing(turns: seq<Turn>, t: Turn, next: Turn)
    requires (forall u | u in turns :: Extends(u)) && Extends(next)
    requires (t.outcome.GenerateFailed? || t.outcome.Escaped?) && !next.outcome.RenderFailed? && !next.outcome.NotStarted?
    ensures forall u | u in turns + [t] + [next] :: Extends(u)
    ensures Run(turns + [t] + [next]).1 == Run(turns + [t]).1 + [GenerateCall(next.ids, 0, [])]
  {
    RunExtends(turns, t);
    RunExtends(turns + [t], next);
  }

  /** A turn whose prompt cannot be rendered leaves everything as it was. */
  lemma UnrenderedTurnChangesNothing(turns: seq<Turn>, t: Turn)
    requires (forall u | u in turns :: Extends(u)) && t.outcome.RenderFailed?
    ensures forall u | u in turns + [t] :: Extends(u)
    ensures Run(turns + [t]) == Run(turns)
  {
    RunExtends(turns, t);
  }

  /** When the prompt departs from what is cached and cropping fails, nothing is reused. */
  lemma CropFailureReusesNothing(s: State, ids: seq<int>)
    requires !(s.cachedIds <= ids && |s.cachedIds| < |ids|)
    ensures CallWith(s, ids, false) == GenerateCall(ids, 0, [])
  {
  }

  /** A session of turns through the class makes the calls of `Run`. */
  method Session(turns: seq<Turn>) returns (calls: seq<GenerateCall>)
    requires forall t | t in turns :: Extends(t)
    ensures calls == Run(turns).1
    ensures Harmless(turns) ==> forall c | c in calls :: CallAgrees(c)
  {
    var generator := new CausalTurnGenerator();
    calls := [];
    for i := 0 to |turns|
      invariant fresh(generator) && (generator.cache != null ==> fresh(generator.cache))
      invariant (generator.Current(), calls) == Run(turns[..i])
    {
      assert turns[..i + 1][..i] == turns[..i];
      var call := generator.ChatTurn(turns[i]);
      if call.Some? {
        calls := calls + [call.value];
      }
    }
    assert turns[..|turns|] == turns;
    if Harmless(turns) {
      EveryCallAgrees(turns);
    }
  }
}
