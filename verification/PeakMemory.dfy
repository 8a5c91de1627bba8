/** Peak memory reconstructed from a trace of allocations and frees. */
module PeakMemory {
  import opened Wrappers

  datatype Action = Alloc | FreeRequested | Other

  /** `category` is what the stack of the event is classified as. */
  datatype Event = Event(action: Action, addr: int, size: nat, category: string)

  datatype Block = Block(size: nat, category: string)

  datatype Usage = Usage(bytes: nat, count: nat)

  datatype Result = Result(peakBytes: int, peakEventIdx: nat, totalEvents: nat, endBytes: int, categories: map<string, Usage>)

  type Blocks = map<int, Block>

  // ----- sums over maps -----

  function SizeOf(block: Block): nat {
    block.size
  }

  function BytesOf(usage: Usage): nat {
    usage.bytes
  }

  ghost function Sum<K, V>(m: map<K, V>, f: V -> nat): nat {
    if m == map[] then 0
    else
      var k :| k in m;
      f(m[k]) + Sum(m - {k}, f)
  }

  /** The sum may be taken in any order. */
  lemma {:induction false} SumWithout<K, V>(m: map<K, V>, f: V -> nat, k: K)
    requires k in m
    ensures Sum(m, f) == f(m[k]) + Sum(m - {k}, f)
    decreases |m|
  {
    var j :| j in m && Sum(m, f) == f(m[j]) + Sum(m - {j}, f);
    if k == j {
    } else {
      SumWithout(m - {j}, f, k);
      SumWithout(m - {k}, f, j);
      assert m - {j} - {k} == m - {k} - {j};
    }
  }

  lemma SumPlus<K, V>(m: map<K, V>, f: V -> nat, k: K, v: V)
    ensures Sum(m[k := v], f) == f(v) + Sum(m - {k}, f)
    ensures k !in m ==> Sum(m[k := v], f) == f(v) + Sum(m, f)
  {
    SumWithout(m[k := v], f, k);
    assert m[k := v] - {k} == m - {k};
    if k !in m {
      assert m - {k} == m;
    }
  }

  // ----- what a trace means -----

  /** The blocks allocated and not freed since. */
  function Live(trace: seq<Event>): Blocks {
    if trace == [] then map[]
    else
      var e, before := trace[|trace| - 1], Live(trace[..|trace| - 1]);
      match e.action
      case Alloc => before[e.addr := Block(e.size, e.category)]
      case FreeRequested => before - {e.addr}
      case Other => before
  }

  /** The last event that allocates or frees at address `a` is the allocation `i`. */
  ghost predicate LastAllocated(trace: seq<Event>, a: int, i: nat) {
    && i < |trace| && trace[i].action.Alloc? && trace[i].addr == a
    && forall j | i < j < |trace| && trace[j].addr == a :: trace[j].action.Other?
  }

  /** A block is live exactly when it was allocated and nothing happened at its address since. */
  lemma {:induction false} LiveMeansAllocated(trace: seq<Event>, a: int)
    ensures a in Live(trace) <==> exists i: nat :: LastAllocated(trace, a, i)
    ensures forall i: nat | LastAllocated(trace, a, i) :: a in Live(trace) && Live(trace)[a] == Block(trace[i].size, trace[i].category)
    decreases |trace|
  {
    if trace == [] {
    } else {
      var n := |trace| - 1;
      LiveMeansAllocated(trace[..n], a);
      if trace[n].addr == a && !trace[n].action.Other? {
        assert trace[n].action.Alloc? ==> LastAllocated(trace, a, n);
      } else {
        forall i: nat ensures LastAllocated(trace, a, i) <==> LastAllocated(trace[..n], a, i) {
        }
      }
    }
  }

  ghost function LiveBytes(trace: seq<Event>): nat {
    Sum(Live(trace), SizeOf)
  }

  /** Bytes of blocks that were allocated over while still live: they are never freed. */
  function Overwritten(trace: seq<Event>): nat {
    if trace == [] then 0
    else
      var e, before := trace[|trace| - 1], trace[..|trace| - 1];
      Overwritten(before) + if e.action.Alloc? && e.addr in Live(before) then Live(before)[e.addr].size else 0
  }

  ghost function Bytes(trace: seq<Event>): nat {
    LiveBytes(trace) + Overwritten(trace)
  }

  function Change(live: Blocks, e: Event): int {
    if e.action.Alloc? then e.size as int
    else if e.action.FreeRequested? && e.addr in live then -(live[e.addr].size as int)
    else 0
  }

  /** One event: an allocation adds its size, freeing a live block takes it away. */
  lemma BytesStep(trace: seq<Event>, e: Event)
    ensures Live(trace + [e]) ==
            match e.action
            case Alloc => Live(trace)[e.addr := Block(e.size, e.category)]
            case FreeRequested => Live(trace) - {e.addr}
            case Other => Live(trace)
    ensures Bytes(trace + [e]) == Bytes(trace) + Change(Live(trace), e)
  {
    var live := Live(trace);
    assert (trace + [e])[..|trace|] == trace;
    if e.addr in live {
      SumWithout(live, SizeOf, e.addr);
    } else {
      assert live - {e.addr} == live;
    }
    SumPlus(live, SizeOf, e.addr, Block(e.size, e.category));
  }

  /** The number of events after which memory is highest: the first such moment. */
  ghost predicate IsPeak(trace: seq<Event>, at: nat) {
    && at <= |trace|
    && (forall i | 0 <= i <= |trace| :: Bytes(trace[..i]) <= Bytes(trace[..at]))
    && (forall i | 0 <= i < at :: Bytes(trace[..i]) < Bytes(trace[..at]))
  }

  lemma PeakStep(trace: seq<Event>, i: nat, at: nat)
    requires i < |trace| && IsPeak(trace[..i], at)
    ensures trace[..i][..at] == trace[..at]
    ensures Bytes(trace[..i]) <= Bytes(trace[..at])
    ensures IsPeak(trace[..i + 1], if Bytes(trace[..i + 1]) > Bytes(trace[..at]) then i + 1 else at)
  {
    var t := trace[..i + 1];
    forall k | 0 <= k <= i ensures trace[..i][..k] == trace[..k] == t[..k] {
    }
    assert t[..i + 1] == t;
    assert trace[..i][..i] == trace[..i];
  }

  // ----- categories -----

  ghost function InCategory(live: Blocks, category: string): Blocks {
    map a | a in live && live[a].category == category :: live[a]
  }

  /** What `peak_categories` says of one category. */
  ghost predicate Counts(mine: Blocks, categories: map<string, Usage>, c: string) {
    if mine == map[] then c !in categories
    else c in categories && categories[c] == Usage(Sum(mine, SizeOf), |mine|)
  }

  ghost predicate Describes(live: Blocks, categories: map<string, Usage>, c: string) {
    Counts(InCategory(live, c), categories, c)
  }

  ghost predicate IsBreakdown(live: Blocks, categories: map<string, Usage>) {
    && (forall c :: Describes(live, categories, c))
    && Sum(categories, BytesOf) == Sum(live, SizeOf)
  }

  function UsageOf(categories: map<string, Usage>, c: string): Usage {
    if c in categories then categories[c] else Usage(0, 0)
  }

  function Add(categories: map<string, Usage>, block: Block): map<string, Usage> {
    var usage := UsageOf(categories, block.category);
    categories[block.category := Usage(usage.bytes + block.size, usage.count + 1)]
  }

  lemma OneMore<K, V>(m: map<K, V>, k: K, v: V)
    requires k !in m
    ensures m[k := v] != map[] && |m[k := v]| == |m| + 1
  {
  }

  lemma CountOne(mine: Blocks, categories: map<string, Usage>, a: int, block: Block)
    requires Counts(mine, categories, block.category) && a !in mine
    ensures Counts(mine[a := block], Add(categories, block), block.category)
  {
    SumPlus(mine, SizeOf, a, block);
    OneMore(mine, a, block);
  }

  lemma AddSame(live: Blocks, categories: map<string, Usage>, a: int, block: Block)
    requires Describes(live, categories, block.category) && a !in live
    ensures Describes(live[a := block], Add(categories, block), block.category)
  {
    var mine := InCategory(live, block.category);
    CountOne(mine, categories, a, block);
    assert InCategory(live[a := block], block.category) == mine[a := block];
  }

  lemma AddOther(live: Blocks, categories: map<string, Usage>, a: int, block: Block, c: string)
    requires Describes(live, categories, c) && a !in live && c != block.category
    ensures Describes(live[a := block], Add(categories, block), c)
  {
    assert InCategory(live[a := block], c) == InCategory(live, c);
  }

  lemma AddTotal(categories: map<string, Usage>, block: Block)
    ensures Sum(Add(categories, block), BytesOf) == Sum(categories, BytesOf) + block.size
  {
    var c, usage := block.category, UsageOf(categories, block.category);
    SumPlus(categories, BytesOf, c, Usage(usage.bytes + block.size, usage.count + 1));
    if c in categories {
      SumWithout(categories, BytesOf, c);
    }
  }

  lemma AddOne(live: Blocks, categories: map<string, Usage>, a: int, block: Block)
    requires IsBreakdown(live, categories) && a !in live
    ensures IsBreakdown(live[a := block], Add(categories, block))
  {
    var more, updated := live[a := block], Add(categories, block);
    forall c ensures Describes(more, updated, c) {
      if c == block.category {
        AddSame(live, categories, a, block);
      } else {
        AddOther(live, categories, a, block, c);
      }
    }
    AddTotal(categories, block);
    SumPlus(live, SizeOf, a, block);
  }

  method AnyOf<K(==)>(s: set<K>) returns (k: K)
    requires s != {}
    ensures k in s
  {
    k :| k in s;
  }

  method Categorize(live: Blocks) returns (categories: map<string, Usage>)
    ensures IsBreakdown(live, categories)
  {
    categories := map[];
    var todo := live.Keys;
    ghost var done: Blocks := map[];
    while todo != {}
      invariant todo <= live.Keys
      invariant done == live - todo
      invariant IsBreakdown(done, categories)
      decreases |todo|
    {
      var a := AnyOf(todo);
      AddOne(done, categories, a, live[a]);
      categories := Add(categories, live[a]);
      done := done[a := live[a]];
      todo := todo - {a};
    }
    assert done == live;
  }

  // ----- the walk over the trace -----

  ghost predicate Matches(trace: seq<Event>, at: nat, r: Result) {
    && IsPeak(trace, at)
    && r.peakBytes == Bytes(trace[..at])
    && r.peakEventIdx == (if at == 0 then 0 else at - 1)
    && r.totalEvents == |trace|
    && r.endBytes == Bytes(trace)
    && IsBreakdown(Live(trace[..at]), r.categories)
  }

  datatype Scan = Scan(current: int, peak: int, peakIdx: nat, live: Blocks, peakLive: Blocks)

  /** The loop's variables after `i` events, the peak being after `at` of them. */
  ghost predicate Tracks(trace: seq<Event>, i: nat, at: nat, s: Scan) {
    && i <= |trace| && IsPeak(trace[..i], at)
    && s.live == Live(trace[..i]) && s.current == Bytes(trace[..i])
    && s.peakLive == Live(trace[..at]) && s.peak == Bytes(trace[..at])
    && s.peakIdx == if at == 0 then 0 else at - 1
  }

  lemma TracksNext(trace: seq<Event>, i: nat, at: nat, s: Scan, live: Blocks, current: int)
    requires i < |trace| && Tracks(trace, i, at, s)
    requires live == Live(trace[..i + 1]) && current == Bytes(trace[..i + 1])
    ensures current > s.peak ==> Tracks(trace, i + 1, i + 1, Scan(current, current, i, live, live))
    ensures current <= s.peak ==> Tracks(trace, i + 1, at, s.(current := current, live := live))
  {
    PeakStep(trace, i, at);
  }

  lemma EventStep(trace: seq<Event>, i: nat)
    requires i < |trace|
    ensures Bytes(trace[..i + 1]) == Bytes(trace[..i]) + Change(Live(trace[..i]), trace[i])
    ensures trace[i].action.Alloc? ==> Live(trace[..i + 1]) == Live(trace[..i])[trace[i].addr := Block(trace[i].size, trace[i].category)]
    ensures trace[i].action.FreeRequested? ==> Live(trace[..i + 1]) == Live(trace[..i]) - {trace[i].addr}
    ensures trace[i].action.Other? ==> Live(trace[..i + 1]) == Live(trace[..i])
  {
    assert trace[..i + 1] == trace[..i] + [trace[i]];
    BytesStep(trace[..i], trace[i]);
  }

  lemma PeakNeverDrops(trace: seq<Event>, i: nat, at: nat, s: Scan)
    requires Tracks(trace, i, at, s)
    ensures s.current <= s.peak
  {
    assert trace[..i][..i] == trace[..i];
    assert trace[..i][..at] == trace[..at];
  }

  lemma NothingToFree(live: Blocks, addr: int)
    requires addr !in live
    ensures live - {addr} == live
  {
  }

  /** One turn of the loop. */
  method ScanEvent(trace: seq<Event>, i: nat, s: Scan, ghost at: nat) returns (next: Scan, ghost nextAt: nat)
    requires i < |trace| && Tracks(trace, i, at, s)
    ensures Tracks(trace, i + 1, nextAt, next)
  {
    var e := trace[i];
    EventStep(trace, i);
    PeakNeverDrops(trace, i, at, s);
    next, nextAt := s, at;
    match e.action
    case Alloc =>
      var current, live := s.current + e.size, s.live[e.addr := Block(e.size, e.category)];
      TracksNext(trace, i, at, s, live, current);
      next := s.(current := current, live := live);
      if current > s.peak {
        next := Scan(current, current, i, live, live);
        nextAt := i + 1;
      }
    case FreeRequested =>
      TracksNext(trace, i, at, s, s.live - {e.addr}, s.current + Change(s.live, e));
      if e.addr in s.live {
        next := s.(current := s.current - s.live[e.addr].size, live := s.live - {e.addr});
      } else {
        NothingToFree(s.live, e.addr);
      }
    case Other =>
      TracksNext(trace, i, at, s, s.live, s.current);
  }

  method AnalyzePeakMemory(trace: seq<Event>) returns (result: Option<Result>)
    ensures result.None? <==> trace == []
    ensures result.Some? ==> exists at :: Matches(trace, at, result.value)
  {
    if trace == [] {
      return None;
    }
    var s := Scan(0, 0, 0, map[], map[]);
    ghost var at := 0;
    for i := 0 to |trace|
      invariant Tracks(trace, i, at, s)
    {
      s, at := ScanEvent(trace, i, s, at);
    }
    assert trace[..|trace|] == trace;
    var categories := Categorize(s.peakLive);
    result := Some(Result(s.peak, s.peakIdx, |trace|, s.current, categories));
    assert Matches(trace, at, result.value);
  }

  /** The report is determined by the trace. */
  lemma ReportIsUnique(trace: seq<Event>, a: nat, b: nat, r: Result, q: Result)
    requires Matches(trace, a, r) && Matches(trace, b, q)
    ensures r == q
  {
    assert a == b;
    forall c ensures c in r.categories <==> c in q.categories {
      assert Describes(Live(trace[..a]), r.categories, c) && Describes(Live(trace[..a]), q.categories, c);
    }
    forall c | c in r.categories ensures r.categories[c] == q.categories[c] {
      assert Describes(Live(trace[..a]), r.categories, c) && Describes(Live(trace[..a]), q.categories, c);
    }
    assert r.categories == q.categories;
  }

  // ----- when the reconstruction is exact -----

  /** No address is allocated while a block of positive size is live there. */
  ghost predicate NeverReallocates(trace: seq<Event>) {
    forall i | 0 <= i < |trace| && trace[i].action.Alloc? && trace[i].addr in Live(trace[..i]) :: Live(trace[..i])[trace[i].addr].size == 0
  }

  lemma {:induction false} OverwrittenGrows(trace: seq<Event>, n: nat)
    requires n <= |trace|
    ensures Overwritten(trace[..n]) <= Overwritten(trace)
    decreases |trace|
  {
    if n < |trace| {
      var shorter := trace[..|trace| - 1];
      OverwrittenGrows(shorter, n);
      assert shorter[..n] == trace[..n];
    } else {
      assert trace[..n] == trace;
    }
  }

  lemma {:induction false} NothingOverwritten(trace: seq<Event>)
    ensures Overwritten(trace) == 0 <==> NeverReallocates(trace)
    decreases |trace|
  {
    if trace == [] {
    } else {
      var n := |trace| - 1;
      var shorter := trace[..n];
      NothingOverwritten(shorter);
      forall i | 0 <= i < n ensures shorter[..i] == trace[..i] {
      }
    }
  }

  /** The reported end is the sum of the blocks still live, and the categories add up to the
      reported peak, exactly as long as no live block has been allocated over: anywhere for
      the end, before the peak for the categories. */
  lemma ReportIsExactIff(trace: seq<Event>, at: nat, r: Result)
    requires Matches(trace, at, r)
    ensures r.endBytes == LiveBytes(trace) <==> NeverReallocates(trace)
    ensures Sum(r.categories, BytesOf) == r.peakBytes <==> NeverReallocates(trace[..at])
  {
    NothingOverwritten(trace);
    NothingOverwritten(trace[..at]);
  }

  /** The largest sum of live blocks after any number of events. */
  ghost predicate IsLargestLiveSum(trace: seq<Event>, bytes: int) {
    && (forall i | 0 <= i <= |trace| :: LiveBytes(trace[..i]) <= bytes)
    && (exists i :: 0 <= i <= |trace| && LiveBytes(trace[..i]) == bytes)
  }

  lemma LiveBytesBelowPeak(trace: seq<Event>, at: nat, i: nat)
    requires IsPeak(trace, at) && i <= |trace|
    ensures LiveBytes(trace[..i]) <= Bytes(trace[..at])
    ensures i < at || Overwritten(trace[..at]) > 0 ==> LiveBytes(trace[..i]) < Bytes(trace[..at])
  {
    if at <= i {
      OverwrittenGrows(trace[..i], at);
      assert trace[..i][..at] == trace[..at];
    }
  }

  /** The reported peak is the largest live sum, and its event the first to reach it, exactly
      when no live block has been allocated over before it; otherwise it is more than was
      ever live. */
  lemma PeakIsLargestLiveSumIff(trace: seq<Event>, at: nat, r: Result)
    requires Matches(trace, at, r)
    ensures IsLargestLiveSum(trace, r.peakBytes) <==> NeverReallocates(trace[..at])
    ensures !NeverReallocates(trace[..at]) ==> forall i | 0 <= i <= |trace| :: LiveBytes(trace[..i]) < r.peakBytes
    ensures NeverReallocates(trace[..at]) ==> LiveBytes(trace[..at]) == r.peakBytes
    ensures r.peakBytes > 0 ==> at == r.peakEventIdx + 1
    ensures forall i | 0 <= i < at :: LiveBytes(trace[..i]) < r.peakBytes
  {
    NothingOverwritten(trace[..at]);
    forall i | 0 <= i <= |trace|
      ensures LiveBytes(trace[..i]) <= r.peakBytes
      ensures i < at || !NeverReallocates(trace[..at]) ==> LiveBytes(trace[..i]) < r.peakBytes
    {
      LiveBytesBelowPeak(trace, at, i);
    }
  }
}
