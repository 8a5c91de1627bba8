/** Retention of checkpoints: which steps a rotation removes from a listing. */
module MirrorTrim {
  import opened Sequences

  ghost predicate Increasing(xs: seq<nat>) {
    forall i, j | 0 <= i < j < |xs| :: xs[i] < xs[j]
  }

  function SetOf(xs: seq<nat>): set<nat> {
    set x | x in xs
  }

  lemma {:induction false} LargestExists(s: set<nat>)
    requires s != {}
    ensures exists m :: m in s && forall x | x in s :: x <= m
  {
    var a :| a in s;
    if s != {a} {
      var rest := s - {a};
      assert s == rest + {a};
      LargestExists(rest);
      var m :| m in rest && forall x | x in rest :: x <= m;
      var top := if m < a then a else m;
      assert top in s && forall x | x in s :: x <= top;
    } else {
      assert a in s && forall x | x in s :: x <= a;
    }
  }

  function Largest(s: set<nat>): (m: nat)
    requires s != {}
    ensures m in s && forall x | x in s :: x <= m
  {
    LargestExists(s);
    var m :| m in s && forall x | x in s :: x <= m;
    m
  }

  function Sorted(s: set<nat>): (xs: seq<nat>)
    ensures Increasing(xs) && SetOf(xs) == s && |xs| == |s|
    ensures s != {} ==> xs != [] && xs[|xs| - 1] == Largest(s)
  {
    if s == {} then []
    else
      var m := Largest(s);
      var below := Sorted(s - {m});
      AppendedLargest(below, s, m);
      below + [m]
  }

  lemma AppendedLargest(below: seq<nat>, s: set<nat>, m: nat)
    requires Increasing(below) && m in s && SetOf(below) == s - {m} && forall x | x in s :: x <= m
    ensures Increasing(below + [m]) && SetOf(below + [m]) == s
  {
    forall i | 0 <= i < |below| ensures below[i] < m {
      assert below[i] in SetOf(below);
    }
    assert SetOf(below + [m]) == SetOf(below) + {m};
  }

  function Without(xs: seq<nat>, drop: set<nat>): (ys: seq<nat>)
    ensures forall x :: x in ys <==> x in xs && x !in drop
  {
    if xs == [] then []
    else
      assert xs == [xs[0]] + xs[1..];
      (if xs[0] in drop then [] else [xs[0]]) + Without(xs[1..], drop)
  }

  function Protected(steps: set<nat>, best: int): set<nat> {
    (if steps == {} then {} else {Largest(steps)}) + (set x | x in steps && x == best)
  }

  function Max(a: int, b: int): int {
    if a > b then a else b
  }

  /** The steps a rotation removes, oldest first. */
  function Trim(steps: set<nat>, keep: int, best: int): seq<nat> {
    var ordered := Sorted(steps);
    var protectedSteps := if ordered == [] then {} else {ordered[|ordered| - 1]};
    var allProtected := protectedSteps + (set x | x in steps && x == best);
    var removable := Without(ordered, allProtected);
    var excess := |ordered| - Max(keep, |allProtected|);
    if excess <= 0 then [] else if excess <= |removable| then removable[..excess] else removable
  }

  // ----- proof -----

  lemma {:induction false} WithoutIncreasing(xs: seq<nat>, drop: set<nat>)
    requires Increasing(xs)
    ensures Increasing(Without(xs, drop))
  {
    if xs == [] {
    } else {
      WithoutIncreasing(xs[1..], drop);
      var rest := Without(xs[1..], drop);
      forall i | 0 <= i < |rest| ensures xs[0] < rest[i] {
        assert rest[i] in rest;
      }
    }
  }

  lemma {:induction false} IncreasingSize(xs: seq<nat>)
    requires Increasing(xs)
    ensures |SetOf(xs)| == |xs|
  {
    if xs == [] {
    } else {
      var n := |xs| - 1;
      IncreasingSize(xs[..n]);
      assert SetOf(xs) == SetOf(xs[..n]) + {xs[n]};
    }
  }

  /** The steps that are not protected, in order. */
  function Removable(steps: set<nat>, best: int): (xs: seq<nat>)
    ensures Increasing(xs) && forall x :: x in xs <==> x in steps && x !in Protected(steps, best)
    ensures |xs| == |steps| - |Protected(steps, best)|
  {
    var xs := Without(Sorted(steps), Protected(steps, best));
    WithoutIncreasing(Sorted(steps), Protected(steps, best));
    assert forall x :: x in Sorted(steps) <==> x in SetOf(Sorted(steps));
    assert SetOf(xs) == steps - Protected(steps, best);
    IncreasingSize(xs);
    assert Protected(steps, best) <= steps;
    xs
  }

  function Excess(steps: set<nat>, keep: int, best: int): (n: nat)
    ensures n <= |Removable(steps, best)|
    ensures n == Max(0, |steps| - Max(keep, |Protected(steps, best)|))
  {
    Max(0, |steps| - Max(keep, |Protected(steps, best)|))
  }

  /** A rotation removes the oldest `Excess` steps of those not protected. */
  lemma TrimIs(steps: set<nat>, keep: int, best: int)
    ensures Trim(steps, keep, best) == Removable(steps, best)[..Excess(steps, keep, best)]
  {
    var ordered := Sorted(steps);
    assert ordered == [] <==> steps == {};
    assert Removable(steps, best) == Without(ordered, Protected(steps, best));
  }

  /** Neither the newest nor the best checkpoint is ever removed, and only listed ones are. */
  lemma TrimSparesNewestAndBest(steps: set<nat>, keep: int, best: int, x: nat)
    ensures x in Trim(steps, keep, best) ==> x in steps && x != best && x < Largest(steps)
  {
    TrimIs(steps, keep, best);
    assert x in Trim(steps, keep, best) ==> x in Removable(steps, best);
  }

  /** It takes the oldest: what it leaves unprotected is newer than all it removes. */
  lemma TrimTakesOldest(steps: set<nat>, keep: int, best: int, x: nat, y: nat)
    requires x in Trim(steps, keep, best)
    requires y in steps && y !in Trim(steps, keep, best) && y !in Protected(steps, best)
    ensures x < y
  {
    TrimIs(steps, keep, best);
    var r, n := Removable(steps, best), Excess(steps, keep, best);
    assert y in r;
    var i :| 0 <= i < |r| && r[i] == y;
    if i < n {
      InPrefix(r, n, i);
    }
  }

  lemma InPrefix(xs: seq<nat>, n: nat, i: nat)
    requires i < n <= |xs|
    ensures xs[i] in xs[..n]
  {
  }

  /** It leaves `keep` checkpoints, or the protected ones if those are more, or all if
      there are fewer. */
  lemma TrimLeaves(steps: set<nat>, keep: int, best: int)
    ensures var (count, floor) := (|steps|, Max(keep, |Protected(steps, best)|));
            |steps - SetOf(Trim(steps, keep, best))| == if count < floor then count else floor
  {
    TrimIs(steps, keep, best);
    var r, n := Removable(steps, best), Excess(steps, keep, best);
    IncreasingSize(r[..n]);
    assert SetOf(r[..n]) <= steps by {
      assert forall x | x in r[..n] :: x in r;
    }
    assert |Protected(steps, best)| <= |steps|;
  }

  /** Rotating again removes nothing. */
  lemma TrimIdempotent(steps: set<nat>, keep: int, best: int)
    ensures Trim(steps - SetOf(Trim(steps, keep, best)), keep, best) == []
  {
    var left := steps - SetOf(Trim(steps, keep, best));
    TrimLeaves(steps, keep, best);
    TrimSpares(steps, keep, best);
    ProtectedStays(steps, left, best);
    TrimIs(left, keep, best);
  }

  lemma ProtectedStays(steps: set<nat>, left: set<nat>, best: int)
    requires Protected(steps, best) <= left <= steps
    ensures Protected(left, best) == Protected(steps, best)
  {
  }

  lemma TrimSpares(steps: set<nat>, keep: int, best: int)
    ensures SetOf(Trim(steps, keep, best)) <= steps
    ensures SetOf(Trim(steps, keep, best)) !! Protected(steps, best)
  {
    forall x | x in Trim(steps, keep, best) ensures x in steps && x !in Protected(steps, best) {
      TrimSparesNewestAndBest(steps, keep, best, x);
    }
  }

  /** A listing that misses only newer checkpoints: what it removes is the start of what
      the full listing removes, so rotations from both agree. */
  lemma StaleTrimIsPrefix(stale: set<nat>, full: set<nat>, keep: int, best: int)
    requires MissesOnlyNewer(stale, full)
    ensures Trim(stale, keep, best) <= Trim(full, keep, best)
  {
    TrimIs(stale, keep, best);
    TrimIs(full, keep, best);
    if stale != {} && stale != full {
      var a, b := Removable(stale, best), Removable(full, best);
      RemovableGrows(stale, full, best);
      ExcessGrows(stale, full, keep, best);
      PrefixOfPrefix(a, b, Excess(stale, keep, best), Excess(full, keep, best));
    }
  }

  ghost predicate MissesOnlyNewer(stale: set<nat>, full: set<nat>) {
    stale <= full && forall x, y | x in stale && y in full - stale :: x < y
  }

  lemma RemovableOfStale(stale: set<nat>, full: set<nat>, best: int, x: nat)
    requires stale != {} && stale != full && MissesOnlyNewer(stale, full)
    ensures x in stale && x !in Protected(stale, best) <==> x in full && x !in Protected(full, best) && x < Largest(stale)
  {
    assert full == stale + (full - stale);
    var z :| z in full - stale;
    assert Largest(stale) < z <= Largest(full);
    if x in full && x !in stale {
      assert x in full - stale;
    }
  }

  lemma RemovableBelow(stale: set<nat>, full: set<nat>, best: int, x: nat)
    requires stale != {} && stale != full && MissesOnlyNewer(stale, full)
    ensures x in Removable(stale, best) <==> x in Removable(full, best) && x < Largest(stale)
  {
    RemovableOfStale(stale, full, best, x);
  }

  /** `a` has exactly the members of `b` below the bound. */
  ghost predicate IsLower(a: seq<nat>, b: seq<nat>, bound: nat) {
    forall x: nat :: x in a <==> x in b && x < bound
  }

  lemma RemovableIsLower(stale: set<nat>, full: set<nat>, best: int)
    requires stale != {} && stale != full && MissesOnlyNewer(stale, full)
    ensures IsLower(Removable(stale, best), Removable(full, best), Largest(stale))
  {
    forall x: nat ensures x in Removable(stale, best) <==> x in Removable(full, best) && x < Largest(stale) {
      RemovableBelow(stale, full, best, x);
    }
  }

  lemma RemovableGrows(stale: set<nat>, full: set<nat>, best: int)
    requires stale != {} && stale != full && MissesOnlyNewer(stale, full)
    ensures Removable(stale, best) <= Removable(full, best)
  {
    RemovableIsLower(stale, full, best);
    LowerPart(Removable(stale, best), Removable(full, best), Largest(stale));
  }

  lemma InTail(xs: seq<nat>, x: nat)
    requires Increasing(xs) && xs != []
    ensures x in xs[1..] <==> x in xs && x != xs[0]
  {
  }

  lemma PrefixOfPrefix(a: seq<nat>, b: seq<nat>, n: nat, m: nat)
    requires a <= b && n <= |a| && n <= m <= |b|
    ensures a[..n] <= b[..m]
  {
  }

  lemma {:induction false} LowerPart(a: seq<nat>, b: seq<nat>, bound: nat)
    requires Increasing(a) && Increasing(b) && IsLower(a, b, bound)
    ensures a <= b
  {
    if a == [] {
    } else {
      assert a[0] in a && b[0] in b;
      assert b[0] in a;
      var j :| 0 <= j < |a| && a[j] == b[0];
      assert a[0] in b;
      var i :| 0 <= i < |b| && b[i] == a[0];
      assert a[0] == b[0];
      assert a == [a[0]] + a[1..] && b == [b[0]] + b[1..];
      forall x: nat ensures x in a[1..] <==> x in b[1..] && x < bound {
        InTail(a, x);
        InTail(b, x);
      }
      LowerPart(a[1..], b[1..], bound);
    }
  }

  lemma ProtectedSize(steps: set<nat>, best: int)
    requires steps != {}
    ensures 1 <= |Protected(steps, best)| <= 2
  {
    var newest, b: nat := Largest(steps), if best >= 0 then best else 0;
    SubsetSize(Protected(steps, best), {newest, b});
    SubsetSize({newest}, Protected(steps, best));
  }

  lemma ExcessGrows(stale: set<nat>, full: set<nat>, keep: int, best: int)
    requires stale != {} && stale != full && stale <= full
    ensures Excess(stale, keep, best) <= Excess(full, keep, best)
  {
    ProtectedSize(stale, best);
    ProtectedSize(full, best);
    SubsetSize(stale, full);
  }

  /** Steps newer than `x`. */
  function Newer(steps: set<nat>, x: nat): set<nat> {
    set y | y in steps && y > x
  }

  /** A removed checkpoint has at least one newer one, and at least `keep - 1`. */
  lemma TrimmedIsOld(steps: set<nat>, keep: int, best: int, x: nat)
    ensures x in Trim(steps, keep, best) ==> |Newer(steps, x)| >= Max(1, keep - 1)
  {
    if x in Trim(steps, keep, best) {
      TrimSparesNewestAndBest(steps, keep, best, x);
      SubsetSize({Largest(steps)}, Newer(steps, x));
      var left := LeftBy(steps, keep, best, x);
      NewerCount(steps, left, best, x);
    }
  }

  lemma LeftBy(steps: set<nat>, keep: int, best: int, x: nat) returns (left: set<nat>)
    ensures x in Trim(steps, keep, best) ==> left <= steps && |left| >= keep && forall y | y in left && y != best :: x < y
  {
    TrimIs(steps, keep, best);
    TrimLeaves(steps, keep, best);
    left := steps - SetOf(Trim(steps, keep, best));
    if x in Trim(steps, keep, best) {
      forall y | y in left && y != best ensures x < y {
        LeftIsNewer(steps, keep, best, x, y);
      }
    }
  }

  lemma LeftIsNewer(steps: set<nat>, keep: int, best: int, x: nat, y: nat)
    requires x in Trim(steps, keep, best) && y in steps && y !in Trim(steps, keep, best) && y != best
    ensures x < y
  {
    if y in Protected(steps, best) {
      TrimSparesNewestAndBest(steps, keep, best, x);
    } else {
      TrimTakesOldest(steps, keep, best, x, y);
    }
  }

  lemma NewerCount(steps: set<nat>, left: set<nat>, best: int, x: nat)
    requires left <= steps && forall y | y in left && y != best :: x < y
    ensures |Newer(steps, x)| >= |left| - 1
  {
    var b: nat := if best >= 0 then best else 0;
    SubsetSize(left - {b}, Newer(steps, x));
    assert b !in left ==> left - {b} == left;
  }
}
