/** Which ranks upload, and with which node index: one rank for each node-local share. */
module MirrorLayout {
  import opened Sequences

  datatype Layout = Layout(uploader: bool, nodeIndex: nat, numNodes: nat)

  /** The hostnames without repetition, in order of first appearance. */
  function Nodes(hostnames: seq<string>): (nodes: seq<string>)
    ensures Distinct(nodes) && forall h :: h in nodes <==> h in hostnames
  {
    if hostnames == [] then []
    else
      var n := |hostnames| - 1;
      assert hostnames == hostnames[..n] + [hostnames[n]];
      var nodes := Nodes(hostnames[..n]);
      if hostnames[n] in nodes then nodes else nodes + [hostnames[n]]
  }

  /** Python's `list.index`. */
  function IndexOf(xs: seq<string>, x: string): (i: nat)
    requires x in xs
    ensures i < |xs| && xs[i] == x && forall k | 0 <= k < i :: xs[k] != x
  {
    if xs[0] == x then 0 else
      assert x in xs[1..];
      1 + IndexOf(xs[1..], x)
  }

  function LayoutFrom(hostnames: seq<string>, rank: nat, sharedOutputDir: bool): Layout
    requires rank < |hostnames|
  {
    var nodes := Nodes(hostnames);
    if |nodes| == 1 || sharedOutputDir then Layout(rank == 0, 0, 1)
    else
      var host := hostnames[rank];
      Layout(rank == IndexOf(hostnames, host), IndexOf(nodes, host), |nodes|)
  }

  /** The number of shares that make one checkpoint. */
  function NumNodes(hostnames: seq<string>, sharedOutputDir: bool): nat {
    if |Nodes(hostnames)| == 1 || sharedOutputDir then 1 else |Nodes(hostnames)|
  }

  /** The rank that uploads share `k`. */
  function UploaderOf(hostnames: seq<string>, sharedOutputDir: bool, k: nat): (rank: nat)
    requires hostnames != [] && k < NumNodes(hostnames, sharedOutputDir)
    ensures rank < |hostnames|
    ensures LayoutFrom(hostnames, rank, sharedOutputDir).uploader
    ensures LayoutFrom(hostnames, rank, sharedOutputDir).nodeIndex == k
  {
    var nodes := Nodes(hostnames);
    if |nodes| == 1 || sharedOutputDir then 0
    else
      assert nodes[k] in hostnames;
      IndexOf(hostnames, nodes[k])
  }

  /** `rank` is an uploader and its share is number `k`. */
  predicate Uploads(hostnames: seq<string>, sharedOutputDir: bool, rank: nat, k: nat) {
    && rank < |hostnames|
    && LayoutFrom(hostnames, rank, sharedOutputDir).uploader
    && LayoutFrom(hostnames, rank, sharedOutputDir).nodeIndex == k
  }

  function Uploaders(hostnames: seq<string>, sharedOutputDir: bool): set<nat> {
    set rank | 0 <= rank < |hostnames| && LayoutFrom(hostnames, rank, sharedOutputDir).uploader
  }

  /** Every rank agrees on the number of nodes, and an uploader's index is below it. */
  lemma RanksAgreeOnNodes(hostnames: seq<string>, rank: nat, sharedOutputDir: bool)
    requires rank < |hostnames|
    ensures var layout := LayoutFrom(hostnames, rank, sharedOutputDir);
            layout.numNodes == NumNodes(hostnames, sharedOutputDir) && layout.nodeIndex < layout.numNodes
    ensures NumNodes(hostnames, sharedOutputDir) >= 1
  {
  }

  /** Two uploaders never share an index. */
  lemma IndicesAreDistinct(hostnames: seq<string>, sharedOutputDir: bool, a: nat, b: nat, k: nat)
    requires Uploads(hostnames, sharedOutputDir, a, k) && Uploads(hostnames, sharedOutputDir, b, k)
    ensures a == b
  {
  }

  ghost predicate HasUploader(hostnames: seq<string>, sharedOutputDir: bool, k: nat) {
    exists rank :: Uploads(hostnames, sharedOutputDir, rank, k)
  }

  predicate UploadsBelow(hostnames: seq<string>, sharedOutputDir: bool, rank: nat, n: nat) {
    && rank < |hostnames|
    && LayoutFrom(hostnames, rank, sharedOutputDir).uploader
    && LayoutFrom(hostnames, rank, sharedOutputDir).nodeIndex < n
  }

  /** The uploaders of the first `n` shares. */
  lemma {:induction false} FirstUploaders(hostnames: seq<string>, sharedOutputDir: bool, n: nat) returns (ranks: set<nat>)
    requires hostnames != [] && n <= NumNodes(hostnames, sharedOutputDir)
    ensures |ranks| == n
    ensures forall r :: r in ranks <==> UploadsBelow(hostnames, sharedOutputDir, r, n)
  {
    if n == 0 {
      ranks := {};
    } else {
      var before := FirstUploaders(hostnames, sharedOutputDir, n - 1);
      var u := UploaderOf(hostnames, sharedOutputDir, n - 1);
      ranks := before + {u};
      assert u !in before;
      forall r | UploadsBelow(hostnames, sharedOutputDir, r, n) ensures r in ranks {
        if !UploadsBelow(hostnames, sharedOutputDir, r, n - 1) {
          IndicesAreDistinct(hostnames, sharedOutputDir, r, u, n - 1);
        }
      }
    }
  }

  /** For every list of hostnames there are exactly as many uploaders as nodes, and their
      indices are exactly 0 .. nodes - 1, each taken once. */
  lemma OneUploaderPerNode(hostnames: seq<string>, sharedOutputDir: bool)
    requires hostnames != []
    ensures |Uploaders(hostnames, sharedOutputDir)| == NumNodes(hostnames, sharedOutputDir)
    ensures forall k: nat :: k < NumNodes(hostnames, sharedOutputDir) <==> HasUploader(hostnames, sharedOutputDir, k)
  {
    var n := NumNodes(hostnames, sharedOutputDir);
    var first := FirstUploaders(hostnames, sharedOutputDir, n);
    forall rank | rank in Uploaders(hostnames, sharedOutputDir) ensures rank in first {
      RanksAgreeOnNodes(hostnames, rank, sharedOutputDir);
      assert UploadsBelow(hostnames, sharedOutputDir, rank, n);
    }
    assert Uploaders(hostnames, sharedOutputDir) == first;
    forall k: nat ensures k < n <==> HasUploader(hostnames, sharedOutputDir, k) {
      if k < n {
        assert Uploads(hostnames, sharedOutputDir, UploaderOf(hostnames, sharedOutputDir, k), k);
      } else if rank :| Uploads(hostnames, sharedOutputDir, rank, k) {
        RanksAgreeOnNodes(hostnames, rank, sharedOutputDir);
      }
    }
  }

  // ----- who uploads, and what an index means -----

  ghost predicate SeveralHosts(hostnames: seq<string>) {
    exists a, b :: 0 <= a < |hostnames| && 0 <= b < |hostnames| && hostnames[a] != hostnames[b]
  }

  lemma NodesOfSeveral(hostnames: seq<string>)
    requires hostnames != []
    ensures |Nodes(hostnames)| == 1 <==> !SeveralHosts(hostnames)
  {
    var nodes := Nodes(hostnames);
    assert hostnames[0] in hostnames;
    if |nodes| == 1 {
      forall a | 0 <= a < |hostnames| ensures hostnames[a] == nodes[0] {
        assert hostnames[a] in nodes;
      }
    } else {
      assert hostnames[0] in nodes && nodes[0] in hostnames && nodes[1] in hostnames;
      var a :| 0 <= a < |hostnames| && hostnames[a] == nodes[0];
      var b :| 0 <= b < |hostnames| && hostnames[b] == nodes[1];
    }
  }

  /** Without several hosts, or with a shared directory, rank 0 alone uploads, the one share. */
  lemma RankZeroUploads(hostnames: seq<string>, sharedOutputDir: bool, rank: nat)
    requires rank < |hostnames| && (sharedOutputDir || !SeveralHosts(hostnames))
    ensures LayoutFrom(hostnames, rank, sharedOutputDir) == Layout(rank == 0, 0, 1)
  {
    NodesOfSeveral(hostnames);
  }

  /** Otherwise the first rank of each host uploads for it. */
  lemma FirstRankOfHostUploads(hostnames: seq<string>, rank: nat)
    requires rank < |hostnames| && SeveralHosts(hostnames)
    ensures LayoutFrom(hostnames, rank, false).uploader <==> forall r | 0 <= r < rank :: hostnames[r] != hostnames[rank]
  {
    NodesOfSeveral(hostnames);
  }

  /** So every host has exactly one uploader, one of its own ranks. */
  lemma EveryHostUploadsOnce(hostnames: seq<string>, host: string) returns (rank: nat)
    requires host in hostnames && SeveralHosts(hostnames)
    ensures rank < |hostnames| && hostnames[rank] == host && LayoutFrom(hostnames, rank, false).uploader
    ensures forall r | 0 <= r < |hostnames| && hostnames[r] == host && LayoutFrom(hostnames, r, false).uploader :: r == rank
  {
    rank := IndexOf(hostnames, host);
    FirstRankOfHostUploads(hostnames, rank);
    forall r | 0 <= r < |hostnames| && hostnames[r] == host && LayoutFrom(hostnames, r, false).uploader ensures r == rank {
      FirstRankOfHostUploads(hostnames, r);
    }
  }

  /** An index stands for a host: two ranks have the same one if and only if they share it. */
  lemma SameIndexIffSameHost(hostnames: seq<string>, a: nat, b: nat)
    requires a < |hostnames| && b < |hostnames| && SeveralHosts(hostnames)
    ensures LayoutFrom(hostnames, a, false).nodeIndex == LayoutFrom(hostnames, b, false).nodeIndex <==> hostnames[a] == hostnames[b]
  {
    NodesOfSeveral(hostnames);
    assert hostnames[a] in Nodes(hostnames) && hostnames[b] in Nodes(hostnames);
  }

  /** There are as many nodes as there are different hosts. */
  lemma NodesAreHosts(hostnames: seq<string>, rank: nat)
    requires rank < |hostnames| && SeveralHosts(hostnames)
    ensures LayoutFrom(hostnames, rank, false).numNodes == |set h | h in hostnames|
  {
    NodesOfSeveral(hostnames);
    var nodes := Nodes(hostnames);
    DistinctSize(nodes);
    assert (set h | h in hostnames) == set h | h in nodes;
  }

  lemma {:induction false} DistinctSize(xs: seq<string>)
    requires Distinct(xs)
    ensures |set x | x in xs| == |xs|
  {
    if xs == [] {
    } else {
      var n := |xs| - 1;
      DistinctSize(xs[..n]);
      assert xs[n] !in xs[..n];
      assert (set x | x in xs) == (set x | x in xs[..n]) + {xs[n]};
    }
  }

  /** Hosts are numbered in the order of their first ranks. */
  lemma IndicesFollowRanks(hostnames: seq<string>, a: nat, b: nat)
    requires a < b < |hostnames| && SeveralHosts(hostnames)
    requires LayoutFrom(hostnames, a, false).uploader && LayoutFrom(hostnames, b, false).uploader
    ensures LayoutFrom(hostnames, a, false).nodeIndex < LayoutFrom(hostnames, b, false).nodeIndex
  {
    NodesOfSeveral(hostnames);
    FirstRankOfHostUploads(hostnames, b);
    NodesExtend(hostnames, b);
    var nodes, before := Nodes(hostnames), Nodes(hostnames[..b]);
    assert hostnames[a] in hostnames[..b];
    assert hostnames[a] in before && hostnames[b] !in before;
    var i := IndexOf(before, hostnames[a]);
    assert nodes[i] == hostnames[a];
  }

  /** The hosts of the first ranks come first. */
  lemma {:induction false} NodesExtend(hostnames: seq<string>, n: nat)
    requires n <= |hostnames|
    ensures Nodes(hostnames[..n]) <= Nodes(hostnames)
  {
    if n == |hostnames| {
      assert hostnames[..n] == hostnames;
    } else {
      var shorter := hostnames[..|hostnames| - 1];
      NodesExtend(shorter, n);
      assert shorter[..n] == hostnames[..n];
    }
  }

  /** The test before publishing compares a count of markers with the number of nodes:
      the count is reached only when every node has left its marker. */
  lemma {:induction false} FullCountMeansEveryNode(markers: set<nat>, nodes: nat)
    requires forall m | m in markers :: m < nodes
    ensures |markers| >= nodes <==> forall n | 0 <= n < nodes :: n in markers
  {
    if nodes == 0 {
    } else {
      var rest := markers - {nodes - 1};
      FullCountMeansEveryNode(rest, nodes - 1);
      if nodes - 1 in markers {
        assert |markers| == |rest| + 1;
      } else {
        assert rest == markers;
        BoundedSize(markers, nodes - 1);
      }
    }
  }

  lemma {:induction false} BoundedSize(s: set<nat>, n: nat)
    requires forall x | x in s :: x < n
    ensures |s| <= n
  {
    if n == 0 {
      assert s == {};
    } else {
      BoundedSize(s - {n - 1}, n - 1);
      assert s <= (s - {n - 1}) + {n - 1};
    }
  }
}
