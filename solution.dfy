/**
 * Depth-first traversal over a graph of degree 4 (src/solution.rs).
 *
 * A `GraphDeg4` maps each key to a row of four optional neighbours. `dfs`
 * hands every key reachable from the root to a visitor exactly once, in
 * pre-order, neighbours in slot order, and stops at the first error.
 *
 * The visitor of the source is a closure with state of its own; its answer
 * can only depend on the keys it was handed before, so it is modelled as a
 * function of that history and the key, and the history (the trace of keys
 * handed to it) is returned alongside the result.
 */
module Solution {
  import opened Wrappers

  /** A row of four optional neighbours. */
  type Row4<K> = r: seq<Option<K>> | |r| == 4 witness [None, None, None, None]

  /** `GraphDeg4 { adj_list }`. */
  datatype GraphDeg4<K> = GraphDeg4(adjList: map<K, Row4<K>>)

  datatype DfsError<K, E> =
    | VisitError(err: E)   // the visitor refused a key
    | MissingKey(key: K)   // `get_neighbors` of a key without a row

  /** The visitor: given the keys handed to it so far and the next key, None
      for `Ok(())` or Some error. */
  type Visitor<!K, E> = (seq<K>, K) -> Option<E>

  // ---------------------------------------------------------------------------
  // GraphDeg4::from and get_neighbors
  // ---------------------------------------------------------------------------

  /** `GraphDeg4::from` a list of (key, row) pairs, as the `Into<HashMap>`
      conversion builds it: pairs are inserted in order, a later pair for the
      same key replacing the earlier one. */
  function FromPairs<K(!new)>(pairs: seq<(K, Row4<K>)>): GraphDeg4<K>
  {
    if pairs == [] then GraphDeg4(map[])
    else
      var last := pairs[|pairs| - 1];
      GraphDeg4(FromPairs(pairs[..|pairs| - 1]).adjList[last.0 := last.1])
  }

  /** The keys of the graph are those of the pairs, and each key is bound to
      the row of its last pair. */
  lemma {:induction false} FromPairsLookup<K(!new)>(pairs: seq<(K, Row4<K>)>)
    ensures var g := FromPairs(pairs);
      && (forall k :: k in g.adjList <==> exists i :: 0 <= i < |pairs| && pairs[i].0 == k)
      && (forall i :: 0 <= i < |pairs| && (forall j :: i < j < |pairs| ==> pairs[j].0 != pairs[i].0) ==>
            g.adjList[pairs[i].0] == pairs[i].1)
  {
    if pairs != [] {
      var init := pairs[..|pairs| - 1];
      FromPairsLookup(init);
      assert forall i :: 0 <= i < |pairs| - 1 ==> init[i] == pairs[i];
    }
  }

  /** The `Some` entries of a row, in slot order (`filter_map`). */
  function Somes<K(!new)>(s: seq<Option<K>>): (ns: seq<K>)
    ensures |ns| <= |s|
    ensures forall n :: n in ns <==> Some(n) in s
  {
    if s == [] then []
    else (if s[0].Some? then [s[0].value] else []) + Somes(s[1..])
  }

  /** The filter keeps the order: it distributes over concatenation. */
  lemma {:induction false} SomesAppend<K(!new)>(a: seq<Option<K>>, b: seq<Option<K>>)
    ensures Somes(a + b) == Somes(a) + Somes(b)
  {
    if a == [] {
      assert a + b == b;
    } else {
      assert (a + b)[1..] == a[1..] + b;
      SomesAppend(a[1..], b);
    }
  }

  /** `get_neighbors`: the neighbours of `key` in slot order, or an error if
      the key has no row. */
  function GetNeighbors<K(!new), E>(g: GraphDeg4<K>, key: K): (r: Result<seq<K>, DfsError<K, E>>)
    ensures r.Err? <==> key !in g.adjList
    ensures r.Err? ==> r.error == MissingKey(key)
    ensures r.Ok? ==> forall n :: n in r.value <==> Some(n) in g.adjList[key]
  {
    if key !in g.adjList then Err(MissingKey(key)) else Ok(Somes(g.adjList[key]))
  }

  // ---------------------------------------------------------------------------
  // The traversal
  // ---------------------------------------------------------------------------

  /** What `dfs_helper` on `key` does: the result, the keys handed to the
      visitor (after those in `trace`), and the visited set. */
  function DfsFrom<K(!new), E>(g: GraphDeg4<K>, visit: Visitor<K, E>, key: K, trace: seq<K>, visited: set<K>)
    : (res: (Result<(), DfsError<K, E>>, seq<K>, set<K>))
    requires key !in visited
    ensures visited <= res.2
    decreases g.adjList.Keys - visited, 1, 0
  {
    var trace' := trace + [key];
    match visit(trace, key)
    case Some(err) => (Err(VisitError(err)), trace', visited)
    case None =>
      var visited' := visited + {key};
      match GetNeighbors(g, key)
      case Err(e) => (Err(e), trace', visited')
      case Ok(ns) => DfsList(g, visit, ns, trace', visited')
  }

  /** The `for neighbor in neighbors` loop of `dfs_helper`: recurse into every
      neighbour not yet visited, stop at the first error. */
  function DfsList<K(!new), E>(g: GraphDeg4<K>, visit: Visitor<K, E>, ns: seq<K>, trace: seq<K>, visited: set<K>)
    : (res: (Result<(), DfsError<K, E>>, seq<K>, set<K>))
    ensures visited <= res.2
    decreases g.adjList.Keys - visited, 2, |ns|
  {
    if ns == [] then (Ok(()), trace, visited)
    else if ns[0] in visited then DfsList(g, visit, ns[1..], trace, visited)
    else
      var res := DfsFrom(g, visit, ns[0], trace, visited);
      if res.0.Err? then res else DfsList(g, visit, ns[1..], res.1, res.2)
  }

  /** `dfs_helper`: visit `key`, mark it, and recurse into its unvisited
      neighbours in slot order. */
  method DfsHelper<K(!new), E>(g: GraphDeg4<K>, visit: Visitor<K, E>, key: K, trace: seq<K>, visited: set<K>)
    returns (r: Result<(), DfsError<K, E>>, trace': seq<K>, visited': set<K>)
    requires key !in visited
    ensures (r, trace', visited') == DfsFrom(g, visit, key, trace, visited)
    decreases g.adjList.Keys - visited, 1
  {
    trace' := trace + [key];
    var visitResult := visit(trace, key);
    if visitResult.Some? {
      return Err(VisitError(visitResult.value)), trace', visited;
    }
    visited' := visited + {key};
    var neighbors := GetNeighbors(g, key);
    if neighbors.Err? {
      return Err(neighbors.error), trace', visited';
    }
    var ns := neighbors.value;
    for i := 0 to |ns|
      invariant DfsList(g, visit, ns[i..], trace', visited') == DfsFrom(g, visit, key, trace, visited)
      invariant visited + {key} <= visited'
    {
      assert ns[i..][1..] == ns[i + 1..];
      if ns[i] !in visited' {
        var res;
        res, trace', visited' := DfsHelper(g, visit, ns[i], trace', visited');
        if res.Err? {
          return res, trace', visited';
        }
      }
    }
    r := Ok(());
  }

  /** `dfs`: the traversal from `root` with nothing visited yet. */
  method Dfs<K(!new), E>(g: GraphDeg4<K>, visit: Visitor<K, E>, root: K)
    returns (r: Result<(), DfsError<K, E>>, trace: seq<K>)
    ensures (r, trace) == (DfsFrom(g, visit, root, [], {}).0, DfsFrom(g, visit, root, [], {}).1)
    ensures trace != [] && trace[0] == root
    ensures NoDuplicates(trace)
  {
    var visited := {};
    r, trace, visited := DfsHelper(g, visit, root, [], visited);
    DfsFacts(g, visit, root, [], {});
  }

  // ---------------------------------------------------------------------------
  // What the traversal guarantees
  // ---------------------------------------------------------------------------

  ghost predicate NoDuplicates<K>(s: seq<K>)
  {
    forall i, j :: 0 <= i < j < |s| ==> s[i] != s[j]
  }

  /** Every key handed to the visitor so far is marked visited. */
  ghost predicate Recorded<K>(trace: seq<K>, visited: set<K>)
  {
    forall i :: 0 <= i < |trace| ==> trace[i] in visited
  }

  lemma NoDuplicatesSnoc<K>(s: seq<K>, x: K)
    requires NoDuplicates(s) && x !in s
    ensures NoDuplicates(s + [x])
  {
  }

  /** A run of `dfs_helper` only appends to the trace, hands out only keys not
      visited before, never the same key twice, and, when it succeeds, has
      marked every key it handed out. */
  lemma {:induction false} DfsFacts<K(!new), E>(g: GraphDeg4<K>, visit: Visitor<K, E>, key: K, trace: seq<K>, visited: set<K>)
    requires key !in visited
    requires NoDuplicates(trace) && Recorded(trace, visited)
    ensures var res := DfsFrom(g, visit, key, trace, visited);
      && |trace| < |res.1| && res.1[..|trace|] == trace && res.1[|trace|] == key
      && (forall i :: |trace| <= i < |res.1| ==> res.1[i] !in visited)
      && NoDuplicates(res.1)
      && (res.0.Ok? ==> Recorded(res.1, res.2))
    decreases g.adjList.Keys - visited, 1, 0
  {
    var trace' := trace + [key];
    assert key !in trace;
    NoDuplicatesSnoc(trace, key);
    if visit(trace, key).None? && key in g.adjList {
      var visited' := visited + {key};
      var ns := GetNeighbors<K, E>(g, key).value;
      DfsListFacts(g, visit, ns, trace', visited');
      var res := DfsList(g, visit, ns, trace', visited');
      assert res.1[..|trace|] == res.1[..|trace'|][..|trace|];
      forall i | |trace| <= i < |res.1| ensures res.1[i] !in visited {
        if i == |trace| {
          assert res.1[i] == res.1[..|trace'|][i];
        }
      }
    }
  }

  lemma {:induction false} DfsListFacts<K(!new), E>(g: GraphDeg4<K>, visit: Visitor<K, E>, ns: seq<K>, trace: seq<K>, visited: set<K>)
    requires NoDuplicates(trace) && Recorded(trace, visited)
    ensures var res := DfsList(g, visit, ns, trace, visited);
      && |trace| <= |res.1| && res.1[..|trace|] == trace
      && (forall i :: |trace| <= i < |res.1| ==> res.1[i] !in visited)
      && NoDuplicates(res.1)
      && (res.0.Ok? ==> Recorded(res.1, res.2))
    decreases g.adjList.Keys - visited, 2, |ns|
  {
    if ns != [] {
      if ns[0] in visited {
        DfsListFacts(g, visit, ns[1..], trace, visited);
      } else {
        DfsFacts(g, visit, ns[0], trace, visited);
        var mid := DfsFrom(g, visit, ns[0], trace, visited);
        if mid.0.Ok? {
          DfsListFacts(g, visit, ns[1..], mid.1, mid.2);
          var res := DfsList(g, visit, ns[1..], mid.1, mid.2);
          assert res.1[..|trace|] == res.1[..|mid.1|][..|trace|];
          forall i | |trace| <= i < |res.1| ensures res.1[i] !in visited {
            if i < |mid.1| {
              assert res.1[i] == res.1[..|mid.1|][i];
            }
          }
        }
      }
    }
  }

  /** The visitor accepted the calls at positions `from` up to `to` of the trace. */
  ghost predicate Accepted<K(!new), E>(visit: Visitor<K, E>, t: seq<K>, from: nat, to: nat)
    requires from <= to <= |t|
  {
    forall i :: from <= i < to ==> visit(t[..i], t[i]).None?
  }

  /** The error explains the last entry of the trace: the visitor refused it,
      or it had no row. */
  ghost predicate FailedLast<K(!new), E>(g: GraphDeg4<K>, visit: Visitor<K, E>, t: seq<K>, err: DfsError<K, E>)
  {
    && t != []
    && match err
       case VisitError(e) => visit(t[..|t| - 1], t[|t| - 1]) == Some(e)
       case MissingKey(k) => t[|t| - 1] == k && k !in g.adjList && visit(t[..|t| - 1], t[|t| - 1]).None?
  }

  /** A traversal stops at the first error: on success the visitor accepted
      every key it was handed; on failure it accepted all but the last, and the
      error is the visitor's answer to the last key or that key's missing row. */
  lemma {:induction false} DfsAnswers<K(!new), E>(g: GraphDeg4<K>, visit: Visitor<K, E>, key: K, trace: seq<K>, visited: set<K>)
    requires key !in visited
    requires NoDuplicates(trace) && Recorded(trace, visited)
    ensures var res := DfsFrom(g, visit, key, trace, visited);
      && |trace| < |res.1|
      && (res.0.Ok? ==> Accepted(visit, res.1, |trace|, |res.1|))
      && (res.0.Err? ==> Accepted(visit, res.1, |trace|, |res.1| - 1) && FailedLast(g, visit, res.1, res.0.error))
    decreases g.adjList.Keys - visited, 1, 0
  {
    DfsFacts(g, visit, key, trace, visited);
    var trace' := trace + [key];
    NoDuplicatesSnoc(trace, key);
    if visit(trace, key).None? && key in g.adjList {
      var visited' := visited + {key};
      var ns := GetNeighbors<K, E>(g, key).value;
      DfsListAnswers(g, visit, ns, trace', visited');
      var res := DfsList(g, visit, ns, trace', visited');
      assert res.1[..|trace|] == trace;
    } else {
      assert trace'[..|trace|] == trace;
    }
  }

  lemma {:induction false} DfsListAnswers<K(!new), E>(g: GraphDeg4<K>, visit: Visitor<K, E>, ns: seq<K>, trace: seq<K>, visited: set<K>)
    requires NoDuplicates(trace) && Recorded(trace, visited)
    ensures var res := DfsList(g, visit, ns, trace, visited);
      && |trace| <= |res.1|
      && (res.0.Ok? ==> Accepted(visit, res.1, |trace|, |res.1|))
      && (res.0.Err? ==> |trace| < |res.1| && Accepted(visit, res.1, |trace|, |res.1| - 1)
                         && FailedLast(g, visit, res.1, res.0.error))
    decreases g.adjList.Keys - visited, 2, |ns|
  {
    DfsListFacts(g, visit, ns, trace, visited);
    if ns != [] {
      if ns[0] in visited {
        DfsListAnswers(g, visit, ns[1..], trace, visited);
      } else {
        DfsAnswers(g, visit, ns[0], trace, visited);
        DfsFacts(g, visit, ns[0], trace, visited);
        var mid := DfsFrom(g, visit, ns[0], trace, visited);
        if mid.0.Ok? {
          DfsListAnswers(g, visit, ns[1..], mid.1, mid.2);
          DfsListFacts(g, visit, ns[1..], mid.1, mid.2);
          var res := DfsList(g, visit, ns[1..], mid.1, mid.2);
          forall i | |trace| <= i < |mid.1| ensures res.1[..i] == mid.1[..i] && res.1[i] == mid.1[i] {
            assert res.1[..|mid.1|] == mid.1;
            assert res.1[..i] == res.1[..|mid.1|][..i];
          }
        }
      }
    }
  }

  // ---------------------------------------------------------------------------
  // The two graphs of the source's tests
  // ---------------------------------------------------------------------------

  /** A visitor that records every key and never refuses one. */
  function Record(handed: seq<nat>, key: nat): Option<()>
  {
    None
  }

  /** 0 - 3, 3 - 2, 2 - 1: a chain. */
  const ChainPairs: seq<(nat, Row4<nat>)> := [
    (0, [None, Some(3), None, None]),
    (1, [None, None, None, Some(2)]),
    (2, [Some(3), Some(1), None, None]),
    (3, [None, None, Some(2), Some(0)])]
  const ChainGraph: GraphDeg4<nat> := FromPairs(ChainPairs)

  /** The chain with an extra cell 4 joined to 0 and 2: a cycle. */
  const CyclePairs: seq<(nat, Row4<nat>)> := [
    (0, [None, Some(3), None, Some(4)]),
    (1, [None, None, None, Some(2)]),
    (2, [Some(3), Some(1), None, Some(4)]),
    (3, [None, None, Some(2), Some(0)]),
    (4, [Some(0), Some(2), None, None])]
  const CycleGraph: GraphDeg4<nat> := FromPairs(CyclePairs)

  function Slot<K>(o: Option<K>): seq<K>
  {
    if o.Some? then [o.value] else []
  }

  /** The filter on a row of four, slot by slot. */
  lemma SomesOfRow<K(!new)>(r: Row4<K>)
    ensures Somes(r) == Slot(r[0]) + (Slot(r[1]) + (Slot(r[2]) + Slot(r[3])))
  {
    var r1, r2, r3 := r[1..], r[2..], r[3..];
    assert r1[1..] == r2 && r2[1..] == r3 && r3[1..] == [];
    assert r1[0] == r[1] && r2[0] == r[2] && r3[0] == r[3];
    SomesCons(r3);
    assert Somes(r3) == Slot(r[3]);
    SomesCons(r2);
    SomesCons(r1);
    SomesCons(r);
  }

  lemma SomesCons<K(!new)>(s: seq<Option<K>>)
    requires s != []
    ensures Somes(s) == Slot(s[0]) + Somes(s[1..])
  {
  }

  /** One pair more: its key is bound to its row, over what came before. */
  lemma FromPairsStep<K(!new)>(ps: seq<(K, Row4<K>)>, n: nat)
    requires n < |ps|
    ensures FromPairs(ps[..n + 1]).adjList == FromPairs(ps[..n]).adjList[ps[n].0 := ps[n].1]
  {
    assert ps[..n + 1][..n] == ps[..n];
  }

  /** The graph the chain's pairs build. */
  lemma ChainMap()
    ensures ChainShape(ChainGraph)
  {
    var ps: seq<(nat, Row4<nat>)> := ChainPairs;
    assert ps[..0] == [] && ps[..4] == ps;
    FromPairsStep(ps, 0);
    FromPairsStep(ps, 1);
    FromPairsStep(ps, 2);
    FromPairsStep(ps, 3);
  }

  /** The neighbours of a key with a row of four, slot by slot. */
  lemma NeighborsOf<K(!new), E>(g: GraphDeg4<K>, key: K, a: Option<K>, b: Option<K>, c: Option<K>, d: Option<K>, ns: seq<K>)
    requires key in g.adjList && g.adjList[key] == [a, b, c, d]
    requires ns == Slot(a) + (Slot(b) + (Slot(c) + Slot(d)))
    ensures GetNeighbors<K, E>(g, key) == Ok(ns)
  {
    SomesOfRow<K>([a, b, c, d]);
  }

  // One step of the traversal each, for unfolding it on a concrete graph.

  lemma EnterKey<K(!new), E>(g: GraphDeg4<K>, visit: Visitor<K, E>, key: K, trace: seq<K>, visited: set<K>,
                             ns: seq<K>, trace': seq<K>, visited': set<K>, res: (Result<(), DfsError<K, E>>, seq<K>, set<K>))
    requires key !in visited && visit(trace, key).None? && GetNeighbors<K, E>(g, key) == Ok(ns)
    requires trace' == trace + [key] && visited' == visited + {key}
    requires DfsList(g, visit, ns, trace', visited') == res
    ensures DfsFrom(g, visit, key, trace, visited) == res
  {
  }

  lemma SkipVisited<K(!new), E>(g: GraphDeg4<K>, visit: Visitor<K, E>, ns: seq<K>, trace: seq<K>, visited: set<K>,
                                res: (Result<(), DfsError<K, E>>, seq<K>, set<K>))
    requires ns != [] && ns[0] in visited && DfsList(g, visit, ns[1..], trace, visited) == res
    ensures DfsList(g, visit, ns, trace, visited) == res
  {
  }

  lemma Descend<K(!new), E>(g: GraphDeg4<K>, visit: Visitor<K, E>, ns: seq<K>, trace: seq<K>, visited: set<K>,
                            mid: (Result<(), DfsError<K, E>>, seq<K>, set<K>), res: (Result<(), DfsError<K, E>>, seq<K>, set<K>))
    requires ns != [] && ns[0] !in visited && DfsFrom(g, visit, ns[0], trace, visited) == mid && mid.0.Ok?
    requires DfsList(g, visit, ns[1..], mid.1, mid.2) == res
    ensures DfsList(g, visit, ns, trace, visited) == res
  {
  }

  /** The chain's rows. */
  predicate ChainShape(g: GraphDeg4<nat>)
  {
    && 0 in g.adjList && g.adjList[0] == [None, Some(3), None, None]
    && 1 in g.adjList && g.adjList[1] == [None, None, None, Some(2)]
    && 2 in g.adjList && g.adjList[2] == [Some(3), Some(1), None, None]
    && 3 in g.adjList && g.adjList[3] == [None, None, Some(2), Some(0)]
  }

  /** What `get_neighbors` lists for each key of the chain. */
  predicate ChainNeighbors(g: GraphDeg4<nat>)
  {
    && GetNeighbors<nat, ()>(g, 0) == Ok([3])
    && GetNeighbors<nat, ()>(g, 1) == Ok([2])
    && GetNeighbors<nat, ()>(g, 2) == Ok([3, 1])
    && GetNeighbors<nat, ()>(g, 3) == Ok([2, 0])
  }

  lemma ChainRows(g: GraphDeg4<nat>)
    requires ChainShape(g)
    ensures ChainNeighbors(g)
  {
    NeighborsOf<nat, ()>(g, 0, None, Some(3), None, None, [3]);
    NeighborsOf<nat, ()>(g, 1, None, None, None, Some(2), [2]);
    NeighborsOf<nat, ()>(g, 2, Some(3), Some(1), None, None, [3, 1]);
    NeighborsOf<nat, ()>(g, 3, None, None, Some(2), Some(0), [2, 0]);
  }

  const ChainDone: (Result<(), DfsError<nat, ()>>, seq<nat>, set<nat>) := (Ok(()), [0, 3, 2, 1], {0, 1, 2, 3})

  /** 1 is entered after 0, 3, 2; its only neighbour 2 is already visited. */
  lemma ChainFrom1(g: GraphDeg4<nat>)
    requires ChainNeighbors(g)
    ensures DfsFrom(g, Record, 1, [0, 3, 2], {0, 2, 3}) == ChainDone
  {
    SkipVisited(g, Record, [2], [0, 3, 2, 1], {0, 1, 2, 3}, ChainDone);
    EnterKey(g, Record, 1, [0, 3, 2], {0, 2, 3}, [2], [0, 3, 2, 1], {0, 1, 2, 3}, ChainDone);
  }

  /** 2 is entered after 0, 3: 3 is skipped, 1 descended into. */
  lemma ChainFrom2(g: GraphDeg4<nat>)
    requires ChainNeighbors(g)
    ensures DfsFrom(g, Record, 2, [0, 3], {0, 3}) == ChainDone
  {
    ChainFrom1(g);
    Descend(g, Record, [1], [0, 3, 2], {0, 2, 3}, ChainDone, ChainDone);
    SkipVisited(g, Record, [3, 1], [0, 3, 2], {0, 2, 3}, ChainDone);
    EnterKey(g, Record, 2, [0, 3], {0, 3}, [3, 1], [0, 3, 2], {0, 2, 3}, ChainDone);
  }

  /** 3 is entered after 0: 2 is descended into, 0 skipped. */
  lemma ChainFrom3(g: GraphDeg4<nat>)
    requires ChainNeighbors(g)
    ensures DfsFrom(g, Record, 3, [0], {0}) == ChainDone
  {
    ChainFrom2(g);
    SkipVisited(g, Record, [0], [0, 3, 2, 1], {0, 1, 2, 3}, ChainDone);
    assert [2, 0][1..] == [0];
    Descend(g, Record, [2, 0], [0, 3], {0, 3}, ChainDone, ChainDone);
    EnterKey(g, Record, 3, [0], {0}, [2, 0], [0, 3], {0, 3}, ChainDone);
  }

  /** Traversal of any graph with the chain's rows, from the root 0. */
  lemma ChainOrder(g: GraphDeg4<nat>)
    requires ChainNeighbors(g)
    ensures DfsFrom(g, Record, 0, [], {}) == ChainDone
  {
    var empty: seq<nat> := [];
    ChainFrom3(g);
    Descend(g, Record, [3], [0], {0}, ChainDone, ChainDone);
    EnterKey(g, Record, 0, empty, {}, [3], [0], {0}, ChainDone);
  }

  /** The chain is traversed as 0, 3, 2, 1. */
  lemma ChainGraphOrder()
    ensures DfsFrom(ChainGraph, Record, 0, [], {}) == (Ok(()), [0, 3, 2, 1], {0, 1, 2, 3})
  {
    ChainMap();
    ChainRows(ChainGraph);
    ChainOrder(ChainGraph);
  }

  /** The graph the cycle's pairs build. */
  lemma CycleMap()
    ensures CycleShape(CycleGraph)
  {
    var ps: seq<(nat, Row4<nat>)> := CyclePairs;
    assert ps[..0] == [] && ps[..5] == ps;
    FromPairsStep(ps, 0);
    FromPairsStep(ps, 1);
    FromPairsStep(ps, 2);
    FromPairsStep(ps, 3);
    FromPairsStep(ps, 4);
  }

  /** The cycle's rows. */
  predicate CycleShape(g: GraphDeg4<nat>)
  {
    && 0 in g.adjList && g.adjList[0] == [None, Some(3), None, Some(4)]
    && 1 in g.adjList && g.adjList[1] == [None, None, None, Some(2)]
    && 2 in g.adjList && g.adjList[2] == [Some(3), Some(1), None, Some(4)]
    && 3 in g.adjList && g.adjList[3] == [None, None, Some(2), Some(0)]
    && 4 in g.adjList && g.adjList[4] == [Some(0), Some(2), None, None]
  }

  /** What `get_neighbors` lists for each key of the cycle. */
  predicate CycleNeighbors(g: GraphDeg4<nat>)
  {
    && GetNeighbors<nat, ()>(g, 0) == Ok([3, 4])
    && GetNeighbors<nat, ()>(g, 1) == Ok([2])
    && GetNeighbors<nat, ()>(g, 2) == Ok([3, 1, 4])
    && GetNeighbors<nat, ()>(g, 3) == Ok([2, 0])
    && GetNeighbors<nat, ()>(g, 4) == Ok([0, 2])
  }

  lemma CycleRows(g: GraphDeg4<nat>)
    requires CycleShape(g)
    ensures CycleNeighbors(g)
  {
    CycleRowsOuter(g);
    NeighborsOf<nat, ()>(g, 2, Some(3), Some(1), None, Some(4), [3, 1, 4]);
  }

  lemma CycleRowsOuter(g: GraphDeg4<nat>)
    requires CycleShape(g)
    ensures GetNeighbors<nat, ()>(g, 0) == Ok([3, 4]) && GetNeighbors<nat, ()>(g, 1) == Ok([2])
    ensures GetNeighbors<nat, ()>(g, 3) == Ok([2, 0]) && GetNeighbors<nat, ()>(g, 4) == Ok([0, 2])
  {
    NeighborsOf<nat, ()>(g, 0, None, Some(3), None, Some(4), [3, 4]);
    NeighborsOf<nat, ()>(g, 1, None, None, None, Some(2), [2]);
    NeighborsOf<nat, ()>(g, 3, None, None, Some(2), Some(0), [2, 0]);
    NeighborsOf<nat, ()>(g, 4, Some(0), Some(2), None, None, [0, 2]);
  }

  const CycleDone: (Result<(), DfsError<nat, ()>>, seq<nat>, set<nat>) := (Ok(()), [0, 3, 2, 1, 4], {0, 1, 2, 3, 4})

  /** 1 is entered after 0, 3, 2 and returns at once: 2 is visited. */
  lemma CycleFrom1(g: GraphDeg4<nat>)
    requires CycleNeighbors(g)
    ensures DfsFrom(g, Record, 1, [0, 3, 2], {0, 2, 3}) == ChainDone
  {
    SkipVisited(g, Record, [2], [0, 3, 2, 1], {0, 1, 2, 3}, ChainDone);
    EnterKey(g, Record, 1, [0, 3, 2], {0, 2, 3}, [2], [0, 3, 2, 1], {0, 1, 2, 3}, ChainDone);
  }

  /** 4 is entered last; both its neighbours 0 and 2 are visited. */
  lemma CycleFrom4(g: GraphDeg4<nat>)
    requires CycleNeighbors(g)
    ensures DfsFrom(g, Record, 4, [0, 3, 2, 1], {0, 1, 2, 3}) == CycleDone
  {
    var empty: seq<nat> := [];
    SkipVisited(g, Record, [2], [0, 3, 2, 1, 4], {0, 1, 2, 3, 4}, CycleDone);
    assert [0, 2][1..] == [2];
    SkipVisited(g, Record, [0, 2], [0, 3, 2, 1, 4], {0, 1, 2, 3, 4}, CycleDone);
    EnterKey(g, Record, 4, [0, 3, 2, 1], {0, 1, 2, 3}, [0, 2], [0, 3, 2, 1, 4], {0, 1, 2, 3, 4}, CycleDone);
  }

  /** The neighbours of 2, after 0, 3, 2: 3 is skipped, then 1 and 4 are descended into. */
  lemma CycleBelow2(g: GraphDeg4<nat>)
    requires CycleNeighbors(g)
    ensures DfsList(g, Record, [3, 1, 4], [0, 3, 2], {0, 2, 3}) == CycleDone
  {
    CycleFrom1(g);
    CycleFrom4(g);
    Descend(g, Record, [4], [0, 3, 2, 1], {0, 1, 2, 3}, CycleDone, CycleDone);
    assert [1, 4][1..] == [4];
    Descend(g, Record, [1, 4], [0, 3, 2], {0, 2, 3}, ChainDone, CycleDone);
    assert [3, 1, 4][1..] == [1, 4];
    SkipVisited(g, Record, [3, 1, 4], [0, 3, 2], {0, 2, 3}, CycleDone);
  }

  /** 2 is entered after 0, 3. */
  lemma CycleFrom2(g: GraphDeg4<nat>)
    requires CycleNeighbors(g)
    ensures DfsFrom(g, Record, 2, [0, 3], {0, 3}) == CycleDone
  {
    CycleBelow2(g);
    EnterKey(g, Record, 2, [0, 3], {0, 3}, [3, 1, 4], [0, 3, 2], {0, 2, 3}, CycleDone);
  }

  /** 3 is entered after 0: 2 is descended into, 0 skipped. */
  lemma CycleFrom3(g: GraphDeg4<nat>)
    requires CycleNeighbors(g)
    ensures DfsFrom(g, Record, 3, [0], {0}) == CycleDone
  {
    CycleFrom2(g);
    SkipVisited(g, Record, [0], [0, 3, 2, 1, 4], {0, 1, 2, 3, 4}, CycleDone);
    assert [2, 0][1..] == [0];
    Descend(g, Record, [2, 0], [0, 3], {0, 3}, CycleDone, CycleDone);
    EnterKey(g, Record, 3, [0], {0}, [2, 0], [0, 3], {0, 3}, CycleDone);
  }

  /** Traversal of any graph with the cycle's rows, from the root 0: 4 is
      reached through 2 and skipped when the root's own turn comes. */
  lemma CycleOrder(g: GraphDeg4<nat>)
    requires CycleNeighbors(g)
    ensures DfsFrom(g, Record, 0, [], {}) == CycleDone
  {
    var empty: seq<nat> := [];
    CycleFrom3(g);
    SkipVisited(g, Record, [4], [0, 3, 2, 1, 4], {0, 1, 2, 3, 4}, CycleDone);
    assert [3, 4][1..] == [4];
    Descend(g, Record, [3, 4], [0], {0}, CycleDone, CycleDone);
    EnterKey(g, Record, 0, empty, {}, [3, 4], [0], {0}, CycleDone);
  }

  /** The cycle is traversed as 0, 3, 2, 1, 4. */
  lemma CycleGraphOrder()
    ensures DfsFrom(CycleGraph, Record, 0, [], {}) == (Ok(()), [0, 3, 2, 1, 4], {0, 1, 2, 3, 4})
  {
    CycleMap();
    CycleRows(CycleGraph);
    CycleOrder(CycleGraph);
  }
}
