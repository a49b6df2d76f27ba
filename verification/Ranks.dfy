/** `rankTypes`: numbers for record types, greater than those of all they depend on. */
module Ranks {
  import opened Basics

  /** What each registered type depends on. */
  type Graph = map<int, seq<int>>

  /** Each type stands after every type it depends on, all of them registered. */
  ghost predicate Ranked(graph: Graph, ranks: map<int, nat>) {
    && ranks.Keys == graph.Keys
    && (forall t, d :: t in graph && d in graph[t] ==> d in ranks && ranks[d] < ranks[t])
  }

  ghost predicate Rankable(graph: Graph) {
    exists ranks :: Ranked(graph, ranks)
  }

  /** A chain of types, each depending on the next. */
  ghost predicate DependsDown(graph: Graph, path: seq<int>) {
    && (forall i :: 0 <= i < |path| ==> path[i] in graph)
    && (forall i :: 0 <= i < |path| - 1 ==> path[i + 1] in graph[path[i]])
  }

  lemma {:induction false} RanksFall(graph: Graph, ranks: map<int, nat>, path: seq<int>, i: nat, j: nat)
    requires Ranked(graph, ranks) && DependsDown(graph, path) && i < j < |path|
    ensures ranks[path[j]] < ranks[path[i]]
    decreases j
  {
    var t, d := path[j - 1], path[j];
    assert path[j - 1 + 1] in graph[path[j - 1]];
    assert t in graph && d in graph[t] && ranks[d] < ranks[t];
    if i < j - 1 {
      RanksFall(graph, ranks, path, i, j - 1);
    }
  }

  /** A chain of dependencies that comes back to a type on it, or runs into one that is not registered. */
  ghost predicate LeadsAstray(graph: Graph, path: seq<int>, t: int) {
    DependsDown(graph, path) && path != [] && t in graph[path[|path| - 1]] && (t in path || t !in graph)
  }

  /** A type reached from itself cannot be ranked, nor can one that is not registered. */
  lemma {:induction false} NotRankable(graph: Graph, path: seq<int>, t: int)
    requires LeadsAstray(graph, path, t)
    ensures !Rankable(graph)
  {
    if Rankable(graph) {
      var ranks :| Ranked(graph, ranks);
      var last := path[|path| - 1];
      BelowAll(graph, ranks, path, t, last);
    }
  }

  lemma {:induction false} BelowAll(graph: Graph, ranks: map<int, nat>, path: seq<int>, t: int, last: int)
    requires Ranked(graph, ranks) && DependsDown(graph, path) && path != [] && last == path[|path| - 1] && t in graph[last]
    ensures t in graph && t !in path
  {
    forall i | 0 <= i < |path| ensures path[i] != t {
      if i < |path| - 1 {
        RanksFall(graph, ranks, path, i, |path| - 1);
      }
      assert ranks[t] < ranks[last];
    }
  }

  /** The types ranked so far stand after all they depend on. */
  ghost predicate Settled(graph: Graph, ranks: map<int, nat>) {
    && ranks.Keys <= graph.Keys
    && (forall t, d :: t in ranks && d in graph[t] ==> d in ranks && ranks[d] < ranks[t])
    && (forall t :: t in ranks ==> ranks[t] < |ranks|)
  }

  /** `b` ranks all that `a` does, the same. */
  ghost predicate Grown(a: map<int, nat>, b: map<int, nat>) {
    a.Keys <= b.Keys && forall t :: t in a ==> b[t] == a[t]
  }

  lemma SettledNext(graph: Graph, ranks: map<int, nat>, t: int)
    requires Settled(graph, ranks) && t in graph && t !in ranks
    requires forall j :: 0 <= j < |graph[t]| ==> graph[t][j] in ranks
    ensures Settled(graph, ranks[t := |ranks|]) && Grown(ranks, ranks[t := |ranks|])
  {
    var next := ranks[t := |ranks|];
    assert next.Keys == ranks.Keys + {t};
    assert |next| == |ranks| + 1;
    forall d | d in graph[t] ensures d in ranks {
      var j :| 0 <= j < |graph[t]| && graph[t][j] == d;
    }
  }

  class Ranker {
    const graph: Graph
    var ranks: map<int, nat>
    var visiting: set<int>

    ghost predicate Valid()
      reads this
    {
      visiting <= graph.Keys && ranks.Keys !! visiting && Settled(graph, ranks)
    }

    constructor (graph: Graph)
      ensures Valid() && this.graph == graph && ranks == map[] && visiting == {}
    {
      this.graph := graph;
      ranks, visiting := map[], {};
    }

    /** Rank what a type depends on, then the type. */
    method Visit(t: int, ghost path: seq<int>) returns (ok: bool)
      requires Valid() && DependsDown(graph, path) && Elems(path) == visiting
      requires if path == [] then t in graph else t in graph[path[|path| - 1]]
      modifies this
      ensures ok ==> Valid() && t in ranks && visiting == old(visiting)
      ensures ok ==> Grown(old(ranks), ranks)
      ensures !ok ==> exists astray, d :: LeadsAstray(graph, astray, d)
      decreases graph.Keys - visiting
    {
      hide Settled, DependsDown;
      if t in ranks {
        return true;
      }
      if t !in graph || t in visiting {
        assert t in visiting ==> t in Elems(path);
        assert LeadsAstray(graph, path, t);
        return false;
      }
      visiting := visiting + {t};
      ghost var below := path + [t];
      ElemsAppend(path, t);
      StepDown(graph, path, t);
      var depends := graph[t];
      for i := 0 to |depends|
        invariant Valid() && visiting == old(visiting) + {t}
        invariant Grown(old(ranks), ranks)
        invariant forall j :: 0 <= j < i ==> depends[j] in ranks
      {
        var done := Visit(depends[i], below);
        if !done {
          return false;
        }
      }
      visiting := visiting - {t};
      SettledNext(graph, ranks, t);
      ranks := ranks[t := |ranks|];
      ok := true;
    }
  }

  lemma StepDown(graph: Graph, path: seq<int>, t: int)
    requires DependsDown(graph, path) && t in graph && (path == [] || t in graph[path[|path| - 1]])
    ensures DependsDown(graph, path + [t])
  {
  }

  /** The ranks of all registered types, or none when a dependency is cyclic or not registered. */
  method RankTypes(graph: Graph) returns (ranks: Option<map<int, nat>>)
    ensures ranks.Some? ==> Ranked(graph, ranks.value)
    ensures ranks.None? <==> exists path, t :: LeadsAstray(graph, path, t)
    ensures ranks.Some? <==> Rankable(graph)
  {
    hide LeadsAstray, Settled;
    AstrayMeans(graph);
    var ranker := new Ranker(graph);
    var todo := graph.Keys;
    while todo != {}
      invariant todo <= graph.Keys && ranker.Valid() && ranker.graph == graph && ranker.visiting == {}
      invariant graph.Keys - todo <= ranker.ranks.Keys
      decreases todo
    {
      var t := Take(todo);
      assert Elems<int>([]) == {};
      var ok := ranker.Visit(t, []);
      if !ok {
        return None;
      }
      todo := todo - {t};
    }
    ranks := Some(ranker.ranks);
    SettledAll(graph, ranker.ranks);
  }

  lemma AstrayMeans(graph: Graph)
    ensures (exists path, t :: LeadsAstray(graph, path, t)) ==> !Rankable(graph)
  {
    hide LeadsAstray, Rankable;
    if path, t :| LeadsAstray(graph, path, t) {
      NotRankable(graph, path, t);
    }
  }

  lemma SettledAll(graph: Graph, ranks: map<int, nat>)
    requires Settled(graph, ranks) && graph.Keys <= ranks.Keys
    ensures Ranked(graph, ranks)
  {
  }
}
