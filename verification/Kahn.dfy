/** The bookkeeping of Kahn's algorithm: who waits for how many parents, who is ready, and which states
    still have a child to read them. */
module Kahn {
  import opened Basics
  import opened Dag
  import opened Lists

  type Parents = map<int, seq<int>>

  /** The events that list `q`. */
  ghost function Kids(parents: Parents, root: int, q: int): set<int> {
    set d | d in parents && q in parents[d] && q != root
  }

  /** The parents an event still waits for. */
  ghost function Outstanding(root: int, list: seq<int>, applied: set<int>): set<int> {
    set q | q in list && q != root && q !in applied
  }

  ghost predicate WaitingRight(parents: Parents, root: int, waiting: map<int, nat>, applied: set<int>) {
    && waiting.Keys == parents.Keys
    && forall d :: d in parents ==> waiting[d] == |Outstanding(root, parents[d], applied)|
  }

  /** The events not judged yet whose parents have all applied. */
  ghost function ReadyNow(parents: Parents, root: int, applied: set<int>, judged: set<int>): set<int> {
    set d | d in parents && d !in judged && ParentsIn(root, parents[d], applied)
  }

  ghost predicate ReadyRight(parents: Parents, root: int, ready: seq<int>, applied: set<int>, judged: set<int>) {
    Ascending(ready) && Elems(ready) == ReadyNow(parents, root, applied, judged)
  }

  ghost predicate ChildrenRight(parents: Parents, root: int, children: map<int, seq<int>>) {
    forall q :: q in parents ==>
      && (q in children <==> Kids(parents, root, q) != {})
      && (q in children ==> Distinct(children[q]) && Elems(children[q]) == Kids(parents, root, q))
  }

  /** A state is kept exactly while some child has not read it, with the number of those. */
  ghost predicate UnreadRight(parents: Parents, root: int, unread: map<int, nat>, applied: set<int>, judged: set<int>) {
    && (forall q :: q in unread <==> q in applied && Kids(parents, root, q) - judged != {})
    && (forall q :: q in unread ==> unread[q] == |Kids(parents, root, q) - judged|)
  }

  /** The children filed under `q` so far: those of `seen`, and `d` once `q` is among `listed`. */
  ghost function FiledUnder(parents: Parents, root: int, q: int, seen: set<int>, d: int, listed: seq<int>): set<int> {
    Kids(parents, root, q) * seen + if q in listed && q != root then {d} else {}
  }

  ghost predicate FiledRight(parents: Parents, root: int, children: map<int, seq<int>>, seen: set<int>, d: int, listed: seq<int>) {
    && (forall q :: q in children ==>
      && q in parents && children[q] != [] && Distinct(children[q])
      && Elems(children[q]) == FiledUnder(parents, root, q, seen, d, listed))
    && (forall q :: q in parents && FiledUnder(parents, root, q, seen, d, listed) != {} ==> q in children)
  }

  lemma FiledNext(parents: Parents, root: int, children: map<int, seq<int>>, seen: set<int>, d: int, listed: seq<int>, q: int)
    requires FiledRight(parents, root, children, seen, d, listed) && d !in seen && q !in listed
    ensures !(q in parents && q != root) ==> FiledRight(parents, root, children, seen, d, listed + [q])
    ensures q in parents && q != root && q !in children
      ==> FiledRight(parents, root, children[q := [d]], seen, d, listed + [q])
    ensures q in parents && q != root && q in children
      ==> FiledRight(parents, root, children[q := children[q] + [d]], seen, d, listed + [q])
  {
    hide Kids;
    forall x | x != q || q == root
      ensures FiledUnder(parents, root, x, seen, d, listed + [q]) == FiledUnder(parents, root, x, seen, d, listed)
    {
    }
    if q in parents && q != root {
      assert FiledUnder(parents, root, q, seen, d, listed + [q]) == FiledUnder(parents, root, q, seen, d, listed) + {d};
      if q in children {
        ElemsAppend(children[q], d);
      } else {
        assert FiledUnder(parents, root, q, seen, d, listed) == {};
        assert Elems([d]) == {d};
      }
    }
  }

  lemma OutstandingNext(root: int, listed: seq<int>, q: int)
    requires q !in listed
    ensures |Outstanding(root, listed + [q], {})| == |Outstanding(root, listed, {})| + if q == root then 0 else 1
  {
    if q == root {
      assert Outstanding(root, listed + [q], {}) == Outstanding(root, listed, {});
    } else {
      assert Outstanding(root, listed + [q], {}) == Outstanding(root, listed, {}) + {q};
    }
  }

  /** Count an event's parents other than the root, and file it under each that is in the graph. */
  method FileUnder(parents: Parents, root: int, d: int, children0: map<int, seq<int>>, ghost seen: set<int>)
    returns (children: map<int, seq<int>>, waits: nat)
    requires d in parents && d !in seen && Distinct(parents[d])
    requires FiledRight(parents, root, children0, seen, d, [])
    ensures waits == |Outstanding(root, parents[d], {})|
    ensures FiledRight(parents, root, children, seen, d, parents[d])
  {
    hide FiledUnder, Outstanding, FiledRight;
    children, waits := children0, 0;
    var list := parents[d];
    assert list[..0] == [];
    assert Outstanding(root, [], {}) == {} by { NothingOutstanding(root); }
    for k := 0 to |list|
      invariant waits == |Outstanding(root, list[..k], {})|
      invariant FiledRight(parents, root, children, seen, d, list[..k])
    {
      var q := list[k];
      assert list[..k + 1] == list[..k] + [q];
      FiledNext(parents, root, children, seen, d, list[..k], q);
      OutstandingNext(root, list[..k], q);
      if q != root {
        waits := waits + 1;
        if q in parents {
          children := if q in children then children[q := children[q] + [d]] else children[q := [d]];
        }
      }
    }
    assert list[..|list|] == list;
  }

  lemma NothingOutstanding(root: int)
    ensures Outstanding(root, [], {}) == {}
  {
  }

  lemma FiledAll(parents: Parents, root: int, children: map<int, seq<int>>, seen: set<int>, d: int)
    requires d in parents && FiledRight(parents, root, children, seen, d, parents[d])
    ensures FiledRight(parents, root, children, seen + {d}, 0, [])
  {
    forall q ensures FiledUnder(parents, root, q, seen + {d}, 0, []) == FiledUnder(parents, root, q, seen, d, parents[d]) {
    }
  }

  lemma FiledNone(parents: Parents, root: int)
    ensures FiledRight(parents, root, map[], {}, 0, [])
  {
  }

  lemma FiledBefore(parents: Parents, root: int, children: map<int, seq<int>>, seen: set<int>, d: int)
    requires FiledRight(parents, root, children, seen, 0, [])
    ensures FiledRight(parents, root, children, seen, d, [])
  {
    forall q ensures FiledUnder(parents, root, q, seen, d, []) == FiledUnder(parents, root, q, seen, 0, []) {
    }
  }

  /** File every event under its parents, count what each waits for, and list those that wait for none. */
  method RegisterEdges(parents: Parents, root: int)
    returns (children: map<int, seq<int>>, waiting: map<int, nat>, ready: seq<int>)
    requires forall d :: d in parents ==> Distinct(parents[d])
    ensures ChildrenRight(parents, root, children)
    ensures WaitingRight(parents, root, waiting, {})
    ensures ReadyRight(parents, root, ready, {}, {})
  {
    hide FiledRight, Outstanding, FiledUnder, ChildrenRight;
    children, waiting, ready := map[], map[], [];
    var todo := parents.Keys;
    FiledNone(parents, root);
    assert parents.Keys - todo == {};
    while todo != {}
      invariant todo <= parents.Keys
      invariant FiledRight(parents, root, children, parents.Keys - todo, 0, [])
      invariant waiting.Keys == parents.Keys - todo
      invariant forall d :: d in waiting ==> waiting[d] == |Outstanding(root, parents[d], {})|
      invariant Ascending(ready)
      invariant Elems(ready) == ReadyNow(parents, root, {}, {}) - todo
      decreases todo
    {
      var d := Take(todo);
      ghost var seen := parents.Keys - todo;
      FiledBefore(parents, root, children, seen, d);
      var waits;
      children, waits := FileUnder(parents, root, d, children, seen);
      FiledAll(parents, root, children, seen, d);
      assert parents.Keys - (todo - {d}) == seen + {d};
      waiting := waiting[d := waits];
      NoneOutstanding(root, parents[d], {});
      if waits == 0 {
        ready := InsertSorted(ready, d);
      }
      todo := todo - {d};
    }
    assert parents.Keys - todo == parents.Keys;
    EverythingFiled(parents, root, children);
  }

  lemma NoneOutstanding(root: int, list: seq<int>, applied: set<int>)
    ensures |Outstanding(root, list, applied)| == 0 <==> ParentsIn(root, list, applied)
  {
    if |Outstanding(root, list, applied)| == 0 {
      assert Outstanding(root, list, applied) == {};
      forall q | q in list ensures q == root || q in applied {
        assert q !in Outstanding(root, list, applied);
      }
    } else {
      assert Pick(Outstanding(root, list, applied)) in Outstanding(root, list, applied);
    }
  }

  lemma EverythingFiled(parents: Parents, root: int, children: map<int, seq<int>>)
    requires FiledRight(parents, root, children, parents.Keys, 0, [])
    ensures ChildrenRight(parents, root, children)
  {
    forall q ensures FiledUnder(parents, root, q, parents.Keys, 0, []) == Kids(parents, root, q) {
    }
    forall q | q in children ensures Kids(parents, root, q) != {} {
      assert children[q][0] in Elems(children[q]);
    }
  }

  // ---------------------------------------------------------------- after an event applies

  /** The parents outstanding once those filed before `d` have heard that it applied. */
  ghost predicate WaitingMid(parents: Parents, root: int, waiting: map<int, nat>, applied: set<int>, d: int, told: seq<int>) {
    && waiting.Keys == parents.Keys
    && forall e :: e in parents ==>
      waiting[e] == |Outstanding(root, parents[e], if e in told then applied + {d} else applied)|
  }

  ghost function ReadyMid(parents: Parents, root: int, applied: set<int>, judged: set<int>, d: int, told: seq<int>): set<int> {
    ReadyNow(parents, root, applied, judged) + set e | e in told && e in parents && ParentsIn(root, parents[e], applied + {d})
  }

  lemma OneFewer(root: int, list: seq<int>, applied: set<int>, d: int)
    requires d in list && d != root && d !in applied
    ensures |Outstanding(root, list, applied)| == |Outstanding(root, list, applied + {d})| + 1
  {
    assert Outstanding(root, list, applied) == Outstanding(root, list, applied + {d}) + {d};
  }

  lemma ToldAll(parents: Parents, root: int, waiting: map<int, nat>, applied: set<int>, judged: set<int>, d: int, kids: seq<int>)
    requires Elems(kids) == Kids(parents, root, d) && d !in applied && d != root
    requires WaitingMid(parents, root, waiting, applied, d, kids)
    requires forall e :: e in judged && e in parents ==> ParentsIn(root, parents[e], applied)
    ensures WaitingRight(parents, root, waiting, applied + {d})
    ensures ReadyMid(parents, root, applied, judged, d, kids) == ReadyNow(parents, root, applied + {d}, judged)
  {
    assert forall e :: e in kids <==> e in Elems(kids);
    forall e | e in parents && e !in kids
      ensures Outstanding(root, parents[e], applied) == Outstanding(root, parents[e], applied + {d})
    {
    }
    forall e | e in kids ensures e in parents && e !in judged {
      WaitsFor(parents, root, d, e, applied);
    }
    var mid, now := ReadyMid(parents, root, applied, judged, d, kids), ReadyNow(parents, root, applied + {d}, judged);
    forall e | e in now ensures e in mid {
      if e !in kids {
        assert e !in Kids(parents, root, d);
        assert ParentsIn(root, parents[e], applied);
      }
    }
    forall e | e in mid ensures e in now {
      if e in kids {
        assert e in Kids(parents, root, d);
      }
    }
  }

  lemma WaitsFor(parents: Parents, root: int, d: int, e: int, applied: set<int>)
    requires e in Kids(parents, root, d) && d !in applied
    ensures !ParentsIn(root, parents[e], applied)
  {
  }

  /** Tell the events waiting for `d` that it has applied. */
  method ReleaseKids(parents: Parents, root: int, d: int, kids: seq<int>, waiting0: map<int, nat>, ready0: seq<int>,
      ghost applied: set<int>, ghost judged: set<int>)
    returns (waiting: map<int, nat>, ready: seq<int>)
    requires Distinct(kids) && Elems(kids) == Kids(parents, root, d) && d !in applied && d != root
    requires forall e :: e in judged && e in parents ==> ParentsIn(root, parents[e], applied)
    requires WaitingRight(parents, root, waiting0, applied)
    requires ReadyRight(parents, root, ready0, applied, judged)
    ensures WaitingRight(parents, root, waiting, applied + {d})
    ensures ReadyRight(parents, root, ready, applied + {d}, judged)
  {
    hide Outstanding;
    waiting, ready := waiting0, ready0;
    for k := 0 to |kids|
      invariant WaitingMid(parents, root, waiting, applied, d, kids[..k])
      invariant Ascending(ready) && Elems(ready) == ReadyMid(parents, root, applied, judged, d, kids[..k])
    {
      var kid := kids[k];
      assert kids[..k + 1] == kids[..k] + [kid];
      assert kid in Elems(kids);
      OneFewer(root, parents[kid], applied, d);
      WaitsFor(parents, root, d, kid, applied);
      NoneOutstanding(root, parents[kid], applied + {d});
      var left := waiting[kid];
      waiting := waiting[kid := left - 1];
      if left == 1 {
        assert kid !in kids[..k];
        assert kid !in Elems(ready);
        ready := InsertSorted(ready, kid);
      }
    }
    assert kids[..|kids|] == kids;
    ToldAll(parents, root, waiting, applied, judged, d, kids);
  }

  // ---------------------------------------------------------------- reading the parents' states

  /** What is unread once `c` has read the parents of `listed`. */
  ghost function StillUnread(parents: Parents, root: int, judged: set<int>, c: int, listed: seq<int>, q: int): set<int> {
    Kids(parents, root, q) - judged - if q in listed then {c} else {}
  }

  ghost predicate UnreadMid(parents: Parents, root: int, unread: map<int, nat>, applied: set<int>, judged: set<int>, c: int, listed: seq<int>) {
    && (forall q :: q in unread <==> q in applied && StillUnread(parents, root, judged, c, listed, q) != {})
    && (forall q :: q in unread ==> unread[q] == |StillUnread(parents, root, judged, c, listed, q)|)
  }

  /** The parent read next is still kept, and its count drops by one. */
  lemma ReadNext(parents: Parents, root: int, unread: map<int, nat>, applied: set<int>, judged: set<int>, c: int, listed: seq<int>, q: int)
    requires UnreadMid(parents, root, unread, applied, judged, c, listed)
    requires c in parents && q in parents[c] && q != root && q in applied && c !in judged && q !in listed
    ensures q in unread && unread[q] >= 1
    ensures unread[q] == 1 ==> UnreadMid(parents, root, unread - {q}, applied, judged, c, listed + [q])
    ensures unread[q] > 1 ==> UnreadMid(parents, root, unread[q := unread[q] - 1], applied, judged, c, listed + [q])
  {
    var before, now := StillUnread(parents, root, judged, c, listed, q), StillUnread(parents, root, judged, c, listed + [q], q);
    assert c in before && now == before - {c};
    assert |now| == |before| - 1;
    forall x | x != q
      ensures StillUnread(parents, root, judged, c, listed + [q], x) == StillUnread(parents, root, judged, c, listed, x)
    {
    }
  }

  lemma RootUnread(parents: Parents, root: int, unread: map<int, nat>, applied: set<int>, judged: set<int>, c: int, listed: seq<int>)
    requires UnreadMid(parents, root, unread, applied, judged, c, listed)
    ensures UnreadMid(parents, root, unread, applied, judged, c, listed + [root])
  {
    forall x
      ensures StillUnread(parents, root, judged, c, listed + [root], x) == StillUnread(parents, root, judged, c, listed, x)
    {
    }
  }

  lemma UnreadStart(parents: Parents, root: int, unread: map<int, nat>, applied: set<int>, judged: set<int>, c: int)
    requires UnreadRight(parents, root, unread, applied, judged)
    ensures UnreadMid(parents, root, unread, applied, judged, c, [])
  {
    forall x ensures StillUnread(parents, root, judged, c, [], x) == Kids(parents, root, x) - judged {
    }
  }

  lemma UnreadEnd(parents: Parents, root: int, unread: map<int, nat>, applied: set<int>, judged: set<int>, c: int)
    requires c in parents && UnreadMid(parents, root, unread, applied, judged, c, parents[c])
    ensures UnreadRight(parents, root, unread, applied, judged + {c})
  {
    forall x ensures StillUnread(parents, root, judged, c, parents[c], x) == Kids(parents, root, x) - (judged + {c}) {
    }
  }

  /** Keep the state of a newly applied event while it has children. */
  lemma UnreadApplied(parents: Parents, root: int, unread: map<int, nat>, applied: set<int>, judged: set<int>, d: int)
    requires UnreadRight(parents, root, unread, applied, judged) && d !in applied && d in judged
    requires forall e :: e in judged && e in parents ==> ParentsIn(root, parents[e], applied)
    ensures Kids(parents, root, d) !! judged
    ensures Kids(parents, root, d) == {} ==> UnreadRight(parents, root, unread, applied + {d}, judged)
    ensures Kids(parents, root, d) != {}
      ==> UnreadRight(parents, root, unread[d := |Kids(parents, root, d)|], applied + {d}, judged)
  {
    forall e | e in Kids(parents, root, d) ensures e !in judged {
      WaitsFor(parents, root, d, e, applied);
    }
    assert Kids(parents, root, d) - judged == Kids(parents, root, d);
  }

  // ---------------------------------------------------------------- the books together

  ghost predicate Books(parents: Parents, root: int, children: map<int, seq<int>>, waiting: map<int, nat>, ready: seq<int>,
      unread: map<int, nat>, applied: set<int>, judged: set<int>) {
    && ChildrenRight(parents, root, children)
    && WaitingRight(parents, root, waiting, applied)
    && ReadyRight(parents, root, ready, applied, judged)
    && UnreadRight(parents, root, unread, applied, judged)
  }

  /** The event taken next: the smallest whose parents have all applied. */
  ghost predicate NextReady(parents: Parents, root: int, applied: set<int>, judged: set<int>, d: int) {
    var ready := ReadyNow(parents, root, applied, judged);
    d in ready && forall e :: e in ready ==> d <= e
  }

  lemma FirstIsNext(parents: Parents, root: int, ready: seq<int>, applied: set<int>, judged: set<int>)
    requires ready != [] && ReadyRight(parents, root, ready, applied, judged)
    ensures var d := ready[0];
      && NextReady(parents, root, applied, judged, d)
      && d in parents && d !in judged && ParentsIn(root, parents[d], applied)
      && ReadyRight(parents, root, ready[1..], applied, judged + {d})
  {
    assert ready[0] in Elems(ready);
    assert ready == [ready[0]] + ready[1..];
    ElemsConcat([ready[0]], ready[1..]);
    assert Elems([ready[0]]) == {ready[0]};
    assert ready[0] !in ready[1..];
  }

  lemma NoneReady(parents: Parents, root: int, applied: set<int>, judged: set<int>)
    requires ReadyRight(parents, root, [], applied, judged)
    ensures ReadyNow(parents, root, applied, judged) == {}
  {
  }

  /** The first of the books' ready list comes next, and its parents have all applied. */
  lemma NextOfBooks(parents: Parents, root: int, children: map<int, seq<int>>, waiting: map<int, nat>, ready: seq<int>,
      unread: map<int, nat>, applied: set<int>, judged: set<int>)
    requires ready != [] && Books(parents, root, children, waiting, ready, unread, applied, judged)
    requires judged <= parents.Keys
    ensures var d := ready[0];
      && NextReady(parents, root, applied, judged, d)
      && d in parents && d !in judged && ParentsIn(root, parents[d], applied)
      && |parents.Keys - (judged + {d})| < |parents.Keys - judged|
    ensures UnreadRight(parents, root, unread, applied, judged)
  {
    hide UnreadRight, ChildrenRight, WaitingRight;
    FirstIsNext(parents, root, ready, applied, judged);
    assert parents.Keys - (judged + {ready[0]}) == (parents.Keys - judged) - {ready[0]};
  }

  /** The books once the next event is judged and its parents' states are read. */
  lemma BooksJudged(parents: Parents, root: int, children: map<int, seq<int>>, waiting: map<int, nat>, ready: seq<int>,
      unreadBefore: map<int, nat>, unread: map<int, nat>, applied: set<int>, judged: set<int>)
    requires ready != [] && Books(parents, root, children, waiting, ready, unreadBefore, applied, judged)
    requires UnreadRight(parents, root, unread, applied, judged + {ready[0]})
    ensures Books(parents, root, children, waiting, ready[1..], unread, applied, judged + {ready[0]})
  {
    hide ChildrenRight, WaitingRight, UnreadRight, ReadyRight;
    FirstIsNext(parents, root, ready, applied, judged);
  }
}
