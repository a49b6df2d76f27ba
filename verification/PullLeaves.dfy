/** What a pass is for: that both sides come to hold the greater decision of every record. */
module PullLeaves {
  import opened Basics
  import opened Range
  import opened Sortable
  import opened Reconcile
  import opened PullRun
  import opened PullComplete

  /** One decision, whoever its signers are. */
  ghost predicate SameRank(a: Leaf, b: Leaf) {
    a.order == b.order && a.contentDigest == b.contentDigest
  }

  /** Whether a leaf is one a pass asks for, in the leaves both sides hold: nothing is held at its key that is as new
      and has the same signers. */
  ghost predicate BeyondHeld(local: seq<Leaf>, leaf: Leaf) {
    forall held :: held in local && KeyOf(held) == KeyOf(leaf) ==> Newer(leaf, held) || OtherSigners(leaf, held)
  }

  lemma AheadIff(k: Codec, local: seq<Leaf>, leaf: Leaf)
    requires StoreView(k, local)
    ensures Ahead(local, leaf) <==> BeyondHeld(local, leaf)
  {
    hide StoreView, Newer, OtherSigners;
    HeldMeans(local, leaf.kind, leaf.position);
    var held := HeldAt(local, WholeKind(leaf.kind), leaf.position);
    if held.Some? {
      forall other | other in local && KeyOf(other) == KeyOf(leaf) ensures other == held.value {
        OneHere(k, local, other, held.value);
      }
    }
  }

  /** Exactly what a complete pass has asked for, by key or by the range it stands in. */
  lemma {:induction false} AskedExactly(k: Codec, local: seq<Leaf>, theirs: seq<Leaf>, types: seq<int>, nets: seq<Net>, leaf: Leaf)
    requires StoreView(k, theirs) && StoreView(k, local) && IsPass(k, local, theirs, types, nets)
    requires AllTold(k, local, theirs, nets) && nets[|nets| - 1].state.complete
    requires leaf in theirs && leaf.kind in types
    ensures AskedFor(nets[|nets| - 1], leaf) <==> BeyondHeld(local, leaf)
  {
    hide StoreView, AllTold, Ahead, AskedFor, IsPass, BeyondHeld;
    PassComplete(k, local, theirs, types, nets);
    AheadIff(k, local, leaf);
  }

  // ---------------------------------------------------------------- taking in what was asked for

  /** `after` is what a store comes to hold once all that was asked for is taken in: of each record asked for the newer
      of the two decisions, as the policy stores it; of every other what it held. */
  ghost predicate TookIn(local: seq<Leaf>, theirs: seq<Leaf>, net: Net, after: seq<Leaf>) {
    && (forall w :: w in after ==> Stems(local, theirs, net, w))
    && (forall leaf :: leaf in theirs && AskedFor(net, leaf) ==> KeyIn(after, KeyOf(leaf)))
    && (forall held :: held in local ==> KeyIn(after, KeyOf(held)))
  }

  ghost predicate KeyIn(leaves: seq<Leaf>, key: Key) {
    exists leaf :: leaf in leaves && KeyOf(leaf) == key
  }

  /** A decision comes from where it should: fetched, when it is the newer or nothing was held; kept, when nothing was
      asked for or what was fetched is no newer. */
  ghost predicate Stems(local: seq<Leaf>, theirs: seq<Leaf>, net: Net, w: Leaf) {
    || (exists leaf :: leaf in theirs && AskedFor(net, leaf) && Fetched(local, leaf, w))
    || (exists held :: held in local && Kept(theirs, net, held, w))
  }

  ghost predicate Fetched(local: seq<Leaf>, leaf: Leaf, w: Leaf) {
    KeyOf(leaf) == KeyOf(w) && SameRank(leaf, w) && forall held :: held in local && KeyOf(held) == KeyOf(w) ==> !Newer(held, leaf)
  }

  ghost predicate Kept(theirs: seq<Leaf>, net: Net, held: Leaf, w: Leaf) {
    KeyOf(held) == KeyOf(w) && SameRank(held, w)
    && forall leaf :: leaf in theirs && AskedFor(net, leaf) && KeyOf(leaf) == KeyOf(w) ==> !Newer(leaf, held)
  }

  // ---------------------------------------------------------------- the greater of both

  /** `after` holds at every key of these types the greater decision of the two sides, and nothing else. */
  ghost predicate GreaterOfBoth(after: seq<Leaf>, a: seq<Leaf>, b: seq<Leaf>, types: seq<int>) {
    && (forall w :: w in after && w.kind in types ==> InEither(a, b, w))
    && (forall leaf :: (leaf in a || leaf in b) && leaf.kind in types ==> KeyIn(after, KeyOf(leaf)))
    && (forall w, leaf :: w in after && w.kind in types && (leaf in a || leaf in b) && KeyOf(leaf) == KeyOf(w) ==> !Newer(leaf, w))
  }

  ghost predicate InEither(a: seq<Leaf>, b: seq<Leaf>, w: Leaf) {
    exists leaf :: (leaf in a || leaf in b) && KeyOf(leaf) == KeyOf(w) && SameRank(leaf, w)
  }

  lemma NewerTotal(a: Leaf, b: Leaf)
    ensures !(Newer(a, b) && Newer(b, a))
    ensures !Newer(a, b) && !Newer(b, a) <==> SameRank(a, b)
  {
    TextTotal(a.order, b.order);
  }

  lemma NewerTransitive(a: Leaf, b: Leaf, c: Leaf)
    requires !Newer(b, a) && !Newer(c, b)
    ensures !Newer(c, a)
  {
    TextTotal(a.order, b.order);
    TextTotal(b.order, c.order);
    TextTotal(a.order, c.order);
    TextTransitive(a.order, b.order, c.order);
  }

  lemma RankMoves(a: Leaf, b: Leaf, c: Leaf)
    requires SameRank(a, b)
    ensures Newer(c, a) == Newer(c, b) && Newer(a, c) == Newer(b, c)
  {
  }

  /** After a complete pass, with all it asked for taken in, a store holds of every record of the types the greater of
      the two sides' decisions. */
  lemma {:induction false} PassLeavesGreater(k: Codec, local: seq<Leaf>, theirs: seq<Leaf>, types: seq<int>, nets: seq<Net>, after: seq<Leaf>)
    requires StoreView(k, theirs) && StoreView(k, local) && IsPass(k, local, theirs, types, nets)
    requires AllTold(k, local, theirs, nets) && nets[|nets| - 1].state.complete
    requires TookIn(local, theirs, nets[|nets| - 1], after)
    ensures GreaterOfBoth(after, local, theirs, types)
  {
    hide StoreView, AllTold, Starts, MovesOn, Newer, SameRank, AskedFor;
    var net := nets[|nets| - 1];
    forall leaf | leaf in theirs && leaf.kind in types ensures AskedFor(net, leaf) || exists held :: held in local && NoOlder(held, leaf)
    {
      AskedExactly(k, local, theirs, types, nets, leaf);
      if !AskedFor(net, leaf) {
        var held :| held in local && KeyOf(held) == KeyOf(leaf) && !(Newer(leaf, held) || OtherSigners(leaf, held));
        assert NoOlder(held, leaf);
      }
    }
    forall w | w in after && w.kind in types ensures InEither(local, theirs, w) && Tops(local, theirs, w) {
      StemsTop(k, local, theirs, types, net, w);
    }
    forall leaf | leaf in theirs && leaf.kind in types ensures KeyIn(after, KeyOf(leaf)) {
      if !AskedFor(net, leaf) {
        var held :| held in local && NoOlder(held, leaf);
        assert KeyIn(after, KeyOf(held));
      }
    }
  }

  ghost predicate NoOlder(held: Leaf, leaf: Leaf) {
    KeyOf(held) == KeyOf(leaf) && !Newer(leaf, held)
  }

  ghost predicate Tops(a: seq<Leaf>, b: seq<Leaf>, w: Leaf) {
    forall leaf :: (leaf in a || leaf in b) && KeyOf(leaf) == KeyOf(w) ==> !Newer(leaf, w)
  }

  lemma {:induction false} StemsTop(k: Codec, local: seq<Leaf>, theirs: seq<Leaf>, types: seq<int>, net: Net, w: Leaf)
    requires StoreView(k, theirs) && StoreView(k, local) && Stems(local, theirs, net, w) && w.kind in types
    requires forall leaf :: leaf in theirs && leaf.kind in types ==> AskedFor(net, leaf) || exists held :: held in local && NoOlder(held, leaf)
    ensures InEither(local, theirs, w) && Tops(local, theirs, w)
  {
    hide StoreView, Newer, SameRank, AskedFor;
    if leaf :| leaf in theirs && AskedFor(net, leaf) && Fetched(local, leaf, w) {
      forall other | (other in local || other in theirs) && KeyOf(other) == KeyOf(w) ensures !Newer(other, w) {
        RankMoves(leaf, w, other);
        if other in theirs {
          OneHere(k, theirs, other, leaf);
          NewerTotal(leaf, leaf);
        }
      }
    } else {
      var held :| held in local && Kept(theirs, net, held, w);
      forall other | (other in local || other in theirs) && KeyOf(other) == KeyOf(w) ensures !Newer(other, w) {
        RankMoves(held, w, other);
        if other in local {
          OneHere(k, local, other, held);
          NewerTotal(held, held);
        } else if !AskedFor(net, other) {
          var mine :| mine in local && NoOlder(mine, other);
          OneHere(k, local, mine, held);
        }
      }
    }
  }

  /** Whatever holds the greater of the same two holds, key by key, the same decisions. */
  lemma {:induction false} OneGreater(x: seq<Leaf>, y: seq<Leaf>, a: seq<Leaf>, b: seq<Leaf>, types: seq<int>, v: Leaf)
    requires GreaterOfBoth(x, a, b, types) && GreaterOfBoth(y, a, b, types) && v in x && v.kind in types
    ensures exists w :: w in y && KeyOf(w) == KeyOf(v) && SameRank(v, w)
  {
    hide Newer, SameRank;
    var leaf :| (leaf in a || leaf in b) && KeyOf(leaf) == KeyOf(v) && SameRank(leaf, v);
    var w :| w in y && KeyOf(w) == KeyOf(leaf);
    var other :| (other in a || other in b) && KeyOf(other) == KeyOf(w) && SameRank(other, w);
    RankMoves(other, w, v);
    RankMoves(leaf, v, w);
    NewerTotal(v, w);
  }

  /** The greater of a side and of the greater of both is the greater of both. */
  lemma {:induction false} GreaterAgain(y: seq<Leaf>, x: seq<Leaf>, a: seq<Leaf>, b: seq<Leaf>, types: seq<int>)
    requires GreaterOfBoth(x, a, b, types) && GreaterOfBoth(y, b, x, types)
    ensures GreaterOfBoth(y, a, b, types)
  {
    hide Newer, SameRank;
    forall w | w in y && w.kind in types ensures InEither(a, b, w) {
      var leaf :| (leaf in b || leaf in x) && KeyOf(leaf) == KeyOf(w) && SameRank(leaf, w);
      if leaf in x {
        var first :| (first in a || first in b) && KeyOf(first) == KeyOf(leaf) && SameRank(first, leaf);
        AlsoRank(first, leaf, w);
      }
    }
    forall leaf | (leaf in a || leaf in b) && leaf.kind in types ensures KeyIn(y, KeyOf(leaf)) {
      var v :| v in x && KeyOf(v) == KeyOf(leaf);
      assert KeyIn(y, KeyOf(v));
    }
    forall w, leaf | w in y && w.kind in types && (leaf in a || leaf in b) && KeyOf(leaf) == KeyOf(w) ensures !Newer(leaf, w) {
      var v :| v in x && KeyOf(v) == KeyOf(leaf);
      NewerTransitive(w, v, leaf);
    }
  }

  lemma AlsoRank(a: Leaf, b: Leaf, c: Leaf)
    requires SameRank(a, b) && SameRank(b, c)
    ensures SameRank(a, c)
  {
  }

  /** After a pass each way both sides hold the same decision of every record of the types. The second pass may read the
      first side as it was, or as the first pass left it. */
  lemma {:induction false} BothAgree(k: Codec, a: seq<Leaf>, b: seq<Leaf>, shown: seq<Leaf>, types: seq<int>,
      first: seq<Net>, second: seq<Net>, x: seq<Leaf>, y: seq<Leaf>)
    requires StoreView(k, a) && StoreView(k, b) && StoreView(k, shown) && (shown == a || shown == x)
    requires IsPass(k, a, b, types, first) && AllTold(k, a, b, first) && first[|first| - 1].state.complete && TookIn(a, b, first[|first| - 1], x)
    requires IsPass(k, b, shown, types, second) && AllTold(k, b, shown, second) && second[|second| - 1].state.complete
      && TookIn(b, shown, second[|second| - 1], y)
    ensures forall v :: v in x && v.kind in types ==> exists w :: w in y && KeyOf(w) == KeyOf(v) && SameRank(v, w)
    ensures forall v :: v in y && v.kind in types ==> exists w :: w in x && KeyOf(w) == KeyOf(v) && SameRank(v, w)
  {
    hide StoreView, IsPass, AllTold, TookIn, GreaterOfBoth, SameRank;
    PassLeavesGreater(k, a, b, types, first, x);
    PassLeavesGreater(k, b, shown, types, second, y);
    if shown == x {
      GreaterAgain(y, x, a, b, types);
    } else {
      EitherSide(y, b, a, types);
    }
    forall v | v in x && v.kind in types ensures exists w :: w in y && KeyOf(w) == KeyOf(v) && SameRank(v, w) {
      OneGreater(x, y, a, b, types, v);
    }
    forall v | v in y && v.kind in types ensures exists w :: w in x && KeyOf(w) == KeyOf(v) && SameRank(v, w) {
      OneGreater(y, x, a, b, types, v);
    }
  }

  lemma EitherSide(y: seq<Leaf>, a: seq<Leaf>, b: seq<Leaf>, types: seq<int>)
    requires GreaterOfBoth(y, a, b, types)
    ensures GreaterOfBoth(y, b, a, types)
  {
    hide Newer, SameRank;
  }
}
