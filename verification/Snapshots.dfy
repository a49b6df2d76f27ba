/** `snapshotOf`: what a rotate must publish to carry a state forward. */
module Snapshots {
  import opened Basics
  import opened Events
  import opened Members
  import opened Fold
  import opened EpochSpec
  import opened EpochHead
  import opened EpochMemory
  import opened HeadRules

  /** Every incarnation stands under its own `add`. */
  ghost predicate KeyedByAdd(state: KeyState) {
    && (forall a :: a in state.members ==> state.members[a].entry.add == a)
    && (forall a :: a in state.tombstones ==> state.tombstones[a].add == a)
  }

  predicate Live(state: KeyState, a: Digest) {
    a in state.members && !state.members[a].removed
  }

  predicate Gone(state: KeyState, a: Digest) {
    (a in state.members && state.members[a].removed) || a in state.tombstones
  }

  predicate LiveEntry(state: KeyState, entry: MemberEntry) {
    Live(state, entry.add) && state.members[entry.add].entry == entry
  }

  predicate EndedEntry(state: KeyState, entry: MemberEntry) {
    entry.add in state.members && state.members[entry.add].removed && state.members[entry.add].entry == entry
  }

  predicate BuriedEntry(state: KeyState, entry: MemberEntry) {
    entry.add in state.tombstones && state.tombstones[entry.add] == entry
  }

  /** A snapshot that says what a state does, less what is dropped. */
  ghost predicate Tells(state: KeyState, dropDeny: set<Target>, dropMembers: set<Digest>, s: Snapshot) {
    && Elems(s.deny) == state.deny - dropDeny
    && (forall x :: x in s.members <==> x.add !in dropMembers && LiveEntry(state, x))
    && (forall x :: x in s.removed <==> x.add !in dropMembers && (EndedEntry(state, x) || BuriedEntry(state, x)))
  }

  method DenyList(deny: set<Target>) returns (list: seq<Target>)
    ensures Elems(list) == deny
  {
    list := [];
    var todo := deny;
    while todo != {}
      invariant todo <= deny && Elems(list) == deny - todo
      decreases todo
    {
      var entry := Take(todo);
      ElemsAppend(list, entry);
      list := list + [entry];
      todo := todo - {entry};
    }
  }

  method SnapshotOf(state: KeyState, dropDeny: set<Target>, dropMembers: set<Digest>) returns (s: Snapshot)
    requires KeyedByAdd(state)
    ensures Tells(state, dropDeny, dropMembers, s)
    ensures state.members.Keys !! state.tombstones.Keys ==> DistinctAdds(s.members + s.removed)
  {
    var members: seq<MemberEntry>, removed: seq<MemberEntry> := [], [];
    var todo := state.members.Keys;
    while todo != {}
      invariant todo <= state.members.Keys
      invariant forall x :: x in members <==> x.add !in dropMembers && x.add !in todo && LiveEntry(state, x)
      invariant forall x :: x in removed <==> x.add !in dropMembers && x.add !in todo && EndedEntry(state, x)
      invariant DistinctAdds(members) && DistinctAdds(removed)
      decreases todo
    {
      var a := Take(todo);
      var member := state.members[a];
      if member.entry.add !in dropMembers {
        if member.removed {
          removed := removed + [member.entry];
        } else {
          members := members + [member.entry];
        }
      }
      todo := todo - {a};
    }
    ghost var ended := removed;
    todo := state.tombstones.Keys;
    while todo != {}
      invariant todo <= state.tombstones.Keys
      invariant forall x :: x in removed <==> x in ended || (x.add !in dropMembers && x.add !in todo && BuriedEntry(state, x))
      invariant state.members.Keys !! state.tombstones.Keys ==> DistinctAdds(removed)
      decreases todo
    {
      var a := Take(todo);
      if state.tombstones[a].add !in dropMembers {
        removed := removed + [state.tombstones[a]];
      }
      todo := todo - {a};
    }
    var deny := DenyList(state.deny - dropDeny);
    s := Snapshot(members, removed, deny);
    if state.members.Keys !! state.tombstones.Keys {
      ApartTogether(members, removed);
    }
  }

  lemma ApartTogether(a: seq<MemberEntry>, b: seq<MemberEntry>)
    requires DistinctAdds(a) && DistinctAdds(b) && forall x, y :: x in a && y in b ==> x.add != y.add
    ensures DistinctAdds(a + b)
  {
    var both := a + b;
    forall i, j | 0 <= i < j < |both| ensures both[i].add != both[j].add {
      if i < |a| <= j {
        assert both[i] in a && both[j] in b;
      }
    }
  }

  /** A member may act exactly when it is neither removed nor denied. */
  ghost predicate DenialDominates(c: Suite, state: KeyState) {
    forall a :: a in state.members ==>
      (state.members[a].effective <==> !state.members[a].removed && !IsDenied(c, state.deny, state.members[a].entry))
  }

  lemma DeniedWhateverLease(c: Suite, deny: set<Target>, entry: MemberEntry, lease: int)
    ensures IsDenied(c, deny, entry.(lease := lease)) == IsDenied(c, deny, entry)
  {
  }

  /** A merged head is such a state. */
  lemma {:induction false} HeadFits(ep: Epoch, view: View, maxEvents: nat)
    requires WellView(ep, view) && FoldSpec(ep, view, maxEvents).Merged? && KeyedByAdd(ep.anchor)
    ensures KeyedByAdd(FoldSpec(ep, view, maxEvents).head) && DenialDominates(ep.suite, FoldSpec(ep, view, maxEvents).head)
  {
    hide FoldSpec, WellView, GraphOf, After, IsDenied, LeasesOf, RemovedOf, DenyOf;
    HeadMeans(ep, view, maxEvents);
    HeadKeeps(ep, view, maxEvents);
    var g, head := GraphOf(ep, view), FoldSpec(ep, view, maxEvents).head;
    var u :| IsMergeOf(g, After(ep, g).Keys, AnchorState(ep), u) && head.deny == u.deny && head.members == MembersOf(ep, u);
    forall a | a in head.members
      ensures head.members[a].entry.add == a
      ensures head.members[a].effective <==> !head.members[a].removed && !IsDenied(ep.suite, head.deny, head.members[a].entry)
    {
      DeniedWhateverLease(ep.suite, u.deny, u.added[a], head.members[a].entry.lease);
    }
  }

  lemma HeadKeeps(ep: Epoch, view: View, maxEvents: nat)
    requires FoldSpec(ep, view, maxEvents).Merged?
    ensures FoldSpec(ep, view, maxEvents).head.tombstones == ep.anchor.tombstones
  {
    hide GraphOf, After, Union, Applied, Reasons, AuthenticCopies, Charges, Evaluated, MembersOf;
  }

  /** The rotate that publishes a snapshot. */
  function Publishing(event: ChainEvent, s: Snapshot): ChainEvent
    requires event.Rotate?
  {
    event.(m := Some(s.members), u := if s.removed == [] then None else Some(s.removed), d := Some(s.deny))
  }

  /** What a rotate carries forward: the state after it denies what that one did less what is dropped, has the
      live members not dropped, each able to act exactly when no denial left targets it, and every ended
      incarnation not dropped on record. With no denial dropped each is as able to act as before. */
  lemma {:induction false} CarriesForward(c: Suite, did: Did, state: KeyState, dropDeny: set<Target>, dropMembers: set<Digest>, s: Snapshot,
      event: ChainEvent, prior: KeyState)
    requires event.Rotate? && KeyedByAdd(state) && Tells(state, dropDeny, dropMembers, s)
    ensures var next := StateFrom(c, did, Publishing(event, s), prior);
      && next.deny == state.deny - dropDeny
      && (forall a :: a in next.members <==> Live(state, a) && a !in dropMembers)
      && (forall a :: a in next.members ==>
        next.members[a] == MemberState(state.members[a].entry, false, !IsDenied(c, state.deny - dropDeny, state.members[a].entry)))
      && (dropDeny == {} && DenialDominates(c, state) ==> forall a :: a in next.members ==> next.members[a] == state.members[a])
      && (forall a :: a in next.tombstones <==> Gone(state, a) && a !in dropMembers)
  {
    hide IsDenied;
    var snapshot := SnapshotIn(Publishing(event, s));
    assert snapshot.members == s.members && snapshot.removed == s.removed && snapshot.deny == s.deny;
    forall a ensures a in AddsOf(s.members) <==> Live(state, a) && a !in dropMembers {
      if Live(state, a) && a !in dropMembers {
        assert state.members[a].entry in s.members;
      }
    }
    forall a ensures a in AddsOf(s.removed) <==> Gone(state, a) && a !in dropMembers {
      if a in state.members && state.members[a].removed && a !in dropMembers {
        assert state.members[a].entry in s.removed;
      } else if a in state.tombstones && a !in dropMembers {
        assert state.tombstones[a] in s.removed;
      }
    }
    assert state.deny - {} == state.deny;
  }
}
