/** Sorting what was presented into candidates, and finding the copy of one that is authentic. Memory's copies
    come first, and whatever else is presented of an event memory holds is set aside; the copies of one event are
    one candidate; and the copy kept is the genuine one whose signature list sorts first, so that neither the
    order they arrived in nor a forged copy put ahead of it changes the answer. */
module EpochTriage {
  import opened Basics
  import opened Events
  import opened EpochSpec
  import opened Lists

  /** A candidate as the fold builds it: copies in the order they arrived, repeats included. */
  datatype Slot = Slot(event: EpochEvent, copies: seq<seq<Sig>>, trusted: Option<seq<Sig>>)

  function CandidateIn(slot: Slot): Candidate {
    Candidate(slot.event, Elems(slot.copies), slot.trusted)
  }

  function GraphIn(slots: map<Digest, Slot>): Graph {
    map d | d in slots :: CandidateIn(slots[d])
  }

  lemma NoCharge()
    ensures Charge({}) == 0
  {
    assert Lengths({}) == map[];
  }

  lemma ChargeInsert(lists: set<seq<Sig>>, s: seq<Sig>)
    requires s !in lists
    ensures Charge(lists + {s}) == Charge(lists) + |s|
  {
    TotalInsert(Lengths(lists), s, |s|);
    assert Lengths(lists)[s := |s|] == Lengths(lists + {s});
  }

  lemma ChargeSubset(small: set<seq<Sig>>, big: set<seq<Sig>>)
    requires small <= big
    ensures Charge(small) <= Charge(big)
  {
    TotalSubmap(Lengths(small), Lengths(big));
  }

  /** The copies whose rank is among `ranks`. */
  ghost function RankedIn(c: Suite, copies: set<seq<Sig>>, ranks: set<int>): set<seq<Sig>> {
    set s | s in copies && c.sigRank(s) in ranks
  }

  /** The genuine copy whose signature list sorts first, charging every list that fails before it and
      giving up once the failures pass the limit. */
  method CanonicalCopy(ep: Epoch, event: EpochEvent, copies: seq<seq<Sig>>, keys: seq<Key>, failedBefore: nat)
    returns (authentic: Option<seq<Sig>>, failed: nat)
    requires Sound(ep.suite)
    ensures var cand := Candidate(event, Elems(copies), None);
      var charge := Charge(FailedCopies(ep, cand, keys));
      && (failed <= MAX_FAILED_SIGNATURES ==> failed == failedBefore + charge && authentic == Authentic(ep, cand, keys))
      && (failed > MAX_FAILED_SIGNATURES ==> failedBefore + charge > MAX_FAILED_SIGNATURES)
  {
    ghost var cand := Candidate(event, Elems(copies), None);
    var distinct: map<int, seq<Sig>> := map[];
    for i := 0 to |copies|
      invariant forall r :: r in distinct ==> distinct[r] in copies && ep.suite.sigRank(distinct[r]) == r
      invariant forall j :: 0 <= j < i ==> ep.suite.sigRank(copies[j]) in distinct
    {
      var rank := ep.suite.sigRank(copies[i]);
      if rank !in distinct {
        distinct := distinct[rank := copies[i]];
      }
    }
    var ranks := SortedKeys(distinct);
    failed := failedBefore;
    ghost var tried: set<seq<Sig>> := {};
    for i := 0 to |ranks|
      invariant tried == RankedIn(ep.suite, cand.copies, Elems(ranks[..i]))
      invariant forall s :: s in tried ==> !Genuine(ep, event, s, keys)
      invariant failed == failedBefore + Charge(tried)
    {
      assert ranks[i] in Elems(ranks);
      var copy := distinct[ranks[i]];
      NextRank(ep.suite, cand.copies, ranks, i, copy);
      if Genuine(ep, event, copy, keys) {
        FirstIs(ep, cand, keys, copy, tried);
        return Some(copy), failed;
      }
      ChargeInsert(tried, copy);
      tried := tried + {copy};
      failed := failed + |copy|;
      if failed > MAX_FAILED_SIGNATURES {
        TriedFail(ep, cand, keys, tried, ranks, i + 1);
        return None, failed;
      }
    }
    assert ranks[..|ranks|] == ranks;
    assert tried == cand.copies;
    return None, failed;
  }

  lemma NextRank(c: Suite, copies: set<seq<Sig>>, ranks: seq<int>, i: nat, copy: seq<Sig>)
    requires Sound(c) && Ascending(ranks) && i < |ranks| && copy in copies && c.sigRank(copy) == ranks[i]
    requires forall s :: s in copies ==> c.sigRank(s) in Elems(ranks)
    ensures copy !in RankedIn(c, copies, Elems(ranks[..i]))
    ensures RankedIn(c, copies, Elems(ranks[..i + 1])) == RankedIn(c, copies, Elems(ranks[..i])) + {copy}
    ensures RankedIn(c, copies, Elems(ranks[..i])) == set s | s in copies && c.sigRank(s) < c.sigRank(copy)
  {
    assert ranks[..i + 1] == ranks[..i] + [ranks[i]];
    ElemsAppend(ranks[..i], ranks[i]);
    assert forall r :: r in Elems(ranks) ==> (r in Elems(ranks[..i]) <==> r < ranks[i]) by {
      forall r | r in Elems(ranks) ensures r in Elems(ranks[..i]) <==> r < ranks[i] {
        var k :| 0 <= k < |ranks| && ranks[k] == r;
        if k < i {
          assert ranks[..i][k] == r;
        }
      }
    }
  }

  lemma FirstIs(ep: Epoch, cand: Candidate, keys: seq<Key>, copy: seq<Sig>, tried: set<seq<Sig>>)
    requires Sound(ep.suite) && cand.trusted.None?
    requires copy in cand.copies && Genuine(ep, cand.event, copy, keys)
    requires tried == set s | s in cand.copies && ep.suite.sigRank(s) < ep.suite.sigRank(copy)
    requires forall s :: s in tried ==> !Genuine(ep, cand.event, s, keys)
    ensures Authentic(ep, cand, keys) == Some(copy) && FailedCopies(ep, cand, keys) == tried
  {
    assert copy in GenuineCopies(ep, cand, keys);
    var first := FirstRanked(ep.suite, GenuineCopies(ep, cand, keys));
    assert first !in tried;
  }

  lemma TriedFail(ep: Epoch, cand: Candidate, keys: seq<Key>, tried: set<seq<Sig>>, ranks: seq<int>, n: nat)
    requires Sound(ep.suite) && cand.trusted.None? && n <= |ranks| && Ascending(ranks)
    requires forall s :: s in cand.copies ==> ep.suite.sigRank(s) in Elems(ranks)
    requires tried == RankedIn(ep.suite, cand.copies, Elems(ranks[..n]))
    requires forall s :: s in tried ==> !Genuine(ep, cand.event, s, keys)
    ensures Charge(tried) <= Charge(FailedCopies(ep, cand, keys))
  {
    if GenuineCopies(ep, cand, keys) != {} {
      var first := FirstRanked(ep.suite, GenuineCopies(ep, cand, keys));
      var k :| 0 <= k < |ranks| && ranks[k] == ep.suite.sigRank(first);
      assert first !in tried;
      forall s | s in tried ensures s in FailedCopies(ep, cand, keys) {
        var j :| 0 <= j < n && ranks[..n][j] == ep.suite.sigRank(s);
      }
    }
    ChargeSubset(tried, FailedCopies(ep, cand, keys));
  }

  lemma SameEvent(ep: Epoch, a: EpochEvent, b: EpochEvent)
    requires Sound(ep.suite) && DigestOf(ep, a) == DigestOf(ep, b)
    ensures a == b
  {
    assert OfEpoch(a) == OfEpoch(b);
  }

  /** What triage has made of the entries seen so far. */
  ghost predicate Sorted(ep: Epoch, held: map<Digest, EpochCopy>, present: set<EpochCopy>, slots: map<Digest, Slot>) {
    && slots.Keys == held.Keys + LocalDigests(ep, present)
    && (forall d :: d in held ==> slots[d] == Slot(held[d].event, [held[d].sigs], Some(held[d].sigs)))
    && (forall d :: d in slots && d !in held ==>
      && slots[d].trusted.None? && Local(ep, slots[d].event) && DigestOf(ep, slots[d].event) == d
      && Elems(slots[d].copies) == CopiesOf(ep, present, d))
  }

  lemma SortedIsCandidates(ep: Epoch, held: map<Digest, EpochCopy>, present: set<EpochCopy>, junk: nat, slots: map<Digest, Slot>)
    requires Sound(ep.suite) && Sorted(ep, held, present, slots)
    ensures GraphIn(slots) == Candidates(ep, View(held, present, junk))
  {
    forall d | d in slots ensures CandidateIn(slots[d]) == Candidates(ep, View(held, present, junk))[d] {
      if d !in held {
        SameEvent(ep, slots[d].event, EventOf(ep, present, d));
      } else {
        assert Elems([held[d].sigs]) == {held[d].sigs};
      }
    }
  }

  /** A slot takes one more copy, unless memory's copy stands in for all of them. */
  function WithCopy(slots: map<Digest, Slot>, d: Digest, x: EpochCopy): map<Digest, Slot> {
    if d !in slots then slots[d := Slot(x.event, [x.sigs], None)]
    else if slots[d].trusted.None? then slots[d := slots[d].(copies := slots[d].copies + [x.sigs])]
    else slots
  }

  lemma CopiesGrow(ep: Epoch, present: set<EpochCopy>, x: EpochCopy, d: Digest)
    ensures CopiesOf(ep, present + {x}, d) ==
      (CopiesOf(ep, present, d) + if DigestOf(ep, x.event) == d then {x.sigs} else {})
  {
    forall s | s in CopiesOf(ep, present, d) ensures s in CopiesOf(ep, present + {x}, d) {
      var y :| y in present && DigestOf(ep, y.event) == d && y.sigs == s;
      assert y in present + {x};
    }
  }

  lemma NoCopiesYet(ep: Epoch, present: set<EpochCopy>, x: EpochCopy)
    requires Sound(ep.suite) && Local(ep, x.event) && DigestOf(ep, x.event) !in LocalDigests(ep, present)
    ensures CopiesOf(ep, present, DigestOf(ep, x.event)) == {}
  {
    forall y | y in present && DigestOf(ep, y.event) == DigestOf(ep, x.event) ensures false {
      SameEvent(ep, y.event, x.event);
    }
  }

  lemma SortedGrows(ep: Epoch, held: map<Digest, EpochCopy>, present: set<EpochCopy>, slots: map<Digest, Slot>, x: EpochCopy)
    requires Sound(ep.suite) && Sorted(ep, held, present, slots) && Local(ep, x.event)
    ensures Sorted(ep, held, present + {x}, WithCopy(slots, DigestOf(ep, x.event), x))
  {
    var d := DigestOf(ep, x.event);
    var grown := WithCopy(slots, d, x);
    assert LocalDigests(ep, present + {x}) == LocalDigests(ep, present) + {d};
    forall k | k in grown && k !in held
      ensures grown[k].trusted.None? && Local(ep, grown[k].event) && DigestOf(ep, grown[k].event) == k
      ensures Elems(grown[k].copies) == CopiesOf(ep, present + {x}, k)
    {
      CopiesGrow(ep, present, x, k);
      if k == d && d in slots {
        ElemsAppend(slots[d].copies, x.sigs);
      } else if k == d {
        NoCopiesYet(ep, present, x);
        assert Elems([x.sigs]) == {x.sigs};
      }
    }
  }

  /** Entries that are no candidates leave what triage made of the rest as it was. */
  lemma SortedKeeps(ep: Epoch, held: map<Digest, EpochCopy>, present: set<EpochCopy>, slots: map<Digest, Slot>, x: EpochCopy)
    requires Sound(ep.suite) && Sorted(ep, held, present, slots) && !Local(ep, x.event)
    ensures Sorted(ep, held, present + {x}, slots)
  {
    assert LocalDigests(ep, present + {x}) == LocalDigests(ep, present);
    forall k | k in slots && k !in held ensures Elems(slots[k].copies) == CopiesOf(ep, present + {x}, k) {
      CopiesGrow(ep, present, x, k);
      assert DigestOf(ep, slots[k].event) == k;
      assert DigestOf(ep, x.event) != k;
    }
  }

  /** Events refused on sight, with why, after one more. */
  ghost predicate RefusalsKept(ep: Epoch, present: set<EpochCopy>, reasons: map<Digest, Reason>) {
    && reasons.Keys == RefusedOnSight(ep, present)
    && (forall d :: d in reasons ==> reasons[d] == RefusalOnSight(ep, present, d))
  }

  lemma RefusalIs(ep: Epoch, present: set<EpochCopy>, x: EpochCopy)
    requires Sound(ep.suite) && x in present && x.event.e == ep.anchor.epoch && Intrinsic(ep, x.event).Some?
    ensures DigestOf(ep, x.event) in RefusedOnSight(ep, present)
    ensures RefusalOnSight(ep, present, DigestOf(ep, x.event)) == Intrinsic(ep, x.event).value
  {
    var d := DigestOf(ep, x.event);
    var y :| y in present && y.event.e == ep.anchor.epoch && Intrinsic(ep, y.event).Some? && DigestOf(ep, y.event) == d
      && RefusalOnSight(ep, present, d) == Intrinsic(ep, y.event).value;
    SameEvent(ep, x.event, y.event);
  }

  lemma RefusalsGrow(ep: Epoch, present: set<EpochCopy>, reasons: map<Digest, Reason>, x: EpochCopy)
    requires Sound(ep.suite) && RefusalsKept(ep, present, reasons)
    ensures x.event.e == ep.anchor.epoch && Intrinsic(ep, x.event).Some?
      ==> RefusalsKept(ep, present + {x}, reasons[DigestOf(ep, x.event) := Intrinsic(ep, x.event).value])
    ensures !(x.event.e == ep.anchor.epoch && Intrinsic(ep, x.event).Some?) ==> RefusalsKept(ep, present + {x}, reasons)
  {
    var more := present + {x};
    forall d | d in RefusedOnSight(ep, present)
      ensures d in RefusedOnSight(ep, more) && RefusalOnSight(ep, more, d) == RefusalOnSight(ep, present, d)
    {
      var y :| y in present && y.event.e == ep.anchor.epoch && Intrinsic(ep, y.event).Some? && DigestOf(ep, y.event) == d;
      RefusalIs(ep, present, y);
      RefusalIs(ep, more, y);
    }
    if x.event.e == ep.anchor.epoch && Intrinsic(ep, x.event).Some? {
      RefusalIs(ep, more, x);
      assert RefusedOnSight(ep, more) == RefusedOnSight(ep, present) + {DigestOf(ep, x.event)};
    } else {
      assert RefusedOnSight(ep, more) == RefusedOnSight(ep, present);
    }
  }

  /** Memory first, so that every presented copy of a held event finds its trusted copy already there. */
  method TriageMemory(ep: Epoch, trusted: seq<EpochEntry>) returns (slots: map<Digest, Slot>)
    ensures Sorted(ep, Held(ep, trusted), {}, slots)
  {
    slots := map[];
    ghost var held: map<Digest, EpochCopy> := map[];
    for k := 0 to |trusted|
      invariant held == Held(ep, trusted[..k])
      invariant Sorted(ep, held, {}, slots)
    {
      var entry := trusted[k];
      assert trusted[..k + 1][..k] == trusted[..k];
      if Usable(ep, entry) {
        var digest := DigestOf(ep, entry.copy.event);
        if digest !in slots {
          slots := slots[digest := Slot(entry.copy.event, [entry.copy.sigs], Some(entry.copy.sigs))];
          held := held[digest := entry.copy];
        }
      }
    }
    assert trusted[..|trusted|] == trusted;
  }

  /** Everything triage keeps: the candidates, the digests of other epochs' events, why events were
      refused on sight, and how many refusals there were. */
  datatype Triaged = Triaged(
    slots: map<Digest, Slot>, others: set<Digest>, reasons: map<Digest, Reason>, rejected: nat)

  ghost predicate TriagedRight(ep: Epoch, held: map<Digest, EpochCopy>, present: set<EpochCopy>, junk: nat, t: Triaged) {
    && Sorted(ep, held, present, t.slots)
    && t.others == OtherEpochs(ep, present)
    && RefusalsKept(ep, present, t.reasons)
    && t.rejected == junk + |t.reasons|
  }

  function WithOther(t: Triaged, d: Digest): Triaged {
    t.(others := t.others + {d})
  }

  function WithRefusal(t: Triaged, d: Digest, reason: Reason): Triaged {
    t.(reasons := t.reasons[d := reason], rejected := if d in t.reasons then t.rejected else t.rejected + 1)
  }

  /** What triage keeps after one more copy. */
  function AfterCopy(ep: Epoch, t: Triaged, copy: EpochCopy): Triaged {
    var d := DigestOf(ep, copy.event);
    if copy.event.e != ep.anchor.epoch then WithOther(t, d)
    else if Intrinsic(ep, copy.event).Some? then WithRefusal(t, d, Intrinsic(ep, copy.event).value)
    else t.(slots := WithCopy(t.slots, d, copy))
  }

  lemma AfterCopyRight(ep: Epoch, held: map<Digest, EpochCopy>, present: set<EpochCopy>, junk: nat, t: Triaged, copy: EpochCopy)
    requires Sound(ep.suite) && TriagedRight(ep, held, present, junk, t)
    ensures TriagedRight(ep, held, present + {copy}, junk, AfterCopy(ep, t, copy))
  {
    hide OtherEpochs, RefusalsKept, Sorted, WithCopy;
    OthersGrow(ep, present, copy);
    RefusalsGrow(ep, present, t.reasons, copy);
    if Local(ep, copy.event) {
      SortedGrows(ep, held, present, t.slots, copy);
    } else {
      SortedKeeps(ep, held, present, t.slots, copy);
    }
  }

  lemma TriagedNothing(ep: Epoch, held: map<Digest, EpochCopy>, slots: map<Digest, Slot>)
    requires Sorted(ep, held, {}, slots)
    ensures TriagedRight(ep, held, {}, 0, Triaged(slots, {}, map[], 0))
  {
  }

  /** Sort what was presented into candidates, events of other epochs and events refused on sight. */
  method Triage(ep: Epoch, trusted: seq<EpochEntry>, events: seq<EpochEntry>) returns (t: Triaged)
    requires Sound(ep.suite)
    ensures var view := ViewOf(ep, trusted, events);
      TriagedRight(ep, view.held, view.present, view.junk, t)
  {
    hide Sorted, OtherEpochs, RefusalsKept;
    t := Triaged(map[], {}, map[], 0);
    var slots := TriageMemory(ep, trusted);
    t := t.(slots := slots);
    ghost var held := Held(ep, trusted);
    TriagedNothing(ep, held, slots);
    ghost var present: set<EpochCopy>, junk: nat := {}, 0;
    for k := 0 to |events|
      invariant present == Present(ep, events[..k]) && junk == JunkCount(ep, events[..k])
      invariant TriagedRight(ep, held, present, junk, t)
    {
      assert events[..k + 1][..k] == events[..k];
      PresentGrows(ep, events, k);
      if !WellFormed(ep, events[k]) {
        t := t.(rejected := t.rejected + 1);
        junk := junk + 1;
      } else {
        var copy := events[k].copy;
        AfterCopyRight(ep, held, present, junk, t, copy);
        var digest, refusal := DigestOf(ep, copy.event), Intrinsic(ep, copy.event);
        if copy.event.e != ep.anchor.epoch {
          t := t.(others := t.others + {digest});
        } else if refusal.Some? {
          if digest !in t.reasons {
            t := t.(rejected := t.rejected + 1);
          }
          t := t.(reasons := t.reasons[digest := refusal.value]);
        } else if digest !in t.slots {
          t := t.(slots := t.slots[digest := Slot(copy.event, [copy.sigs], None)]);
        } else if t.slots[digest].trusted.None? {
          var slot := t.slots[digest];
          t := t.(slots := t.slots[digest := slot.(copies := slot.copies + [copy.sigs])]);
        }
        present := present + {copy};
      }
    }
    assert events[..|events|] == events;
  }

  lemma PresentGrows(ep: Epoch, events: seq<EpochEntry>, k: nat)
    requires k < |events|
    ensures Present(ep, events[..k + 1]) ==
      (Present(ep, events[..k]) + if WellFormed(ep, events[k]) then {events[k].copy} else {})
  {
    assert events[..k + 1] == events[..k] + [events[k]];
    ElemsAppend(events[..k], events[k]);
    assert forall x :: x in events[..k + 1] <==> x in events[..k] || x == events[k];
  }

  lemma OthersGrow(ep: Epoch, present: set<EpochCopy>, x: EpochCopy)
    ensures OtherEpochs(ep, present + {x}) ==
      (OtherEpochs(ep, present) + if x.event.e != ep.anchor.epoch then {DigestOf(ep, x.event)} else {})
  {
    forall d | d in OtherEpochs(ep, present) ensures d in OtherEpochs(ep, present + {x}) {
      var y :| y in present && y.event.e != ep.anchor.epoch && DigestOf(ep, y.event) == d;
      assert y in present + {x};
    }
  }
}
