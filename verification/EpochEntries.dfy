/** What becomes of each entry a merge is given, in the entry's own fields. */
module EpochEntries {
  import opened Basics
  import opened Events
  import opened EpochSpec
  import opened EpochMemory

  /** An entry within its limits: signatures, parents without repetition, whole seconds where it has them, size. */
  ghost predicate WithinLimits(c: Suite, entry: EpochEntry) {
    && entry.Typed?
    && var (event, sigs) := (entry.copy.event, entry.copy.sigs);
    && 1 <= |sigs| <= 16 && 1 <= |event.p| <= 16 && c.size(event) <= 8192
    && (forall i, j :: 0 <= i < j < |event.p| ==> event.p[i] != event.p[j])
    && 0 <= event.g < 0x20_0000_0000_0000
    && (event.action.Add? || event.action.Renew? ==> 0 <= event.action.lease < 0x20_0000_0000_0000)
  }

  /** An event of this epoch: its opening, its controller, its generation. */
  ghost predicate OfThisEpoch(ep: Epoch, event: EpochEvent) {
    event.e == ep.anchor.epoch && event.i == ep.did && event.g == ep.anchor.gen
  }

  lemma LimitsIff(ep: Epoch, entry: EpochEntry)
    ensures WellFormed(ep, entry) <==> WithinLimits(ep.suite, entry)
    ensures entry.Typed? ==> (Local(ep, entry.copy.event) <==> OfThisEpoch(ep, entry.copy.event))
  {
  }

  /** One more entry presented is one more copy, or one more refused. */
  lemma EntryTaken(ep: Epoch, trusted: seq<EpochEntry>, events: seq<EpochEntry>, entry: EpochEntry)
    ensures var view, more := ViewOf(ep, trusted, events), ViewOf(ep, trusted, events + [entry]);
      more == if WithinLimits(ep.suite, entry) then view.(present := view.present + {entry.copy}) else view.(junk := view.junk + 1)
  {
    hide WithinLimits, WellFormed;
    LimitsIff(ep, entry);
    var all := events + [entry];
    assert all[..|all| - 1] == events;
    assert forall x :: x in all <==> x in events || x == entry;
    if WellFormed(ep, entry) {
      WellTyped(ep, entry);
    }
    forall x ensures x in Present(ep, all) <==> x in Present(ep, events) || (WellFormed(ep, entry) && x == entry.copy) {
    }
  }

  lemma WellTyped(ep: Epoch, entry: EpochEntry)
    requires WellFormed(ep, entry)
    ensures entry.Typed? && entry == Typed(entry.copy)
  {
  }

  /** An entry outside the limits changes nothing but how many are refused. */
  lemma JunkOnlyCounted(ep: Epoch, trusted: seq<EpochEntry>, events: seq<EpochEntry>, entry: EpochEntry, maxEvents: nat)
    requires !WithinLimits(ep.suite, entry)
    ensures var r, more := FoldSpec(ep, ViewOf(ep, trusted, events), maxEvents), FoldSpec(ep, ViewOf(ep, trusted, events + [entry]), maxEvents);
      more == if r.Merged? then r.(rejected := r.rejected + 1) else r
  {
    hide WithinLimits, ViewOf, Applied, Charges, Union, AuthenticCopies, MembersOf, Evaluated, After, GraphOf, CrossEpoch, Reasons, RefusedOnSight, Total;
    EntryTaken(ep, trusted, events, entry);
    var view, more := ViewOf(ep, trusted, events), ViewOf(ep, trusted, events + [entry]);
    JunkAside(ep, view, more);
  }

  lemma JunkAside(ep: Epoch, a: View, b: View)
    requires b == a.(junk := b.junk)
    ensures GraphOf(ep, b) == GraphOf(ep, a) && CrossEpoch(ep, b) == CrossEpoch(ep, a) && Reasons(ep, b) == Reasons(ep, a)
  {
    assert Candidates(ep, b) == Candidates(ep, a);
  }

  /** Memory's copy of an event is the first it holds, of those within their limits and of this epoch. */
  ghost predicate FirstHeld(ep: Epoch, trusted: seq<EpochEntry>, i: int) {
    && 0 <= i < |trusted| && trusted[i].Typed? && Fits(ep, trusted[i])
    && forall j :: 0 <= j < i && Fits(ep, trusted[j]) ==> DigestOf(ep, trusted[j].copy.event) != DigestOf(ep, trusted[i].copy.event)
  }

  ghost predicate Fits(ep: Epoch, entry: EpochEntry) {
    WithinLimits(ep.suite, entry) && OfThisEpoch(ep, entry.copy.event)
  }

  lemma FitsIff(ep: Epoch, entry: EpochEntry)
    ensures Fits(ep, entry) <==> Usable(ep, entry)
    ensures Fits(ep, entry) ==> entry.Typed?
  {
    LimitsIff(ep, entry);
  }

  lemma {:induction false} HeldFirst(ep: Epoch, trusted: seq<EpochEntry>)
    ensures forall i :: FirstHeld(ep, trusted, i) ==>
      DigestOf(ep, trusted[i].copy.event) in Held(ep, trusted) && Held(ep, trusted)[DigestOf(ep, trusted[i].copy.event)] == trusted[i].copy
    ensures forall i :: 0 <= i < |trusted| && Fits(ep, trusted[i]) ==> DigestOf(ep, trusted[i].copy.event) in Held(ep, trusted)
    ensures forall d :: d in Held(ep, trusted) ==> exists i :: FirstHeld(ep, trusted, i) && DigestOf(ep, trusted[i].copy.event) == d
  {
    hide WithinLimits, OfThisEpoch, Usable;
    if trusted != [] {
      var n := |trusted| - 1;
      var rest := trusted[..n];
      HeldFirst(ep, rest);
      forall i ensures i < n ==> (FirstHeld(ep, trusted, i) <==> FirstHeld(ep, rest, i)) {
      }
      FitsIff(ep, trusted[n]);
      if Fits(ep, trusted[n]) && DigestOf(ep, trusted[n].copy.event) !in Held(ep, rest) {
        assert FirstHeld(ep, trusted, n);
      }
      forall d | d in Held(ep, rest) ensures exists i :: FirstHeld(ep, trusted, i) && DigestOf(ep, trusted[i].copy.event) == d {
        var i :| FirstHeld(ep, rest, i) && DigestOf(ep, rest[i].copy.event) == d;
        assert FirstHeld(ep, trusted, i);
      }
    }
  }

  /** The digest of an event that takes part: memory holds it, or a copy of this epoch was presented. */
  ghost predicate TakesPart(ep: Epoch, view: View, d: Digest) {
    d in view.held || exists x :: x in view.present && OfThisEpoch(ep, x.event) && DigestOf(ep, x.event) == d
  }

  /** A parent that belongs elsewhere: not the opening, not one that takes part, but on the chain or presented as
      another epoch's. */
  ghost predicate Elsewhere(ep: Epoch, view: View, q: Digest) {
    && q != ep.anchor.epoch && !TakesPart(ep, view, q)
    && (q in ep.chain || exists x :: x in view.present && x.event.e != ep.anchor.epoch && DigestOf(ep, x.event) == q)
  }

  lemma CandidatesAre(ep: Epoch, view: View, d: Digest)
    ensures d in Candidates(ep, view) <==> TakesPart(ep, view, d)
  {
    if x :| x in view.present && OfThisEpoch(ep, x.event) && DigestOf(ep, x.event) == d {
      assert Local(ep, x.event);
    }
    if x :| x in view.present && Local(ep, x.event) && DigestOf(ep, x.event) == d {
      assert OfThisEpoch(ep, x.event);
    }
  }

  /** An event is judged in the epoch when it takes part and names no parent that belongs elsewhere; one that takes
      part and does, is refused for it. */
  lemma {:induction false} JudgedIff(ep: Epoch, view: View, d: Digest)
    requires WellView(ep, view)
    ensures d in GraphOf(ep, view) ==> TakesPart(ep, view, d) && forall q :: q in GraphOf(ep, view)[d].event.p ==> !Elsewhere(ep, view, q)
    ensures TakesPart(ep, view, d) && d !in GraphOf(ep, view) ==>
      d in Candidates(ep, view) && exists q :: q in Candidates(ep, view)[d].event.p && Elsewhere(ep, view, q)
  {
    hide TakesPart, Candidates, OfThisEpoch, WellView;
    CandidatesAre(ep, view, d);
    if d in Candidates(ep, view) {
      forall q ensures (q != ep.anchor.epoch && q !in Candidates(ep, view) && (q in OtherEpochs(ep, view.present) || q in ep.chain)) <==> Elsewhere(ep, view, q) {
        CandidatesAre(ep, view, q);
      }
    }
  }
}
