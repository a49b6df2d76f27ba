/** Which copies of a decision are kept. */
module ApplyCopies {
  // Of each signer the one whose hash sorts first is kept, and every copy that names no signer or no longer
  // verifies, whatever order they arrive in.

  import opened Basics
  import opened Apply

  /** A copy that verifies and whose signer can be read. */
  predicate Named(x: Copy) {
    x.op.Some? && x.signer.Some?
  }

  predicate By(x: Copy, signer: int) {
    x.op.Some? && x.signer == Some(signer)
  }

  ghost predicate OnePerSigner(copies: seq<Copy>) {
    forall i, j :: 0 <= i < j < |copies| && Named(copies[i]) && Named(copies[j]) ==> copies[i].signer != copies[j].signer
  }

  /** The copies that are not `signer`'s, in order. */
  function NotBy(copies: seq<Copy>, signer: int): (r: seq<Copy>)
    ensures forall x :: x in r <==> x in copies && !By(x, signer)
  {
    if copies == [] then []
    else
      var n := |copies| - 1;
      assert copies == copies[..n] + [copies[n]];
      if By(copies[n], signer) then NotBy(copies[..n], signer) else NotBy(copies[..n], signer) + [copies[n]]
  }

  /** Those that name no signer, in order. */
  function Unnamed(copies: seq<Copy>): seq<Copy> {
    if copies == [] then []
    else
      var rest, last := Unnamed(copies[..|copies| - 1]), copies[|copies| - 1];
      if Named(last) then rest else rest + [last]
  }

  predicate Stays(x: Copy, copy: Copy) {
    x.op.None? || copy.signer.None? || x.signer != copy.signer || x.opHash < copy.opHash
  }

  lemma {:induction false} RetainedMembers(copies: seq<Copy>, copy: Copy)
    ensures forall x :: x in Retained(copies, copy) <==> x in copies && Stays(x, copy)
  {
    if copies != [] {
      var n := |copies| - 1;
      assert copies == copies[..n] + [copies[n]];
      RetainedMembers(copies[..n], copy);
    }
  }

  lemma {:induction false} RetainedOrders(copies: seq<Copy>, copy: Copy)
    ensures Unnamed(Retained(copies, copy)) == Unnamed(copies)
    ensures copy.signer.None? ==> Retained(copies, copy) == copies
    ensures copy.signer.Some? ==> NotBy(Retained(copies, copy), copy.signer.value) == NotBy(copies, copy.signer.value)
  {
    if copies != [] {
      var n := |copies| - 1;
      var rest, last := Retained(copies[..n], copy), copies[n];
      assert copies == copies[..n] + [last];
      RetainedOrders(copies[..n], copy);
      assert (rest + [last])[..|rest|] == rest;
    }
  }

  lemma {:induction false} RetainedOne(copies: seq<Copy>, copy: Copy)
    requires OnePerSigner(copies)
    ensures OnePerSigner(Retained(copies, copy))
  {
    if copies != [] {
      var n := |copies| - 1;
      var rest, last := Retained(copies[..n], copy), copies[n];
      RetainedOne(copies[..n], copy);
      RetainedMembers(copies[..n], copy);
      forall i | 0 <= i < |rest| && Named(rest[i]) && Named(last) ensures rest[i].signer != last.signer {
        assert rest[i] in copies[..n];
      }
    }
  }

  /** `after` is `copies` once `copy` has arrived. */
  ghost predicate TookIn(copies: seq<Copy>, copy: Copy, after: seq<Copy>) {
    && OnePerSigner(after)
    && Unnamed(after) == Unnamed(copies) + (if copy.signer.None? then [copy] else [])
    && (copy.signer.None? ==> after == copies + [copy])
    && (copy.signer.Some? ==> NotBy(after, copy.signer.value) == NotBy(copies, copy.signer.value))
    && (copy.signer.Some? ==> forall x :: By(x, copy.signer.value) ==>
      (x in after <==> if FirstBy(copies, copy) then x in copies else x == copy))
  }

  /** What one arrival does: every other signer's copies and every unnamed one stay as they were, in order; its
      signer is left with one copy, the arrival unless one it had sorts first. */
  lemma {:induction false} RememberedOne(copies: seq<Copy>, copy: Copy)
    requires OnePerSigner(copies) && copy.op.Some?
    ensures TookIn(copies, copy, Remember(copies, copy))
    ensures StoodFor(Retained(copies, copy), copy) <==> copy.signer.Some? && FirstBy(copies, copy)
  {
    hide Retained, NotBy, Unnamed, OnePerSigner, StoodFor;
    RetainedMembers(copies, copy);
    RetainedOrders(copies, copy);
    RetainedOne(copies, copy);
    StoodForIff(copies, copy);
    if !StoodFor(Retained(copies, copy), copy) {
      Appended(Retained(copies, copy), copy);
    }
  }

  lemma StoodForIff(copies: seq<Copy>, copy: Copy)
    requires copy.op.Some?
    ensures StoodFor(Retained(copies, copy), copy) <==> copy.signer.Some? && FirstBy(copies, copy)
  {
    hide Retained;
    RetainedMembers(copies, copy);
  }

  lemma Appended(retained: seq<Copy>, copy: Copy)
    requires OnePerSigner(retained) && copy.op.Some? && !StoodFor(retained, copy)
    requires forall x :: x in retained ==> Stays(x, copy)
    ensures OnePerSigner(retained + [copy])
    ensures Unnamed(retained + [copy]) == Unnamed(retained) + (if copy.signer.None? then [copy] else [])
    ensures copy.signer.Some? ==> NotBy(retained + [copy], copy.signer.value) == NotBy(retained, copy.signer.value)
    ensures copy.signer.Some? ==> forall x :: x in retained ==> !By(x, copy.signer.value)
  {
    var r := retained + [copy];
    assert r[..|r| - 1] == retained;
    forall i | 0 <= i < |retained| && Named(retained[i]) ensures copy.signer.Some? ==> retained[i].signer != copy.signer {
      assert retained[i] in retained && Stays(retained[i], copy);
    }
  }

  /** Whether a signer already has a copy that sorts before one arriving. */
  predicate FirstBy(copies: seq<Copy>, copy: Copy) {
    exists held :: held in copies && Named(held) && held.signer == copy.signer && held.opHash < copy.opHash
  }

  function RememberAll(copies: seq<Copy>, arrivals: seq<Copy>): seq<Copy> {
    if arrivals == [] then copies
    else Remember(RememberAll(copies, arrivals[..|arrivals| - 1]), arrivals[|arrivals| - 1])
  }

  /** A signer's copy that none of its copies sorts before. */
  ghost predicate IsFirst(all: seq<Copy>, x: Copy) {
    x in all && Named(x) && forall y :: y in all && Named(y) && y.signer == x.signer ==> x.opHash <= y.opHash
  }

  /** A hash is of one copy. */
  ghost predicate HashesTell(all: seq<Copy>) {
    forall x, y :: x in all && y in all && Named(x) && Named(y) && x.opHash == y.opHash ==> x == y
  }

  /** After any arrivals each signer that sent a copy has one, and it is the first of all it sent; whatever names
      no signer is there as often and in the order it came. */
  lemma {:induction false} KeepsFirst(copies: seq<Copy>, arrivals: seq<Copy>)
    requires OnePerSigner(copies) && (forall x :: x in arrivals ==> x.op.Some?) && HashesTell(copies + arrivals)
    ensures var r := RememberAll(copies, arrivals);
      && OnePerSigner(r) && Unnamed(r) == Unnamed(copies) + Unnamed(arrivals)
      && forall x :: Named(x) ==> (x in r <==> IsFirst(copies + arrivals, x))
  {
    hide HashesTell, FirstBy, Remember, NotBy, IsFirst, OnePerSigner;
    if arrivals == [] {
      assert copies + arrivals == copies;
      FirstAlready(copies);
    } else {
      var n := |arrivals| - 1;
      var before, copy := RememberAll(copies, arrivals[..n]), arrivals[n];
      assert copies + arrivals == copies + arrivals[..n] + [copy];
      TellsLess(copies + arrivals[..n], copy);
      KeepsFirst(copies, arrivals[..n]);
      RememberedOne(before, copy);
      forall x | Named(x) ensures x in Remember(before, copy) <==> IsFirst(copies + arrivals, x) {
        FirstNext(copies + arrivals[..n], before, copy, x);
      }
    }
  }

  lemma TellsLess(all: seq<Copy>, copy: Copy)
    requires HashesTell(all + [copy])
    ensures HashesTell(all)
  {
    assert forall x :: x in all ==> x in all + [copy];
  }

  lemma FirstAlready(copies: seq<Copy>)
    requires OnePerSigner(copies)
    ensures forall x :: Named(x) ==> (x in copies <==> IsFirst(copies, x))
  {
  }

  lemma FirstExists(all: seq<Copy>, y: Copy) returns (z: Copy)
    requires y in all && Named(y)
    ensures IsFirst(all, z) && z.signer == y.signer && z.opHash <= y.opHash
  {
    var hashes := set x | x in all && Named(x) && x.signer == y.signer :: x.opHash;
    assert y.opHash in hashes;
    var least := Min(hashes);
    assert forall h :: h in hashes ==> least <= h;
    z :| z in all && Named(z) && z.signer == y.signer && z.opHash == least;
    forall x | x in all && Named(x) && x.signer == z.signer ensures z.opHash <= x.opHash {
      assert x.opHash in hashes;
    }
  }

  lemma FirstNext(all: seq<Copy>, before: seq<Copy>, copy: Copy, x: Copy)
    requires Named(x) && copy.op.Some? && HashesTell(all + [copy])
    requires forall y :: Named(y) ==> (y in before <==> IsFirst(all, y))
    requires copy.signer.None? ==> Remember(before, copy) == before + [copy]
    requires copy.signer.Some? ==> NotBy(Remember(before, copy), copy.signer.value) == NotBy(before, copy.signer.value)
    requires copy.signer.Some? ==> forall y :: By(y, copy.signer.value) ==>
      (y in Remember(before, copy) <==> if FirstBy(before, copy) then y in before else y == copy)
    ensures x in Remember(before, copy) <==> IsFirst(all + [copy], x)
  {
    hide Remember, NotBy, HashesTell, IsFirst, FirstBy;
    if copy.signer != x.signer {
      FirstOther(all, copy, x);
      if copy.signer.Some? {
        assert x in NotBy(before, copy.signer.value) <==> x in before;
        assert x in NotBy(Remember(before, copy), copy.signer.value) <==> x in Remember(before, copy);
      }
    } else if FirstBy(before, copy) {
      FirstHeld(all, before, copy, x);
    } else {
      FirstArriving(all, before, copy, x);
    }
  }

  lemma FirstOther(all: seq<Copy>, copy: Copy, x: Copy)
    requires copy.signer != x.signer
    ensures IsFirst(all + [copy], x) <==> IsFirst(all, x)
  {
  }

  lemma FirstHeld(all: seq<Copy>, before: seq<Copy>, copy: Copy, x: Copy)
    requires Named(x) && copy.signer == x.signer && FirstBy(before, copy)
    requires forall y :: Named(y) && y in before ==> IsFirst(all, y)
    ensures IsFirst(all + [copy], x) <==> IsFirst(all, x)
  {
    var held :| held in before && Named(held) && held.signer == copy.signer && held.opHash < copy.opHash;
    assert IsFirst(all, held) && held in all + [copy];
  }

  lemma FirstArriving(all: seq<Copy>, before: seq<Copy>, copy: Copy, x: Copy)
    requires Named(x) && copy.op.Some? && copy.signer == x.signer && !FirstBy(before, copy) && HashesTell(all + [copy])
    requires forall y :: Named(y) && IsFirst(all, y) ==> y in before
    ensures IsFirst(all + [copy], x) <==> x == copy
  {
    assert copy in all + [copy];
    forall y | y in all && Named(y) && y.signer == copy.signer ensures copy.opHash <= y.opHash {
      var z := FirstExists(all, y);
    }
  }

  lemma {:induction false} TimesKept(copies: seq<Copy>, x: Copy)
    requires OnePerSigner(copies)
    ensures multiset(copies)[x] == if Named(x) then (if x in copies then 1 else 0) else multiset(Unnamed(copies))[x]
  {
    if copies != [] {
      var n := |copies| - 1;
      assert copies == copies[..n] + [copies[n]];
      TimesKept(copies[..n], x);
      if Named(copies[n]) {
        forall i | 0 <= i < n ensures copies[i] != copies[n] {
        }
      }
    }
  }

  lemma {:induction false} UnnamedTimes(copies: seq<Copy>, x: Copy)
    ensures multiset(Unnamed(copies))[x] == if Named(x) then 0 else multiset(copies)[x]
  {
    if copies != [] {
      var n := |copies| - 1;
      assert copies == copies[..n] + [copies[n]];
      UnnamedTimes(copies[..n], x);
    }
  }

  /** What is kept does not depend on the order of arrival. */
  lemma {:induction false} AnyOrderKeeps(copies: seq<Copy>, a: seq<Copy>, b: seq<Copy>)
    requires OnePerSigner(copies) && multiset(a) == multiset(b)
    requires (forall x :: x in a ==> x.op.Some?) && HashesTell(copies + a)
    ensures multiset(RememberAll(copies, a)) == multiset(RememberAll(copies, b))
  {
    hide RememberAll, HashesTell, OnePerSigner, Unnamed;
    SameArrivals(copies, a, b);
    KeepsFirst(copies, a);
    KeepsFirst(copies, b);
    var r, s := RememberAll(copies, a), RememberAll(copies, b);
    forall x ensures multiset(r)[x] == multiset(s)[x] {
      TimesKept(r, x);
      TimesKept(s, x);
      UnnamedTimes(a, x);
      UnnamedTimes(b, x);
      if !Named(x) {
        assert multiset(Unnamed(r))[x] == multiset(Unnamed(copies))[x] + multiset(Unnamed(a))[x];
        assert multiset(Unnamed(s))[x] == multiset(Unnamed(copies))[x] + multiset(Unnamed(b))[x];
      }
    }
  }

  lemma SameArrivals(copies: seq<Copy>, a: seq<Copy>, b: seq<Copy>)
    requires multiset(a) == multiset(b)
    ensures forall x :: x in b <==> x in a
    ensures forall x :: x in copies + b <==> x in copies + a
    ensures HashesTell(copies + a) <==> HashesTell(copies + b)
    ensures forall x :: IsFirst(copies + a, x) <==> IsFirst(copies + b, x)
  {
    SameMembers(a, b);
  }
}
