/** What an accepted delegation says, field by field: who handed each link to whom, when each stands, and what the
    last one rests on. */
module DelegationMeans {
  import opened Basics
  import opened Patterns
  import opened Delegation

  /** `low` was issued by the audience of `high`, about its subject, for no more than it grants, while it stood. */
  ghost predicate Follows(v: Verifier, low: Payload, high: Payload, time: int) {
    && IsCapability(high) && low.sub.Some? && low.act.Some? && low.res.Some?
    && v.normalize(low.iss) == v.normalize(high.aud.value)
    && v.normalize(low.sub.value) == v.normalize(high.sub.value)
    && AllGranted(GrantOf(low), GrantOf(high))
    && Current(high, time)
  }

  ghost predicate Outlived(low: Payload, high: Payload) {
    high.exp.Some? ==> low.exp.Some? && low.exp.value <= high.exp.value
  }

  /** The links of an accepted chain, from the one presented up to the one that ends on the subject. */
  ghost predicate Stands(v: Verifier, capabilities: seq<Token>, time: int, links: seq<Payload>) {
    && IsChain(v, capabilities, time, links)
    && (forall i :: 0 <= i < |links| - 1 ==> Handed(v, links[i], links[i + 1], time))
    && EndsOnSubject(v, links[|links| - 1], time)
  }

  ghost predicate Handed(v: Verifier, low: Payload, high: Payload, time: int) {
    Follows(v, low, high, time) && Outlived(low, high) && v.audienceHolds(low)
  }

  lemma DelegationIff(v: Verifier, from: Payload, to: Payload, time: int)
    requires IsCapability(from) && to.sub.Some? && to.act.Some? && to.res.Some?
    ensures CheckDelegation(v, from, to, time).Passed? <==> Follows(v, to, from, time)
  {
    hide HasPermission, AllGranted;
    HasPermissionMeans(GrantOf(to), GrantOf(from));
  }

  /** A link is refused for what it breaks. */
  lemma LinkRefused(v: Verifier, from: Payload, to: Payload, time: int)
    requires IsCapability(from) && to.sub.Some? && to.act.Some? && to.res.Some? && CheckDelegation(v, from, to, time).Failed?
    ensures match CheckDelegation(v, from, to, time).fault
      case AudienceMismatch => v.normalize(to.iss) != v.normalize(from.aud.value)
      case SubjectMismatch => v.normalize(to.sub.value) != v.normalize(from.sub.value)
      case Expired => from.exp.Some? && from.exp.value < time
      case IssuedInFuture => from.iat.Some? && time < from.iat.value
      case PermissionMismatch => !AllGranted(GrantOf(to), GrantOf(from))
      case _ => false
  {
    hide HasPermission, AllGranted;
    HasPermissionMeans(GrantOf(to), GrantOf(from));
  }

  /** A root is refused for what it breaks. */
  lemma RootRefused(v: Verifier, p: Payload, time: int)
    requires IsCapability(p) && CheckRoot(v, p, time).Failed?
    ensures match CheckRoot(v, p, time).fault
      case IssuerNotSubject => v.normalize(p.iss) != v.normalize(p.sub.value) && p.mbr.None?
      case MemberRootRefused => v.normalize(p.iss) != v.normalize(p.sub.value) && !v.memberRoot(p, time)
      case AudienceRevoked => v.normalize(p.iss) == v.normalize(p.sub.value) && !v.audienceHolds(p)
      case Expired => p.exp.Some? && p.exp.value < time
      case NotYetValid => p.nbf.Some? && time < p.nbf.value
      case IssuedInFuture => p.iat.Some? && time < p.iat.value
      case _ => false
  {
    var checks := [CheckExpiry(p, time), CheckNotBefore(p, time), CheckIssuedAt(p, time)];
    assert checks[1..][1..] == [checks[2]];
    assert First(checks[1..]) == if checks[1].Failed? then checks[1] else First(checks[1..][1..]);
    assert First([checks[2]]) == checks[2];
  }

  /** One more link below a chain that stands. */
  lemma StandsBelow(v: Verifier, capabilities: seq<Token>, time: int, links: seq<Payload>)
    requires |links| == |capabilities| + 1 && capabilities != [] && IsCapability(links[0])
    ensures Stands(v, capabilities, time, links) <==>
      Stands(v, capabilities[1..], time, links[1..]) && v.verify(capabilities[0], time) == Some(links[1]) && Handed(v, links[0], links[1], time)
  {
    hide IsCapability, Handed, EndsOnSubject;
    var rest, above := capabilities[1..], links[1..];
    if Stands(v, capabilities, time, links) {
      forall i | 0 <= i < |rest| ensures v.verify(rest[i], time) == Some(above[i + 1]) {
        assert rest[i] == capabilities[i + 1];
      }
      forall i | 0 <= i < |above| - 1 ensures Handed(v, above[i], above[i + 1], time) {
        assert Handed(v, links[i + 1], links[i + 1 + 1], time);
      }
      assert Handed(v, links[0], links[0 + 1], time);
    }
    if Stands(v, rest, time, above) && v.verify(capabilities[0], time) == Some(links[1]) && Handed(v, links[0], links[1], time) {
      forall i | 0 <= i < |capabilities| ensures v.verify(capabilities[i], time) == Some(links[i + 1]) {
        if i > 0 {
          assert rest[i - 1] == capabilities[i] && above[i] == links[i + 1];
        }
      }
      forall i | 0 <= i < |links| ensures IsCapability(links[i]) {
        if i > 0 {
          assert above[i - 1] == links[i];
        }
      }
      forall i | 0 <= i < |links| - 1 ensures Handed(v, links[i], links[i + 1], time) {
        if i > 0 {
          assert Handed(v, above[i - 1], above[i], time);
        }
      }
    }
  }

  /** The links behind a capability: it, and what its tokens verify as. */
  ghost predicate Behind(v: Verifier, p: Payload, capabilities: seq<Token>, time: int) {
    exists links: seq<Payload> :: links != [] && links[0] == p && Stands(v, capabilities, time, links)
  }

  /** A chain is accepted exactly when it is short enough and, link by link, stands. */
  lemma {:induction false} ChainIff(v: Verifier, p: Payload, capabilities: seq<Token>, time: int, maxDepth: nat)
    requires IsCapability(p)
    ensures CheckDelegationChain(v, p, capabilities, time, maxDepth).Passed? <==>
      |capabilities| <= maxDepth && Behind(v, p, capabilities, time)
    decreases |capabilities|
  {
    hide IsCapability, CheckRoot, CheckDelegation, EndsOnSubject, Handed, Follows, Stands;
    if capabilities == [] {
      LoneLink(v, p, time);
    } else if v.verify(capabilities[0], time).Some? && IsCapability(v.verify(capabilities[0], time).value) {
      var next := v.verify(capabilities[0], time).value;
      ChainIff(v, next, capabilities[1..], time, maxDepth);
      NextLink(v, p, next, capabilities, time);
      LinkIff(v, next, p, time);
    } else if Behind(v, p, capabilities, time) {
      FirstLink(v, p, capabilities, time);
    }
  }

  lemma LinkIff(v: Verifier, from: Payload, to: Payload, time: int)
    requires IsCapability(from) && IsCapability(to)
    ensures Handed(v, to, from, time) <==>
      CheckDelegation(v, from, to, time).Passed? && CheckExpiryWithinParent(from, to).Passed? && v.audienceHolds(to)
  {
    hide CheckDelegation, Follows;
    DelegationIff(v, from, to, time);
  }

  lemma LoneLink(v: Verifier, p: Payload, time: int)
    requires IsCapability(p)
    ensures CheckRoot(v, p, time).Passed? <==> Behind(v, p, [], time)
  {
    hide CheckRoot, EndsOnSubject, Handed;
    RootIff(v, p, time);
    if CheckRoot(v, p, time).Passed? {
      assert Stands(v, [], time, [p]) && [p][0] == p;
    }
    if Behind(v, p, [], time) {
      var links: seq<Payload> :| links != [] && links[0] == p && Stands(v, [], time, links);
      assert links == [p];
    }
  }

  lemma NextLink(v: Verifier, p: Payload, next: Payload, capabilities: seq<Token>, time: int)
    requires IsCapability(p) && capabilities != [] && v.verify(capabilities[0], time) == Some(next)
    ensures Behind(v, p, capabilities, time) <==> Handed(v, p, next, time) && Behind(v, next, capabilities[1..], time)
  {
    hide IsCapability, EndsOnSubject, Handed, Stands;
    if Behind(v, p, capabilities, time) {
      var links: seq<Payload> :| links != [] && links[0] == p && Stands(v, capabilities, time, links);
      ChainLength(v, capabilities, time, links);
      StandsBelow(v, capabilities, time, links);
      assert links[1..][0] == next;
    }
    if Handed(v, p, next, time) && Behind(v, next, capabilities[1..], time) {
      var above: seq<Payload> :| above != [] && above[0] == next && Stands(v, capabilities[1..], time, above);
      ChainLength(v, capabilities[1..], time, above);
      var links := [p] + above;
      assert links[1..] == above;
      StandsBelow(v, capabilities, time, links);
    }
  }

  lemma ChainLength(v: Verifier, capabilities: seq<Token>, time: int, links: seq<Payload>)
    requires Stands(v, capabilities, time, links)
    ensures |links| == |capabilities| + 1
  {
    hide EndsOnSubject, Handed;
  }

  lemma FirstLink(v: Verifier, p: Payload, capabilities: seq<Token>, time: int)
    requires capabilities != [] && Behind(v, p, capabilities, time)
    ensures v.verify(capabilities[0], time).Some? && IsCapability(v.verify(capabilities[0], time).value)
  {
    hide EndsOnSubject, Handed, IsCapability;
    var links: seq<Payload> :| links != [] && links[0] == p && Stands(v, capabilities, time, links);
    assert IsCapability(links[1]) && v.verify(capabilities[0], time) == Some(links[0 + 1]);
  }

  // ---------------------------------------------------------------- a permission asked for

  /** A payload's own grant lets a permission through. */
  ghost predicate OwnGrant(permission: Permission, p: Payload) {
    p.act.Some? && p.res.Some? && AllGranted(permission, Permission(p.act.value, p.res.value))
  }

  /** A subject's own token is accepted exactly when it stands and grants the permission. */
  lemma SubjectIff(v: Verifier, permission: Permission, p: Payload, time: int, maxDepth: nat)
    requires p.sub.Some? && v.normalize(p.iss) == v.normalize(p.sub.value)
    ensures CheckCapability(v, permission, p, time, maxDepth).Passed? <==>
      Current(p, time) && Begun(p, time) && v.audienceHolds(p) && OwnGrant(permission, p)
  {
    hide AllGranted, HasPermission, CheckTimes;
    TimesIff(p, time);
    if p.act.Some? && p.res.Some? {
      HasPermissionMeans(permission, GrantOf(p));
    }
  }

  /** A member's own token is accepted exactly when it grants the permission and the subject's log stands behind it. */
  lemma MemberIff(v: Verifier, permission: Permission, p: Payload, time: int, maxDepth: nat)
    requires p.sub.Some? && v.normalize(p.iss) != v.normalize(p.sub.value) && p.cap.None? && p.mbr.Some?
    ensures CheckCapability(v, permission, p, time, maxDepth).Passed? <==> OwnGrant(permission, p) && v.memberRoot(p, time)
  {
    hide AllGranted, HasPermission;
    if p.act.Some? && p.res.Some? {
      HasPermissionMeans(permission, GrantOf(p));
    }
  }

  /** Any other payload rests on the chain it carries: the first capability was granted to its issuer and stands
      behind the permission, and so on up to the subject. One that makes a grant of its own is held to it as well. */
  ghost predicate Rests(v: Verifier, permission: Permission, p: Payload, time: int, maxDepth: nat) {
    && p.sub.Some? && p.cap.Some? && 0 < |p.cap.value| <= maxDepth
    && v.verify(p.cap.value[0], time).Some?
    && var first := v.verify(p.cap.value[0], time).value;
    && Behind(v, first, p.cap.value[1..], time)
    && if p.act.Some? && p.res.Some?
       then OwnGrant(permission, p) && Current(p, time) && Begun(p, time) && Handed(v, p, first, time)
       else Follows(v, p.(act := Some(permission.act), res := Some(permission.res)), first, time)
  }

  lemma {:induction false} DelegatedIff(v: Verifier, permission: Permission, p: Payload, time: int, maxDepth: nat)
    requires p.sub.Some? && v.normalize(p.iss) != v.normalize(p.sub.value) && (p.cap.Some? || p.mbr.None?)
    ensures CheckCapability(v, permission, p, time, maxDepth).Passed? <==> Rests(v, permission, p, time, maxDepth)
  {
    hide AllGranted, HasPermission, CheckDelegation, CheckDelegationChain, Behind, Follows, CheckTimes;
    TimesIff(p, time);
    if p.cap.Some? && p.cap.value != [] && v.verify(p.cap.value[0], time).Some? {
      var first, rest := v.verify(p.cap.value[0], time).value, p.cap.value[1..];
      BehindCapability(v, first, rest, time);
      if IsCapability(first) {
        ChainIff(v, first, rest, time, maxDepth);
        DelegationIff(v, first, AsCapability(p, permission), time);
      }
      if p.act.Some? && p.res.Some? {
        HasPermissionMeans(permission, GrantOf(p));
      }
    }
  }

  lemma BehindCapability(v: Verifier, p: Payload, capabilities: seq<Token>, time: int)
    ensures Behind(v, p, capabilities, time) ==> IsCapability(p)
  {
    hide EndsOnSubject, Handed, IsCapability;
    if Behind(v, p, capabilities, time) {
      var links: seq<Payload> :| links != [] && links[0] == p && Stands(v, capabilities, time, links);
      assert IsCapability(links[0]);
    }
  }

  /** And a payload about nobody is never accepted. */
  lemma NobodysRefused(v: Verifier, permission: Permission, p: Payload, time: int, maxDepth: nat)
    requires p.sub.None?
    ensures CheckCapability(v, permission, p, time, maxDepth).Failed?
  {
  }
}
