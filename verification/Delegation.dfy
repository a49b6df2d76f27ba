/** Delegation chains: each capability within the one that granted it, up to a root the subject stands
    behind. */
module Delegation {
  import opened Basics
  import opened Patterns

  type Did = int
  type Token = int

  datatype MemberClaim = MemberClaim(add: int, g: int)

  /** A signed payload. A capability names an audience, an action and a resource; an invocation names
      neither of the last two and carries its authority in `cap`. */
  datatype Payload = Payload(
    iss: Did, sub: Option<Did>, aud: Option<Did>, act: Option<Pattern>, res: Option<Pattern>,
    exp: Option<int>, iat: Option<int>, nbf: Option<int>, mbr: Option<MemberClaim>, cap: Option<seq<Token>>)

  /** What a verifier is given: the verified payload of a token at a time (once its hook accepts it), whether
      an audience is revoked by the subject, and whether a member-issued root stands. */
  datatype Verifier = Verifier(
    normalize: Did -> Did,
    verify: (Token, int) -> Option<Payload>,
    audienceHolds: Payload -> bool,
    memberRoot: (Payload, int) -> bool)

  datatype Fault =
    | NoSubject | TooDeep | IssuerNotSubject | MemberRootRefused | AudienceRevoked
    | Expired | NotYetValid | IssuedInFuture | NotVerified | NotCapability
    | AudienceMismatch | SubjectMismatch | PermissionMismatch | OutlivesParent
    | NoGrant | NotGranted | NoCapability

  datatype Check = Passed | Failed(fault: Fault)

  predicate IsCapability(p: Payload) {
    p.sub.Some? && p.aud.Some? && p.act.Some? && p.res.Some?
  }

  function GrantOf(p: Payload): Permission
    requires p.act.Some? && p.res.Some?
  {
    Permission(p.act.value, p.res.value)
  }

  function CheckExpiry(p: Payload, time: int): Check {
    if p.exp.Some? && p.exp.value < time then Failed(Expired) else Passed
  }

  function CheckIssuedAt(p: Payload, time: int): Check {
    if p.iat.Some? && p.iat.value > time then Failed(IssuedInFuture) else Passed
  }

  function CheckNotBefore(p: Payload, time: int): Check {
    if p.nbf.Some? && p.nbf.value > time then Failed(NotYetValid) else Passed
  }

  /** The first failure of several checks. */
  function First(checks: seq<Check>): Check {
    if checks == [] then Passed else if checks[0].Failed? then checks[0] else First(checks[1..])
  }

  function CheckTimes(p: Payload, time: int): Check {
    First([CheckExpiry(p, time), CheckNotBefore(p, time), CheckIssuedAt(p, time)])
  }

  function CheckExpiryWithinParent(parent: Payload, child: Payload): Check {
    if parent.exp.Some? && (child.exp.None? || child.exp.value > parent.exp.value) then Failed(OutlivesParent) else Passed
  }

  /** Whether one capability follows from another. */
  function CheckDelegation(v: Verifier, from: Payload, to: Payload, time: int): Check
    requires IsCapability(from) && to.sub.Some? && to.act.Some? && to.res.Some?
  {
    if v.normalize(to.iss) != v.normalize(from.aud.value) then Failed(AudienceMismatch)
    else if v.normalize(to.sub.value) != v.normalize(from.sub.value) then Failed(SubjectMismatch)
    else if CheckExpiry(from, time).Failed? then CheckExpiry(from, time)
    else if CheckIssuedAt(from, time).Failed? then CheckIssuedAt(from, time)
    else if !HasPermission(GrantOf(to), GrantOf(from)) then Failed(PermissionMismatch)
    else Passed
  }

  /** A capability no other backs: the subject's own, or a member's on its behalf. */
  function CheckRoot(v: Verifier, p: Payload, time: int): Check
    requires IsCapability(p)
  {
    if v.normalize(p.iss) != v.normalize(p.sub.value) then
      if p.mbr.None? then Failed(IssuerNotSubject)
      else if !v.memberRoot(p, time) then Failed(MemberRootRefused)
      else Passed
    else if !v.audienceHolds(p) then Failed(AudienceRevoked)
    else CheckTimes(p, time)
  }

  /** Walk the capabilities behind a payload up to their root. */
  function CheckDelegationChain(v: Verifier, p: Payload, capabilities: seq<Token>, time: int, maxDepth: nat): Check
    requires IsCapability(p)
    decreases |capabilities|
  {
    if |capabilities| > maxDepth then Failed(TooDeep)
    else if capabilities == [] then CheckRoot(v, p, time)
    else if !v.audienceHolds(p) then Failed(AudienceRevoked)
    else
      var next := v.verify(capabilities[0], time);
      if next.None? then Failed(NotVerified)
      else if !IsCapability(next.value) then Failed(NotCapability)
      else if CheckDelegation(v, next.value, p, time).Failed? then CheckDelegation(v, next.value, p, time)
      else if CheckExpiryWithinParent(next.value, p).Failed? then Failed(OutlivesParent)
      else CheckDelegationChain(v, next.value, capabilities[1..], time, maxDepth)
  }

  /** The permission a payload names in full; none when its action or its resource is missing. */
  function PresentedGrant(p: Payload): Option<Permission> {
    if p.act.Some? && p.res.Some? then Some(GrantOf(p)) else None
  }

  /** Whether a payload authorises a permission: the subject's own token, a member's, a capability presented
      directly, or an invocation resting on its chain. */
  function CheckCapability(v: Verifier, permission: Permission, p: Payload, time: int, maxDepth: nat): Check {
    if p.sub.None? then Failed(NoSubject)
    else if v.normalize(p.iss) == v.normalize(p.sub.value) then
      if CheckTimes(p, time).Failed? then CheckTimes(p, time)
      else if !v.audienceHolds(p) then Failed(AudienceRevoked)
      else if p.act.None? || p.res.None? then Failed(NoGrant)
      else if !HasPermission(permission, GrantOf(p)) then Failed(NotGranted)
      else Passed
    else if p.cap.None? && p.mbr.Some? then
      if PresentedGrant(p).None? then Failed(NoGrant)
      else if !HasPermission(permission, GrantOf(p)) then Failed(NotGranted)
      else if !v.memberRoot(p, time) then Failed(MemberRootRefused)
      else Passed
    else CheckDelegated(v, permission, p, time, maxDepth)
  }

  /** The payload as a capability: its own grant, or the permission asked for when it makes none. */
  function AsCapability(p: Payload, permission: Permission): Payload {
    if PresentedGrant(p).Some? then p else p.(act := Some(permission.act), res := Some(permission.res))
  }

  function CheckDelegated(v: Verifier, permission: Permission, p: Payload, time: int, maxDepth: nat): Check
    requires p.sub.Some?
  {
    var grant := PresentedGrant(p);
    if grant.Some? && !HasPermission(permission, grant.value) then Failed(NotGranted)
    else if grant.Some? && CheckTimes(p, time).Failed? then CheckTimes(p, time)
    else if p.cap.None? || p.cap.value == [] then Failed(NoCapability)
    else if |p.cap.value| > maxDepth then Failed(TooDeep)
    else
      var capability := v.verify(p.cap.value[0], time);
      if capability.None? then Failed(NotVerified)
      else if !IsCapability(capability.value) then Failed(NotCapability)
      else if grant.Some? && !v.audienceHolds(p) then Failed(AudienceRevoked)
      else
        var to := AsCapability(p, permission);
        if CheckDelegation(v, capability.value, to, time).Failed? then CheckDelegation(v, capability.value, to, time)
        else if grant.Some? && CheckExpiryWithinParent(capability.value, to).Failed? then Failed(OutlivesParent)
        else CheckDelegationChain(v, capability.value, p.cap.value[1..], time, maxDepth)
  }

  // ---------------------------------------------------------------- what an accepted chain promises

  /** A link that is not over and was not issued in the future. */
  ghost predicate Current(link: Payload, time: int) {
    && (link.exp.Some? ==> time <= link.exp.value)
    && (link.iat.Some? ==> link.iat.value <= time)
  }

  ghost predicate Begun(p: Payload, time: int) {
    p.nbf.Some? ==> p.nbf.value <= time
  }

  /** A chain ends on its subject: the subject's own grant to an audience not revoked, at a time it allows, or a
      member's that the subject's log stands behind. */
  ghost predicate EndsOnSubject(v: Verifier, root: Payload, time: int) {
    && root.sub.Some?
    && if v.normalize(root.iss) == v.normalize(root.sub.value)
       then v.audienceHolds(root) && Current(root, time) && Begun(root, time)
       else root.mbr.Some? && v.memberRoot(root, time)
  }

  lemma TimesIff(p: Payload, time: int)
    ensures CheckTimes(p, time).Passed? <==> Current(p, time) && Begun(p, time)
  {
    var checks := [CheckExpiry(p, time), CheckNotBefore(p, time), CheckIssuedAt(p, time)];
    assert checks[1..][1..] == [checks[2]];
    assert First(checks[1..]).Passed? <==> checks[1].Passed? && First(checks[1..][1..]).Passed?;
    assert First([checks[2]]).Passed? <==> checks[2].Passed?;
  }

  lemma RootIff(v: Verifier, p: Payload, time: int)
    requires IsCapability(p)
    ensures CheckRoot(v, p, time).Passed? <==> EndsOnSubject(v, p, time)
  {
    TimesIff(p, time);
  }

  /** The payloads of a chain, the one checked first and the root last. */
  ghost predicate IsChain(v: Verifier, capabilities: seq<Token>, time: int, links: seq<Payload>) {
    && |links| == |capabilities| + 1
    && (forall i :: 0 <= i < |capabilities| ==> v.verify(capabilities[i], time) == Some(links[i + 1]))
    && (forall i :: 0 <= i < |links| ==> IsCapability(links[i]))
  }

  /** One link stands under another: within its grant, of its subject, and expiring no later. */
  predicate Under(v: Verifier, low: Payload, high: Payload) {
    && IsCapability(low) && IsCapability(high)
    && HasPermission(GrantOf(low), GrantOf(high))
    && v.normalize(low.sub.value) == v.normalize(high.sub.value)
    && (high.exp.Some? ==> low.exp.Some? && low.exp.value <= high.exp.value)
  }

  lemma UnderTransitive(v: Verifier, a: Payload, b: Payload, c: Payload)
    requires Under(v, a, b) && Under(v, b, c)
    ensures Under(v, a, c)
  {
    hide HasPermission;
    PermissionTransitive(GrantOf(a), GrantOf(b), GrantOf(c));
  }

  ghost predicate AllUnder(v: Verifier, links: seq<Payload>) {
    forall i, j :: 0 <= i < j < |links| ==> Under(v, links[i], links[j])
  }

  /** Each link was granted to the issuer of the one below and stood, each held by an audience not revoked, and the
      last ends on the subject. */
  ghost predicate Anchored(v: Verifier, links: seq<Payload>, time: int) {
    && links != [] && (forall i :: 0 <= i < |links| ==> IsCapability(links[i]))
    && (forall i :: 0 < i < |links| ==> HandedDown(v, links, i, time))
    && EndsOnSubject(v, links[|links| - 1], time)
  }

  ghost predicate HandedDown(v: Verifier, links: seq<Payload>, i: nat, time: int)
    requires 0 < i < |links| && IsCapability(links[i])
  {
    v.normalize(links[i - 1].iss) == v.normalize(links[i].aud.value) && v.audienceHolds(links[i - 1]) && Current(links[i], time)
  }

  /** An accepted chain narrows all the way: every link is within every link above it, of one subject, and
      outlives none of them. */
  lemma {:induction false} ChainAttenuates(v: Verifier, p: Payload, capabilities: seq<Token>, time: int, maxDepth: nat)
    returns (links: seq<Payload>)
    requires IsCapability(p) && CheckDelegationChain(v, p, capabilities, time, maxDepth).Passed?
    ensures links != [] && links[0] == p && IsChain(v, capabilities, time, links)
    ensures AllUnder(v, links) && Anchored(v, links, time) && |capabilities| <= maxDepth
    decreases |capabilities|
  {
    hide HasPermission, CheckRoot, EndsOnSubject;
    if capabilities == [] {
      RootIff(v, p, time);
      links := [p];
    } else {
      var next := v.verify(capabilities[0], time).value;
      var above := ChainAttenuates(v, next, capabilities[1..], time, maxDepth);
      links := [p] + above;
      Lowest(v, p, above);
      Handed(v, p, above, time);
      forall i | 0 <= i < |capabilities| ensures v.verify(capabilities[i], time) == Some(links[i + 1]) {
        if i > 0 {
          assert capabilities[1..][i - 1] == capabilities[i];
        }
      }
    }
  }

  lemma Lowest(v: Verifier, p: Payload, above: seq<Payload>)
    requires above != [] && AllUnder(v, above) && Under(v, p, above[0])
    ensures AllUnder(v, [p] + above)
  {
    hide Under;
    var links := [p] + above;
    forall i, j | 0 <= i < j < |links| ensures Under(v, links[i], links[j]) {
      if i == 0 && j > 1 {
        UnderTransitive(v, p, above[0], above[j - 1]);
      } else if i > 0 {
        assert links[i] == above[i - 1] && links[j] == above[j - 1];
      }
    }
  }

  lemma Handed(v: Verifier, p: Payload, above: seq<Payload>, time: int)
    requires Anchored(v, above, time) && IsCapability(p) && Current(above[0], time)
    requires v.normalize(p.iss) == v.normalize(above[0].aud.value) && v.audienceHolds(p)
    ensures Anchored(v, [p] + above, time)
  {
    hide EndsOnSubject;
    var links := [p] + above;
    forall i | 0 < i < |links| ensures HandedDown(v, links, i, time) {
      if i > 1 {
        assert HandedDown(v, above, i - 1, time);
      }
    }
  }

  /** A link lets a request through: within its grant, about its subject. */
  predicate LetsThrough(v: Verifier, permission: Permission, subject: Did, link: Payload) {
    && IsCapability(link)
    && HasPermission(permission, GrantOf(link)) && v.normalize(link.sub.value) == v.normalize(subject)
  }

  /** A capability presented directly is held to its own grant on every arm. */
  lemma OwnGrantBinds(v: Verifier, permission: Permission, p: Payload, time: int, maxDepth: nat)
    requires CheckCapability(v, permission, p, time, maxDepth).Passed? && PresentedGrant(p).Some?
    ensures HasPermission(permission, GrantOf(p))
  {
    hide HasPermission, CheckTimes, CheckDelegationChain, CheckDelegation;
  }

  /** Chain attenuation: a permission accepted on a delegation chain is within the grant of every link up to
      the root, all of one subject; a capability presented directly is the lowest of those links. */
  lemma {:induction false} AcceptedWithinChain(v: Verifier, permission: Permission, p: Payload, time: int, maxDepth: nat)
    returns (links: seq<Payload>)
    requires p.sub.Some? && v.normalize(p.iss) != v.normalize(p.sub.value) && !(p.cap.None? && p.mbr.Some?)
    requires CheckCapability(v, permission, p, time, maxDepth).Passed?
    ensures p.cap.Some? && 0 < |p.cap.value| <= maxDepth
    ensures links != [] && IsChain(v, p.cap.value[1..], time, links) && v.verify(p.cap.value[0], time) == Some(links[0])
    ensures Anchored(v, links, time) && AllUnder(v, links) && v.normalize(p.iss) == v.normalize(links[0].aud.value)
    ensures forall i :: 0 <= i < |links| ==> LetsThrough(v, permission, p.sub.value, links[i])
    ensures PresentedGrant(p).Some? ==> HasPermission(permission, GrantOf(p))
    ensures forall i :: 0 <= i < |links| && PresentedGrant(p).Some? && p.aud.Some? ==> Under(v, p, links[i])
  {
    hide HasPermission, Anchored, CheckDelegationChain, CheckTimes;
    var to := AsCapability(p, permission);
    var first := v.verify(p.cap.value[0], time).value;
    links := ChainAttenuates(v, first, p.cap.value[1..], time, maxDepth);
    if PresentedGrant(p).Some? {
      PermissionTransitive(permission, GrantOf(p), GrantOf(first));
    }
    forall i | 0 <= i < |links|
      ensures LetsThrough(v, permission, p.sub.value, links[i])
      ensures PresentedGrant(p).Some? && p.aud.Some? ==> Under(v, p, links[i])
    {
      if i > 0 {
        assert Under(v, links[0], links[i]);
        PermissionTransitive(permission, GrantOf(first), GrantOf(links[i]));
        PermissionTransitive(GrantOf(to), GrantOf(first), GrantOf(links[i]));
      }
    }
  }
}
