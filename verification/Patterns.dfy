/** Permission patterns: what a granted action or resource covers, and why covering carries down a chain. */
module Patterns {
  import opened Slashes

  /** One pattern or a list of them. */
  datatype Pattern = One(text: string) | Many(texts: seq<string>)

  datatype Permission = Permission(act: Pattern, res: Pattern)

  /** Whether a granted list of components covers a requested one. */
  predicate Covers(granted: seq<string>, expected: seq<string>) {
    if granted == [] then expected == []
    else if granted[0] == "*" then true
    else expected != [] && granted[0] == expected[0] && Covers(granted[1..], expected[1..])
  }

  predicate PartsMatch(expected: string, actual: string) {
    Covers(Parts(actual), Parts(expected))
  }

  /** Component for component at one depth, a wildcard matching what remains. */
  method HasPartsMatch(expected: string, actual: string) returns (r: bool)
    ensures r == PartsMatch(expected, actual)
  {
    var expectedParts, actualParts := Parts(expected), Parts(actual);
    assert actualParts[0..] == actualParts && expectedParts[0..] == expectedParts;
    for i := 0 to |actualParts|
      invariant i <= |expectedParts|
      invariant Covers(actualParts, expectedParts) == Covers(actualParts[i..], expectedParts[i..])
    {
      if actualParts[i] == "*" {
        return true;
      }
      if i >= |expectedParts| {
        return false;
      }
      if actualParts[i] != expectedParts[i] {
        return false;
      }
      assert actualParts[i..][1..] == actualParts[i + 1..] && expectedParts[i..][1..] == expectedParts[i + 1..];
    }
    assert actualParts[|actualParts|..] == [];
    r := |expectedParts| == |actualParts|;
  }

  predicate IsMatch(expected: string, actual: string) {
    expected == actual || actual == "*"
  }

  /** Whether one granted pair covers one requested pair. */
  predicate PairGranted(expectedAct: string, expectedRes: string, grantedAct: string, grantedRes: string) {
    if grantedAct == "" || grantedRes == "" then false
    else if IsMatch(expectedAct, grantedAct) && IsMatch(expectedRes, grantedRes) then true
    else PartsMatch(expectedAct, grantedAct) && PartsMatch(expectedRes, grantedRes)
  }

  /** Every pair asked for by some pair granted, list by list. */
  predicate HasPermission(expected: Permission, granted: Permission)
    decreases Rank(expected.act) + Rank(expected.res) + Rank(granted.act) + Rank(granted.res)
  {
    if expected.act.Many? then
      forall act :: act in expected.act.texts ==> HasPermission(Permission(One(act), expected.res), granted)
    else if expected.res.Many? then
      forall res :: res in expected.res.texts ==> HasPermission(Permission(expected.act, One(res)), granted)
    else if granted.act.Many? then
      exists act :: act in granted.act.texts && HasPermission(expected, Permission(One(act), granted.res))
    else if granted.res.Many? then
      exists res :: res in granted.res.texts && HasPermission(expected, Permission(granted.act, One(res)))
    else PairGranted(expected.act.text, expected.res.text, granted.act.text, granted.res.text)
  }

  function Rank(p: Pattern): nat {
    if p.Many? then 1 else 0
  }

  // ---------------------------------------------------------------- what is granted

  function Texts(p: Pattern): set<string> {
    match p
    case One(text) => {text}
    case Many(texts) => set text | text in texts
  }

  /** What a permission lets through. */
  predicate Grants(granted: Permission, act: string, res: string) {
    exists a, r :: a in Texts(granted.act) && r in Texts(granted.res) && PairCovers(act, res, a, r)
  }

  predicate PairCovers(act: string, res: string, a: string, r: string) {
    a != "" && r != "" && PartsMatch(act, a) && PartsMatch(res, r)
  }

  /** Every pair a permission names. */
  predicate AllGranted(expected: Permission, granted: Permission) {
    forall act, res :: act in Texts(expected.act) && res in Texts(expected.res) ==> Grants(granted, act, res)
  }

  lemma {:induction false} CoversSelf(parts: seq<string>)
    ensures Covers(parts, parts)
  {
    if parts != [] {
      CoversSelf(parts[1..]);
    }
  }

  /** A whole-string match is a match by components, so the shortcut grants nothing more. */
  lemma MatchIsPartsMatch(expected: string, actual: string)
    requires IsMatch(expected, actual)
    ensures PartsMatch(expected, actual)
  {
    if actual == "*" {
      assert Parts("") == [""];
      assert Parts("*") == [['*'] + Parts("")[0]] + Parts("")[1..];
      assert Parts("*")[0] == "*";
    } else {
      CoversSelf(Parts(expected));
    }
  }

  lemma PairMeans(act: string, res: string, a: string, r: string)
    ensures PairGranted(act, res, a, r) <==> PairCovers(act, res, a, r)
  {
    hide PartsMatch;
    if IsMatch(act, a) && IsMatch(res, r) {
      MatchIsPartsMatch(act, a);
      MatchIsPartsMatch(res, r);
    }
  }

  lemma OnePairGrants(act: string, res: string, a: string, granted: Pattern)
    ensures HasPermission(Permission(One(act), One(res)), Permission(One(a), granted))
      <==> exists r :: r in Texts(granted) && PairCovers(act, res, a, r)
  {
    hide PairGranted, PairCovers;
    var expected := Permission(One(act), One(res));
    forall r ensures HasPermission(expected, Permission(One(a), One(r))) <==> PairCovers(act, res, a, r) {
      PairMeans(act, res, a, r);
    }
    if granted.Many? {
      assert forall r :: r in Texts(granted) <==> r in granted.texts;
    } else {
      assert granted == One(granted.text);
    }
  }

  lemma OneGrants(act: string, res: string, granted: Permission)
    ensures HasPermission(Permission(One(act), One(res)), granted) <==> Grants(granted, act, res)
  {
    hide PairGranted, PairCovers;
    var expected := Permission(One(act), One(res));
    forall a ensures HasPermission(expected, Permission(One(a), granted.res))
      <==> exists r :: r in Texts(granted.res) && PairCovers(act, res, a, r)
    {
      OnePairGrants(act, res, a, granted.res);
    }
    if granted.act.Many? {
      assert forall a :: a in Texts(granted.act) <==> a in granted.act.texts;
    } else {
      assert granted == Permission(One(granted.act.text), granted.res);
    }
  }

  /** The walk over lists says what it should: each pair asked for is covered by a pair granted. */
  lemma HasPermissionMeans(expected: Permission, granted: Permission)
    ensures HasPermission(expected, granted) <==> AllGranted(expected, granted)
  {
    hide Grants;
    forall act, res ensures HasPermission(Permission(One(act), One(res)), granted) <==> Grants(granted, act, res) {
      OneGrants(act, res, granted);
    }
    assert expected.act.One? ==> expected.act == One(expected.act.text);
    assert expected.res.One? ==> expected.res == One(expected.res.text);
    forall act ensures HasPermission(Permission(One(act), expected.res), granted)
      <==> forall res :: res in Texts(expected.res) ==> Grants(granted, act, res)
    {
    }
  }

  // ---------------------------------------------------------------- covering carries down

  lemma {:induction false} CoversTransitive(top: seq<string>, middle: seq<string>, bottom: seq<string>)
    requires Covers(top, middle) && Covers(middle, bottom)
    ensures Covers(top, bottom)
  {
    if top != [] && top[0] != "*" {
      CoversTransitive(top[1..], middle[1..], bottom[1..]);
    }
  }

  /** What a grant covers, anything that covers the grant covers too. */
  lemma PermissionTransitive(bottom: Permission, middle: Permission, top: Permission)
    requires HasPermission(bottom, middle) && HasPermission(middle, top)
    ensures HasPermission(bottom, top)
  {
    hide HasPermission, Covers, Parts;
    HasPermissionMeans(bottom, middle);
    HasPermissionMeans(middle, top);
    HasPermissionMeans(bottom, top);
    forall act, res | act in Texts(bottom.act) && res in Texts(bottom.res) ensures Grants(top, act, res) {
      var a, r :| a in Texts(middle.act) && r in Texts(middle.res) && PairCovers(act, res, a, r);
      var b, s :| b in Texts(top.act) && s in Texts(top.res) && PairCovers(a, r, b, s);
      CoversTransitive(Parts(b), Parts(a), Parts(act));
      CoversTransitive(Parts(s), Parts(r), Parts(res));
      assert PairCovers(act, res, b, s);
    }
  }

  /** No implicit descent and no broadening: without a wildcard a grant covers just itself. */
  lemma {:induction false} OnlyItself(granted: seq<string>, expected: seq<string>)
    requires "*" !in granted
    ensures Covers(granted, expected) <==> granted == expected
  {
    if granted != [] && expected != [] {
      OnlyItself(granted[1..], expected[1..]);
      assert granted == [granted[0]] + granted[1..] && expected == [expected[0]] + expected[1..];
    }
  }
}
