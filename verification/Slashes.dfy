/** Text cut at its slashes. */
module Slashes {
  /** The components of a text, as cutting it at every slash gives them. */
  function Parts(s: string): (parts: seq<string>)
    ensures parts != []
  {
    if s == "" then [""]
    else
      var rest := Parts(s[1..]);
      if s[0] == '/' then [""] + rest else [[s[0]] + rest[0]] + rest[1..]
  }

  lemma {:induction false} NoSlash(a: string)
    requires '/' !in a
    ensures Parts(a) == [a]
  {
    if a != "" {
      NoSlash(a[1..]);
      assert a == [a[0]] + a[1..] && a[0] in a;
      assert Parts(a) == [[a[0]] + a[1..]] + [];
    }
  }

  /** What stands before the first slash is the first component. */
  lemma {:induction false} FirstPart(a: string, b: string)
    requires '/' !in a
    ensures Parts(a + "/" + b) == [a] + Parts(b)
  {
    var s := a + "/" + b;
    if a == "" {
      assert s[0] == '/' && s[1..] == b;
    } else {
      assert s[0] == a[0] && s[1..] == a[1..] + "/" + b;
      assert a == [a[0]] + a[1..] && a[0] in a;
      FirstPart(a[1..], b);
      assert Parts(s) == [[a[0]] + a[1..]] + Parts(b);
    }
  }
}
