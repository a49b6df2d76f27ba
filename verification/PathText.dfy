/** A derivation path as text, and what the encoder reads of it. */
module PathText {
  import opened Slashes

  /** One component of a path as read: its index, and whether it carries the hardening mark. */
  datatype Component = Component(index: int, marked: bool)

  predicate IsDigit(c: char) {
    '0' <= c <= '9'
  }

  function DigitValue(c: char): (d: nat)
    requires IsDigit(c)
    ensures d < 10
  {
    c as int - '0' as int
  }

  /** What may stand before a number. */
  predicate IsSpace(c: char) {
    || '\t' <= c <= '\r' || c == ' ' || c == '\U{00A0}' || c == '\U{1680}' || '\U{2000}' <= c <= '\U{200A}'
    || c in ['\U{2028}', '\U{2029}', '\U{202F}', '\U{205F}', '\U{3000}', '\U{FEFF}']
  }

  function TrimStart(s: string): string {
    if s != "" && IsSpace(s[0]) then TrimStart(s[1..]) else s
  }

  /** The number that digits spell, up to the first that is none. */
  function Number(s: string, so_far: nat): nat {
    if s == "" || !IsDigit(s[0]) then so_far else Number(s[1..], 10 * so_far + DigitValue(s[0]))
  }

  /** A decimal prefix with its sign, as an integer: 0 where there is none, as a bit operation reads a NaN. */
  function ReadInteger(text: string): int {
    var s := TrimStart(text);
    if s != "" && s[0] == '-' then 0 - Number(s[1..], 0)
    else if s != "" && s[0] == '+' then Number(s[1..], 0)
    else Number(s, 0)
  }

  function ComponentOf(text: string): Component {
    if text != "" && text[|text| - 1] == '\'' then Component(ReadInteger(text[..|text| - 1]), true) else Component(0, false)
  }

  function Stripped(path: string): string {
    if "m/" <= path then path[2..] else path
  }

  function ComponentsOf(path: string): (components: seq<Component>)
    ensures components != []
  {
    var parts := Parts(Stripped(path));
    seq(|parts|, i requires 0 <= i < |parts| => ComponentOf(parts[i]))
  }

  // ---------------------------------------------------------------- paths as they are written

  function Decimal(n: nat): (s: string)
    ensures s != "" && forall i :: 0 <= i < |s| ==> IsDigit(s[i])
  {
    if n < 10 then ['0' + n as char] else Decimal(n / 10) + ['0' + (n % 10) as char]
  }

  /** Each index in decimal with its mark, slashes between. */
  function Written(indices: seq<nat>): string
    requires indices != []
  {
    var first := Decimal(indices[0]) + "'";
    if |indices| == 1 then first else first + "/" + Written(indices[1..])
  }

  lemma {:induction false} OneMoreDigit(s: string, c: char, so_far: nat)
    requires IsDigit(c) && forall i :: 0 <= i < |s| ==> IsDigit(s[i])
    ensures Number(s + [c], so_far) == 10 * Number(s, so_far) + DigitValue(c)
  {
    if s == "" {
      assert (s + [c])[0] == c && (s + [c])[1..] == "";
      assert Number("", 10 * so_far + DigitValue(c)) == 10 * so_far + DigitValue(c);
    } else {
      assert (s + [c])[0] == s[0] && (s + [c])[1..] == s[1..] + [c];
      OneMoreDigit(s[1..], c, 10 * so_far + DigitValue(s[0]));
    }
  }

  lemma {:induction false} NumberBack(n: nat)
    ensures Number(Decimal(n), 0) == n
  {
    if n < 10 {
      assert Decimal(n)[1..] == "";
      assert Number("", n) == n;
    } else {
      NumberBack(n / 10);
      OneMoreDigit(Decimal(n / 10), '0' + (n % 10) as char, 0);
    }
  }

  /** The white space that may stand before a number, by code unit. */
  ghost predicate IsBlank(c: char) {
    c as int in {0x9, 0xA, 0xB, 0xC, 0xD, 0x20, 0xA0, 0x1680, 0x2000, 0x2001, 0x2002, 0x2003, 0x2004, 0x2005, 0x2006, 0x2007, 0x2008,
      0x2009, 0x200A, 0x2028, 0x2029, 0x202F, 0x205F, 0x3000, 0xFEFF}
  }

  lemma {:induction false} BlanksTrimmed(blanks: string, s: string)
    requires (forall c :: c in blanks ==> IsBlank(c)) && (s == "" || !IsBlank(s[0]))
    ensures TrimStart(blanks + s) == s
  {
    if blanks == "" {
      assert blanks + s == s;
      BlankIff(s);
    } else {
      assert blanks[0] in blanks && (blanks + s)[1..] == blanks[1..] + s;
      BlankIff(blanks);
      BlanksTrimmed(blanks[1..], s);
    }
  }

  lemma BlankIff(s: string)
    ensures s != "" ==> (IsSpace(s[0]) <==> IsBlank(s[0]))
  {
  }

  lemma {:induction false} NumberStops(digits: string, rest: string, so_far: nat)
    requires (forall i :: 0 <= i < |digits| ==> IsDigit(digits[i])) && (rest == "" || !IsDigit(rest[0]))
    ensures Number(digits + rest, so_far) == Number(digits, so_far)
  {
    if digits == "" {
      assert digits + rest == rest;
    } else {
      assert (digits + rest)[1..] == digits[1..] + rest;
      NumberStops(digits[1..], rest, 10 * so_far + DigitValue(digits[0]));
    }
  }

  /** A component is read as `parseInt` reads it: past blanks and a sign, the digits up to whatever is none, and 0 when
      there are no digits there. */
  lemma {:induction false} ReadsSigned(blanks: string, sign: string, digits: string, rest: string)
    requires (forall c :: c in blanks ==> IsBlank(c)) && sign in {"", "+", "-"}
    requires (forall i :: 0 <= i < |digits| ==> IsDigit(digits[i])) && (rest == "" || !IsDigit(rest[0]))
    requires sign + digits == "" && rest != "" ==> !IsBlank(rest[0]) && rest[0] != '+' && rest[0] != '-'
    ensures ReadInteger(blanks + (sign + (digits + rest))) == if sign == "-" then 0 - Number(digits, 0) else Number(digits, 0)
    ensures digits == "" ==> Number(digits, 0) == 0
  {
    var s := sign + (digits + rest);
    BlanksTrimmed(blanks, s);
    NumberStops(digits, rest, 0);
    if sign == "" {
      assert s == digits + rest;
    } else {
      assert s[0] == sign[0] && s[1..] == digits + rest;
    }
  }

  lemma ComponentBack(n: nat)
    ensures ComponentOf(Decimal(n) + "'") == Component(n, true) && '/' !in Decimal(n) + "'"
  {
    var text := Decimal(n) + "'";
    assert text[..|text| - 1] == Decimal(n);
    assert IsDigit(Decimal(n)[0]) && TrimStart(Decimal(n)) == Decimal(n);
    NumberBack(n);
  }

  /** Texts with slashes between. */
  ghost function Slashed(parts: seq<string>): string
    requires parts != []
  {
    if |parts| == 1 then parts[0] else parts[0] + "/" + Slashed(parts[1..])
  }

  lemma {:induction false} PartsOf(parts: seq<string>)
    requires parts != [] && forall part :: part in parts ==> '/' !in part
    ensures Parts(Slashed(parts)) == parts
  {
    assert parts == [parts[0]] + parts[1..] && parts[0] in parts;
    if |parts| == 1 {
      NoSlash(parts[0]);
    } else {
      FirstPart(parts[0], Slashed(parts[1..]));
      PartsOf(parts[1..]);
    }
  }

  /** What stands between the slashes after `m/`, or of a path that does not begin so, is read part by part: one that ends
      in the mark as the number before it, any other as not hardened. */
  lemma {:induction false} ComponentsAre(path: string, parts: seq<string>)
    requires parts != [] && forall part :: part in parts ==> '/' !in part
    requires path == "m/" + Slashed(parts) || (path == Slashed(parts) && !(|path| >= 2 && path[0] == 'm' && path[1] == '/'))
    ensures |ComponentsOf(path)| == |parts|
    ensures forall i :: 0 <= i < |parts| ==> var part := parts[i];
      if |part| > 0 && part[|part| - 1] == '\''
      then ComponentsOf(path)[i] == Component(ReadInteger(part[..|part| - 1]), true)
      else !ComponentsOf(path)[i].marked
  {
    PartsOf(parts);
    assert ("m/" + Slashed(parts))[2..] == Slashed(parts);
  }

  lemma {:induction false} PartsBack(indices: seq<nat>)
    requires indices != []
    ensures var parts := Parts(Written(indices));
      |parts| == |indices| && forall i :: 0 <= i < |parts| ==> ComponentOf(parts[i]) == Component(indices[i], true)
  {
    var first := Decimal(indices[0]) + "'";
    ComponentBack(indices[0]);
    if |indices| == 1 {
      NoSlash(first);
    } else {
      FirstPart(first, Written(indices[1..]));
      PartsBack(indices[1..]);
    }
  }

  /** A path read back is the path written, whether or not it says where it starts. */
  lemma {:induction false} ReadsBack(indices: seq<nat>)
    requires indices != []
    ensures forall path :: path == Written(indices) || path == "m/" + Written(indices) ==>
      && |ComponentsOf(path)| == |indices|
      && forall i :: 0 <= i < |indices| ==> ComponentsOf(path)[i] == Component(indices[i], true)
  {
    PartsBack(indices);
    assert ("m/" + Written(indices))[2..] == Written(indices);
    StartsWithDigit(indices);
  }

  lemma StartsWithDigit(indices: seq<nat>)
    requires indices != []
    ensures !("m/" <= Written(indices))
  {
    var s := Decimal(indices[0]);
    assert IsDigit(s[0]) && Written(indices)[0] == s[0] && "m/"[0] == 'm';
  }
}
