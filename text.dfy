/** The JavaScript string built-ins the pages rely on, over `seq<char>`:
    `toLowerCase`/`toUpperCase` (ASCII letters only), `includes`,
    `startsWith`, `split` on one character with its inverse `join`,
    `charAt(0)`, and the decimal rendering of an integer inside a template
    literal. */
module Text {

  import opened Wrappers

  predicate IsUpper(c: char) { 'A' <= c <= 'Z' }

  predicate IsLower(c: char) { 'a' <= c <= 'z' }

  /** ASCII `toLowerCase` of one character. */
  function LowerChar(c: char): (r: char)
    ensures !IsUpper(r)
    ensures IsUpper(c) ==> IsLower(r) && r as int - c as int == 32
    ensures !IsUpper(c) ==> r == c
  {
    if IsUpper(c) then (c as int + 32) as char else c
  }

  /** ASCII `toUpperCase` of one character. */
  function UpperChar(c: char): (r: char)
    ensures !IsLower(r)
    ensures IsLower(c) ==> IsUpper(r) && c as int - r as int == 32
    ensures !IsLower(c) ==> r == c
  {
    if IsLower(c) then (c as int - 32) as char else c
  }

  /** `s.toLowerCase()`: the same length, every character lowered. */
  function Lower(s: string): (r: string)
    ensures |r| == |s|
    ensures forall i :: 0 <= i < |s| ==> r[i] == LowerChar(s[i])
  {
    seq(|s|, i requires 0 <= i < |s| => LowerChar(s[i]))
  }

  /** `s.startsWith(p)`. */
  predicate StartsWith(s: string, p: string) {
    |p| <= |s| && s[..|p|] == p
  }

  /** `sub` occurs in `s` starting at index `i`. */
  ghost predicate OccursAt(s: string, sub: string, i: int) {
    0 <= i && i + |sub| <= |s| && s[i..i + |sub|] == sub
  }

  /** `s.includes(sub)`: tries every start position in turn; true exactly when
      `sub` occurs somewhere in `s` (so always true for the empty `sub`). */
  function Includes(s: string, sub: string): (r: bool)
    ensures r <==> exists i :: OccursAt(s, sub, i)
    decreases |s|
  {
    if StartsWith(s, sub) then
      assert OccursAt(s, sub, 0);
      true
    else if s == [] then
      false
    else
      var r := Includes(s[1..], sub);
      assert r ==> exists i :: OccursAt(s, sub, i) by {
        if r {
          var j :| OccursAt(s[1..], sub, j);
          assert s[1..][j..j + |sub|] == s[j + 1..j + 1 + |sub|];
          assert OccursAt(s, sub, j + 1);
        }
      }
      assert (exists i :: OccursAt(s, sub, i)) ==> r by {
        if exists i :: OccursAt(s, sub, i) {
          var i :| OccursAt(s, sub, i);
          assert i != 0;
          assert s[1..][i - 1..i - 1 + |sub|] == s[i..i + |sub|];
          assert OccursAt(s[1..], sub, i - 1);
        }
      }
      r
  }

  lemma IncludesEmpty(s: string)
    ensures Includes(s, "")
  {
    assert OccursAt(s, "", 0);
  }

  /** The index of the first `c` in `s`, or `|s|` when there is none. */
  function FirstIndex(s: string, c: char): (r: nat)
    ensures r <= |s|
    ensures c !in s[..r]
    ensures r < |s| ==> s[r] == c
    ensures r == |s| <==> c !in s
  {
    if s == [] then 0
    else if s[0] == c then 0
    else
      var k := FirstIndex(s[1..], c);
      assert s[..k + 1] == [s[0]] + s[1..][..k];
      k + 1
  }

  /** `pieces.join(sep)`. */
  function Join(pieces: seq<string>, sep: char): string
    decreases |pieces|
  {
    if |pieces| == 0 then ""
    else if |pieces| == 1 then pieces[0]
    else pieces[0] + [sep] + Join(pieces[1..], sep)
  }

  /** Joining a piece before a non-empty list of pieces. */
  lemma JoinCons(a: string, rest: seq<string>, sep: char)
    requires |rest| >= 1
    ensures Join([a] + rest, sep) == a + [sep] + Join(rest, sep)
  {
    assert ([a] + rest)[1..] == rest;
  }

  /** The separators of `s` are its first one and those after it. */
  lemma CountAfterFirst(s: string, sep: char, i: nat)
    requires i < |s| && s[i] == sep && sep !in s[..i]
    ensures multiset(s)[sep] == multiset(s[i + 1..])[sep] + 1
  {
    assert s == s[..i] + [sep] + s[i + 1..];
    calc {
      multiset(s);
    ==
      multiset(s[..i] + [sep] + s[i + 1..]);
    ==
      multiset(s[..i]) + multiset([sep]) + multiset(s[i + 1..]);
    }
  }

  /** The pieces of `s` split at its first separator keep the properties
      the pieces after it have. */
  lemma SplitStep(s: string, sep: char, i: nat, rest: seq<string>)
    requires i < |s| && s[i] == sep && sep !in s[..i]
    requires |rest| == multiset(s[i + 1..])[sep] + 1
    requires forall k :: 0 <= k < |rest| ==> sep !in rest[k]
    requires Join(rest, sep) == s[i + 1..]
    ensures |[s[..i]] + rest| == multiset(s)[sep] + 1
    ensures forall k :: 0 <= k < |[s[..i]] + rest| ==> sep !in ([s[..i]] + rest)[k]
    ensures Join([s[..i]] + rest, sep) == s
  {
    CountAfterFirst(s, sep, i);
    JoinCons(s[..i], rest, sep);
    assert s == s[..i] + [sep] + s[i + 1..];
  }

  /** `s.split(sep)` for a one-character separator: the pieces between
      consecutive separators, empty pieces included, one more piece than
      there are separators, and joining them again gives back `s`. */
  function Split(s: string, sep: char): (pieces: seq<string>)
    ensures |pieces| == multiset(s)[sep] + 1
    ensures forall k :: 0 <= k < |pieces| ==> sep !in pieces[k]
    ensures Join(pieces, sep) == s
    decreases |s|
  {
    var i := FirstIndex(s, sep);
    if i == |s| then
      [s]
    else
      var rest := Split(s[i + 1..], sep);
      SplitStep(s, sep, i, rest);
      [s[..i]] + rest
  }

  /** The first piece of a split with a separator ends at the first
      separator, and the other pieces are the split of what follows it. */
  lemma SplitAtFirst(s: string, sep: char)
    requires sep in s
    ensures Split(s, sep) == [s[..FirstIndex(s, sep)]] + Split(s[FirstIndex(s, sep) + 1..], sep)
  {
  }

  /** `s.split(sep)[0]`: the text before the first `sep`, or all of `s` when
      there is none. */
  function BeforeFirst(s: string, sep: char): (r: string)
    ensures sep !in r
    ensures StartsWith(s, r)
    ensures sep in s ==> |r| < |s| && s[|r|] == sep
    ensures sep !in s ==> r == s
  {
    Split(s, sep)[0]
  }

  /** What comes before the first separator of `a`, the separator and `b`,
      when `a` holds no separator, is `a`. */
  lemma BeforeFirstOfJoined(a: string, sep: char, b: string)
    requires sep !in a
    ensures BeforeFirst(a + [sep] + b, sep) == a
  {
    var s := a + [sep] + b;
    var r := BeforeFirst(s, sep);
    assert s[|a|] == sep;
    assert forall k :: 0 <= k < |a| ==> s[k] == a[k];
    assert |r| == |a|;
    assert r == s[..|a|];
  }

  /** `s.charAt(0)`: the first character, or "" for the empty string. */
  function CharAt0(s: string): (r: string)
    ensures |r| <= 1
    ensures |r| == 1 <==> s != []
    ensures s != [] ==> r[0] == s[0]
  {
    if s == [] then "" else [s[0]]
  }

  function DigitChar(d: nat): (c: char)
    requires d < 10
    ensures '0' <= c <= '9'
    ensures c as int - '0' as int == d
  {
    ('0' as int + d) as char
  }

  predicate IsDigits(s: string) {
    forall i :: 0 <= i < |s| ==> '0' <= s[i] <= '9'
  }

  /** The number a string of decimal digits denotes, most significant first. */
  function DecimalValue(s: string): nat
    requires IsDigits(s)
  {
    if s == [] then 0
    else 10 * DecimalValue(s[..|s| - 1]) + (s[|s| - 1] as int - '0' as int)
  }

  /** `${n}` for a non-negative integer: its shortest decimal digits. */
  function NatToString(n: nat): (r: string)
    ensures |r| >= 1 && IsDigits(r)
    ensures |r| > 1 ==> r[0] != '0'
  {
    if n < 10 then [DigitChar(n)] else NatToString(n / 10) + [DigitChar(n % 10)]
  }

  /** `${i}` for any integer: a minus sign before the digits of `-i` when
      negative. */
  function IntToString(i: int): (r: string)
    ensures |r| >= 1
    ensures i < 0 <==> r[0] == '-'
  {
    if i < 0 then "-" + NatToString(-i) else NatToString(i)
  }

  /** Reads back what IntToString wrote. */
  function ParseInt(s: string): (r: Option<int>)
  {
    if |s| >= 2 && s[0] == '-' && IsDigits(s[1..]) then Some(0 - DecimalValue(s[1..]))
    else if |s| >= 1 && IsDigits(s) then Some(DecimalValue(s))
    else None
  }

  lemma {:induction false} NatToStringRoundTrip(n: nat)
    ensures DecimalValue(NatToString(n)) == n
  {
    if n >= 10 {
      var s := NatToString(n);
      NatToStringRoundTrip(n / 10);
      assert s[..|s| - 1] == NatToString(n / 10);
    }
  }

  /** ParseInt reads a minus sign and digits as a negative number. */
  lemma ParseNegative(d: string)
    requires |d| >= 1 && IsDigits(d)
    ensures ParseInt("-" + d) == Some(0 - DecimalValue(d))
  {
    var s := "-" + d;
    assert s[1..] == d;
  }

  /** ParseInt reads digits as a non-negative number. */
  lemma ParseDigits(d: string)
    requires |d| >= 1 && IsDigits(d)
    ensures ParseInt(d) == Some(DecimalValue(d))
  {
    assert d[0] != '-';
  }

  lemma IntToStringRoundTrip(i: int)
    ensures ParseInt(IntToString(i)) == Some(i)
  {
    if i < 0 {
      var n: nat := -i;
      var d := NatToString(n);
      NatToStringRoundTrip(n);
      ParseNegative(d);
      assert IntToString(i) == "-" + d;
    } else {
      var d := NatToString(i);
      NatToStringRoundTrip(i);
      ParseDigits(d);
      assert IntToString(i) == d;
    }
  }

  /** Distinct integers are rendered as distinct strings. */
  lemma IntToStringInjective(i: int, j: int)
    requires IntToString(i) == IntToString(j)
    ensures i == j
  {
    IntToStringRoundTrip(i);
    IntToStringRoundTrip(j);
  }
}
