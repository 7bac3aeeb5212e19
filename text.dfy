/**
 * String operations the scripts use from Python's `str`: prefix and
 * substring tests, `lower()`, `str(n)` for naturals, `", ".join(...)`,
 * `s.split(sep)[0]`, `strip()` and one-character `replace`.
 */
module Text {

  predicate StartsWith(s: string, prefix: string)
  {
    |prefix| <= |s| && s[..|prefix|] == prefix
  }

  /** Python's `sub in s`. */
  predicate Contains(s: string, sub: string)
    decreases |s|
  {
    StartsWith(s, sub) || (|s| > 0 && Contains(s[1..], sub))
  }

  lemma {:induction false} ContainsAt(s: string, sub: string, i: nat)
    requires i + |sub| <= |s| && s[i..i + |sub|] == sub
    ensures Contains(s, sub)
    decreases i
  {
    if i > 0 {
      assert s[1..][i - 1..i - 1 + |sub|] == s[i..i + |sub|];
      ContainsAt(s[1..], sub, i - 1);
    }
  }

  lemma {:induction false} ContainsWitness(s: string, sub: string) returns (i: nat)
    requires Contains(s, sub)
    ensures i + |sub| <= |s| && s[i..i + |sub|] == sub
    decreases |s|
  {
    if StartsWith(s, sub) {
      i := 0;
    } else {
      var j := ContainsWitness(s[1..], sub);
      i := j + 1;
      assert s[i..i + |sub|] == s[1..][j..j + |sub|];
    }
  }

  /** A string contains a one-character string exactly when the character occurs in it. */
  lemma {:induction false} ContainsChar(s: string, c: char)
    ensures Contains(s, [c]) <==> c in s
    decreases |s|
  {
    if |s| > 0 {
      ContainsChar(s[1..], c);
      assert s == [s[0]] + s[1..];
    }
  }

  /** ASCII lower-casing; Python's `lower()` on the characters 'A'..'Z'. */
  function LowerChar(c: char): (r: char)
    ensures 'A' <= c <= 'Z' ==> 'a' <= r <= 'z'
    ensures !('A' <= c <= 'Z') ==> r == c
  {
    if 'A' <= c <= 'Z' then (c as int - 'A' as int + 'a' as int) as char else c
  }

  function Lower(s: string): (r: string)
    ensures |r| == |s|
    ensures forall i :: 0 <= i < |s| ==> r[i] == LowerChar(s[i])
  {
    seq(|s|, i requires 0 <= i < |s| => LowerChar(s[i]))
  }

  function DigitChar(d: nat): (r: char)
    requires d < 10
    ensures r as int == '0' as int + d
  {
    ('0' as int + d) as char
  }

  /** Python's `str(n)` for a natural number. */
  function NatToString(n: nat): (r: string)
    ensures |r| > 0
    ensures forall i :: 0 <= i < |r| ==> '0' <= r[i] <= '9'
    decreases n
  {
    if n < 10 then [DigitChar(n)] else NatToString(n / 10) + [DigitChar(n % 10)]
  }

  /** Different naturals print differently. */
  lemma {:induction false} NatToStringInjective(a: nat, b: nat)
    requires NatToString(a) == NatToString(b)
    ensures a == b
    decreases a
  {
    if a >= 10 && b >= 10 {
      var s := NatToString(a);
      assert NatToString(a / 10) == s[..|s| - 1];
      assert NatToString(b / 10) == s[..|s| - 1];
      NatToStringInjective(a / 10, b / 10);
      assert DigitChar(a % 10) == s[|s| - 1] == DigitChar(b % 10);
    } else if a < 10 && b < 10 {
      assert DigitChar(a) == NatToString(a)[0];
    }
  }

  /** `sep.join(parts)`. */
  function Join(parts: seq<string>, sep: string): string
    decreases |parts|
  {
    if |parts| == 0 then ""
    else if |parts| == 1 then parts[0]
    else Join(parts[..|parts| - 1], sep) + sep + parts[|parts| - 1]
  }

  /** `s.split(sep)[0]`: the text before the first occurrence of sep, or all of s. */
  function CutAt(s: string, sep: string): (r: string)
    requires |sep| > 0
    ensures |r| <= |s| && r == s[..|r|]
    decreases |s|
  {
    if StartsWith(s, sep) || |s| == 0 then "" else [s[0]] + CutAt(s[1..], sep)
  }

  /** Text with no occurrence of sep comes back from CutAt whole. */
  lemma {:induction false} CutAtAbsent(s: string, sep: string)
    requires |sep| > 0 && !Contains(s, sep)
    ensures CutAt(s, sep) == s
    decreases |s|
  {
    if |s| > 0 {
      CutAtAbsent(s[1..], sep);
    }
  }

  /**
   * Cutting `a + sep + rest` at sep gives back a, provided the first
   * occurrence of sep is the one placed after a: here guaranteed because
   * sep's second character cannot occur in a, and differs from its first.
   */
  lemma {:induction false} CutAtJoined(a: string, sep: string, rest: string)
    requires |sep| >= 2 && sep[1] !in a && sep[0] != sep[1]
    ensures CutAt(a + sep + rest, sep) == a
    decreases |a|
  {
    var s := a + sep + rest;
    if |a| == 0 {
      assert s[..|sep|] == sep;
    } else {
      assert s[1..] == a[1..] + sep + rest;
      CutAtJoined(a[1..], sep, rest);
    }
  }

  /** The characters Python's `str.isspace()` accepts within ASCII. */
  predicate IsSpace(c: char)
  {
    // space, \t \n \v \f \r (9..13) and the separators \x1c..\x1f
    c == ' ' || 9 <= c as int <= 13 || 28 <= c as int <= 31
  }

  function TrimStart(s: string): (r: string)
    ensures |r| <= |s| && r == s[|s| - |r|..]
    ensures |r| > 0 ==> !IsSpace(r[0])
    ensures forall i :: 0 <= i < |s| - |r| ==> IsSpace(s[i])
    decreases |s|
  {
    if |s| > 0 && IsSpace(s[0]) then TrimStart(s[1..]) else s
  }

  function TrimEnd(s: string): (r: string)
    ensures |r| <= |s| && r == s[..|r|]
    ensures |r| > 0 ==> !IsSpace(r[|r| - 1])
    ensures forall i :: |r| <= i < |s| ==> IsSpace(s[i])
    decreases |s|
  {
    if |s| > 0 && IsSpace(s[|s| - 1]) then TrimEnd(s[..|s| - 1]) else s
  }

  predicate OccursAt(s: string, sub: string, i: int)
  {
    0 <= i && i + |sub| <= |s| && s[i..i + |sub|] == sub
  }

  /** sub occurs in s at i with only white space before and after it. */
  predicate FramedBySpace(s: string, sub: string, i: int)
  {
    OccursAt(s, sub, i) &&
    (forall j :: 0 <= j < i ==> IsSpace(s[j])) &&
    (forall j :: i + |sub| <= j < |s| ==> IsSpace(s[j]))
  }

  /** Python's `strip()`: removes leading and trailing white space only. */
  function Strip(s: string): (r: string)
    ensures |r| > 0 ==> !IsSpace(r[0]) && !IsSpace(r[|r| - 1])
    ensures exists i :: FramedBySpace(s, r, i)
  {
    var t := TrimStart(s);
    var r := TrimEnd(t);
    var i := |s| - |t|;
    assert OccursAt(s, r, i);
    assert forall j :: i + |r| <= j < |s| ==> s[j] == t[j - i];
    assert FramedBySpace(s, r, i);
    r
  }

  /** `s.replace(c, rep)` for a one-character target. */
  function ReplaceChar(s: string, c: char, rep: string): (r: string)
    ensures c !in s ==> r == s
    decreases |s|
  {
    if |s| == 0 then ""
    else ReplaceChar(s[..|s| - 1], c, rep) + (if s[|s| - 1] == c then rep else [s[|s| - 1]])
  }

  lemma ReplaceCharOne(x: char, c: char, rep: string)
    ensures ReplaceChar([x], c, rep) == if x == c then rep else [x]
  {
    assert [x][..0] == [];
  }

  /** Replacing works piece by piece: it distributes over concatenation. */
  lemma {:induction false} ReplaceCharAppend(a: string, b: string, c: char, rep: string)
    ensures ReplaceChar(a + b, c, rep) == ReplaceChar(a, c, rep) + ReplaceChar(b, c, rep)
    decreases |b|
  {
    if |b| == 0 {
      assert a + b == a;
    } else {
      var init := b[..|b| - 1];
      var x := b[|b| - 1];
      ReplaceCharAppend(a, init, c, rep);
      assert (a + b)[..|a + b| - 1] == a + init;
      assert (a + b)[|a + b| - 1] == x;
      var tail := if x == c then rep else [x];
      calc {
        ReplaceChar(a + b, c, rep);
        ReplaceChar(a + init, c, rep) + tail;
        ReplaceChar(a, c, rep) + ReplaceChar(init, c, rep) + tail;
        ReplaceChar(a, c, rep) + (ReplaceChar(init, c, rep) + tail);
        { assert ReplaceChar(b, c, rep) == ReplaceChar(init, c, rep) + tail; }
        ReplaceChar(a, c, rep) + ReplaceChar(b, c, rep);
      }
    }
  }

  lemma OccursAtLeft(a: string, b: string, sub: string, i: int)
    requires OccursAt(a, sub, i)
    ensures OccursAt(a + b, sub, i)
  {
    assert (a + b)[i..i + |sub|] == a[i..i + |sub|];
  }

  lemma OccursAtRight(a: string, b: string, sub: string, j: int)
    requires OccursAt(b, sub, j)
    ensures OccursAt(a + b, sub, |a| + j)
  {
    assert (a + b)[|a| + j..|a| + j + |sub|] == b[j..j + |sub|];
  }
}
