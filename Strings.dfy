/** The few Python string operations the request policy relies on:
    `str.lower()`, the substring test `k in s`, `any(k in s for k in ks)`,
    `str.strip()` and `" ".join(parts)`. */
module Strings {

  /** Lower-cases one ASCII capital letter; every other character is kept. */
  function LowerChar(c: char): (d: char)
    ensures !('A' <= d <= 'Z')
    ensures 'a' <= d <= 'z' <==> 'A' <= c <= 'Z' || 'a' <= c <= 'z'
  {
    if 'A' <= c <= 'Z' then (c as int + 32) as char else c
  }

  /** `s.lower()` restricted to ASCII letters (see README for why this is
      enough for the keyword tests that use it). */
  function Lower(s: string): (r: string)
    ensures |r| == |s|
    ensures forall i :: 0 <= i < |s| ==> r[i] == LowerChar(s[i])
  {
    seq(|s|, i requires 0 <= i < |s| => LowerChar(s[i]))
  }

  /** Upper-cases one ASCII small letter; used only to state that the
      keyword tests ignore case. */
  function UpperChar(c: char): (d: char)
    ensures !('a' <= d <= 'z')
  {
    if 'a' <= c <= 'z' then (c as int - 32) as char else c
  }

  function Upper(s: string): (r: string)
    ensures |r| == |s|
    ensures forall i :: 0 <= i < |s| ==> r[i] == UpperChar(s[i])
  {
    seq(|s|, i requires 0 <= i < |s| => UpperChar(s[i]))
  }

  lemma LowerIdempotent(s: string)
    ensures Lower(Lower(s)) == Lower(s)
  {
  }

  lemma LowerOfUpper(s: string)
    ensures Lower(Upper(s)) == Lower(s)
  {
    forall i | 0 <= i < |s|
      ensures Lower(Upper(s))[i] == Lower(s)[i]
    {
    }
  }

  // ---------------------------------------------------------------------
  // Substring test

  /** `k` occurs in `s` starting at position `i`. */
  ghost predicate OccursAt(s: string, k: string, i: int)
  {
    0 <= i && i + |k| <= |s| && s[i..i + |k|] == k
  }

  /** Python's `k in s` for strings: a scan that tries every start position. */
  function Contains(s: string, k: string): bool
    decreases |s|
  {
    k <= s || (|s| > 0 && Contains(s[1..], k))
  }

  /** An occurrence at position `i` is found by the scan. */
  lemma {:induction false} OccursIsContained(s: string, k: string, i: int)
    requires OccursAt(s, k, i)
    ensures Contains(s, k)
    decreases i
  {
    if i == 0 {
      assert s[..|k|] == k;
    } else {
      assert s[1..][i - 1..i - 1 + |k|] == s[i..i + |k|];
      OccursIsContained(s[1..], k, i - 1);
    }
  }

  /** A successful scan points at an actual occurrence. */
  lemma {:induction false} ContainedOccurs(s: string, k: string) returns (i: nat)
    requires Contains(s, k)
    ensures OccursAt(s, k, i)
    decreases |s|
  {
    if k <= s {
      i := 0;
    } else {
      var j := ContainedOccurs(s[1..], k);
      assert s[j + 1..j + 1 + |k|] == s[1..][j..j + |k|];
      i := j + 1;
    }
  }

  /** Every character of a contained string is a character of the string. */
  lemma ContainedChars(s: string, k: string)
    ensures Contains(s, k) ==> forall j :: 0 <= j < |k| ==> k[j] in s
  {
    if Contains(s, k) {
      var i := ContainedOccurs(s, k);
      forall j | 0 <= j < |k| ensures k[j] in s {
        assert s[i..i + |k|][j] == s[i + j];
      }
    }
  }

  /** A string cannot contain `k` if it lacks one of `k`'s characters. */
  lemma MissingCharNotContained(s: string, k: string, j: nat)
    requires j < |k| && k[j] !in s
    ensures !Contains(s, k)
  {
    ContainedChars(s, k);
  }

  /** The scan finds `k` exactly when `k` occurs somewhere in `s`. */
  lemma ContainsIffOccurs(s: string, k: string)
    ensures Contains(s, k) <==> exists i :: OccursAt(s, k, i)
  {
    if Contains(s, k) {
      var i := ContainedOccurs(s, k);
    }
    forall i | OccursAt(s, k, i) ensures Contains(s, k) {
      OccursIsContained(s, k, i);
    }
  }

  /** `any(k in s for k in keywords)`, evaluated left to right. */
  function AnyIn(keywords: seq<string>, s: string): bool
  {
    if keywords == [] then false
    else Contains(s, keywords[0]) || AnyIn(keywords[1..], s)
  }

  /** The order of the keyword list never changes the answer: it is true
      exactly when one of the listed keywords occurs. */
  lemma {:induction false} AnyInIff(keywords: seq<string>, s: string)
    ensures AnyIn(keywords, s) <==> exists k :: k in keywords && Contains(s, k)
  {
    if keywords != [] {
      AnyInIff(keywords[1..], s);
      if Contains(s, keywords[0]) {
        assert keywords[0] in keywords;
      } else if AnyIn(keywords[1..], s) {
        var k :| k in keywords[1..] && Contains(s, k);
        assert k in keywords;
      } else {
        forall k | k in keywords ensures !Contains(s, k) {
          assert k == keywords[0] || k in keywords[1..];
        }
      }
    }
  }

  // ---------------------------------------------------------------------
  // str.strip()

  /** Python's `str.isspace()` for one character: the ASCII whitespace and
      separator controls and the Unicode space separators. */
  predicate IsSpace(c: char)
  {
    var n := c as int;
    (9 <= n <= 13) || (0x1C <= n <= 0x20) || n == 0x85 || n == 0xA0
    || n == 0x1680 || (0x2000 <= n <= 0x200A) || n == 0x2028 || n == 0x2029
    || n == 0x202F || n == 0x205F || n == 0x3000
  }

  ghost predicate AllSpace(s: string)
  {
    forall i :: 0 <= i < |s| ==> IsSpace(s[i])
  }

  /** Neither end of `s` is whitespace. */
  predicate Stripped(s: string)
  {
    s == [] || (!IsSpace(s[0]) && !IsSpace(s[|s| - 1]))
  }

  /** Drops leading whitespace: what is dropped is all whitespace and what is
      kept does not start with whitespace. */
  function TrimStart(s: string): (r: string)
    ensures |r| <= |s| && r == s[|s| - |r|..]
    ensures AllSpace(s[..|s| - |r|])
    ensures r == [] || !IsSpace(r[0])
  {
    if |s| > 0 && IsSpace(s[0]) then
      var r := TrimStart(s[1..]);
      assert s[1..][..|s| - 1 - |r|] == s[1..|s| - |r|];
      r
    else s
  }

  /** Drops trailing whitespace, symmetrically to TrimStart. */
  function TrimEnd(s: string): (r: string)
    ensures |r| <= |s| && r == s[..|r|]
    ensures AllSpace(s[|r|..])
    ensures r == [] || !IsSpace(r[|r| - 1])
  {
    if |s| > 0 && IsSpace(s[|s| - 1]) then
      var r := TrimEnd(s[..|s| - 1]);
      assert s[..|s| - 1][..|r|] == s[..|r|];
      assert s[..|s| - 1][|r|..] == s[|r|..|s| - 1];
      assert s[|r|..] == s[|r|..|s| - 1] + [s[|s| - 1]];
      r
    else s
  }

  /** `s` is `r` with only whitespace before and after it, `r` starting at `i`. */
  ghost predicate PaddedAt(s: string, r: string, i: int)
  {
    0 <= i && i + |r| <= |s| && s[i..i + |r|] == r
    && AllSpace(s[..i]) && AllSpace(s[i + |r|..])
  }

  /** Leading whitespace cut off `s` leaves `t`, trailing whitespace cut off
      `t` leaves `r`: then `s` is `r` padded with whitespace. */
  lemma PaddedByTrims(s: string, t: string, r: string)
    requires |t| <= |s| && t == s[|s| - |t|..] && AllSpace(s[..|s| - |t|])
    requires t == [] || !IsSpace(t[0])
    requires |r| <= |t| && r == t[..|r|] && AllSpace(t[|r|..])
    requires r == [] || !IsSpace(r[|r| - 1])
    ensures PaddedAt(s, r, |s| - |t|) && Stripped(r)
  {
    var i := |s| - |t|;
    assert s[i..i + |r|] == r;
    assert s[i + |r|..] == t[|r|..];
    assert r != [] ==> r[0] == t[0];
  }

  /** `s.strip()`: the result has no surrounding whitespace and `s` is the
      result padded with whitespace only. */
  function Strip(s: string): (r: string)
    ensures Stripped(r)
    ensures exists i :: PaddedAt(s, r, i)
  {
    var t := TrimStart(s);
    var r := TrimEnd(t);
    PaddedByTrims(s, t, r);
    r
  }

  lemma {:induction false} TrimStartSkipsSpace(a: string, x: string)
    requires AllSpace(a)
    ensures TrimStart(a + x) == TrimStart(x)
    decreases |a|
  {
    if a != [] {
      assert (a + x)[1..] == a[1..] + x;
      TrimStartSkipsSpace(a[1..], x);
    } else {
      assert a + x == x;
    }
  }

  lemma {:induction false} TrimEndSkipsSpace(x: string, b: string)
    requires AllSpace(b)
    ensures TrimEnd(x + b) == TrimEnd(x)
    decreases |b|
  {
    if b != [] {
      assert (x + b)[..|x + b| - 1] == x + b[..|b| - 1];
      TrimEndSkipsSpace(x, b[..|b| - 1]);
    } else {
      assert x + b == x;
    }
  }

  /** The converse of Strip's contract: whenever `s` is a stripped string
      padded with whitespace, `s.strip()` gives back exactly that string. */
  lemma StripUnique(a: string, r: string, b: string)
    requires AllSpace(a) && AllSpace(b) && Stripped(r)
    ensures Strip(a + r + b) == r
  {
    assert a + r + b == a + (r + b);
    TrimStartSkipsSpace(a, r + b);
    if r == [] {
      assert r + b == [] + b;
      TrimStartSkipsSpace(b, []);
      assert b + [] == b;
    } else {
      TrimEndSkipsSpace(r, b);
    }
  }

  lemma StripIdempotent(s: string)
    ensures Strip(Strip(s)) == Strip(s)
  {
    var r := Strip(s);
    assert [] + r + [] == r;
    StripUnique([], r, []);
  }

  // ---------------------------------------------------------------------
  // " ".join(parts)

  /** `" ".join(parts)`: the parts in order, one space between neighbours. */
  function Join(parts: seq<string>): string
  {
    if |parts| == 0 then ""
    else if |parts| == 1 then parts[0]
    else parts[0] + " " + Join(parts[1..])
  }

  /** Joining two non-empty lists puts exactly one space between them. */
  lemma {:induction false} JoinConcat(a: seq<string>, b: seq<string>)
    requires a != [] && b != []
    ensures Join(a + b) == Join(a) + " " + Join(b)
  {
    if |a| == 1 {
      assert (a + b)[1..] == b;
    } else {
      assert (a + b)[1..] == a[1..] + b;
      JoinConcat(a[1..], b);
    }
  }
}
