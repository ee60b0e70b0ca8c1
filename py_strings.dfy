/**
 * The two Python string operations the pipeline scripts rely on:
 * `str.strip()` with no argument, and `encode('ascii', errors='ignore')`
 * followed by `decode('ascii')`, which deletes every non-ASCII character.
 * Characters are Unicode scalar values. Python's `str` can also hold lone
 * surrogates, which `os.getenv` produces for undecodable bytes; the model
 * leaves them out (`strip()` would keep one and the ASCII filter drop it).
 */
module PyStrings {

  /** `str.isspace()` for one character: the characters `str.strip()` removes. */
  predicate IsWhitespace(c: char)
  {
    var n := c as int;
    (0x09 <= n <= 0x0D) || (0x1C <= n <= 0x20) || n == 0x85 || n == 0xA0 ||
    n == 0x1680 || (0x2000 <= n <= 0x200A) || n == 0x2028 || n == 0x2029 ||
    n == 0x202F || n == 0x205F || n == 0x3000
  }

  /** A character the ASCII codec accepts: code point below 128. */
  predicate IsAscii(c: char)
  {
    (c as int) < 128
  }

  predicate AllAscii(s: string)
  {
    forall k :: 0 <= k < |s| ==> IsAscii(s[k])
  }

  /** A concatenation is pure ASCII exactly when both parts are. */
  lemma AllAsciiAppend(a: string, b: string)
    ensures AllAscii(a + b) <==> AllAscii(a) && AllAscii(b)
  {
    if AllAscii(a + b) {
      forall k | 0 <= k < |a| ensures IsAscii(a[k]) {
        assert (a + b)[k] == a[k];
      }
      forall k | 0 <= k < |b| ensures IsAscii(b[k]) {
        assert (a + b)[|a| + k] == b[k];
      }
    }
    if AllAscii(a) && AllAscii(b) {
      forall k | 0 <= k < |a + b| ensures IsAscii((a + b)[k]) {
        if k < |a| {
          assert (a + b)[k] == a[k];
        } else {
          assert (a + b)[k] == b[k - |a|];
        }
      }
    }
  }

  /** Number of whitespace characters at the start of `s`. */
  function LeadingSpace(s: string): (n: nat)
    ensures n <= |s|
    ensures forall k :: 0 <= k < n ==> IsWhitespace(s[k])
    ensures n < |s| ==> !IsWhitespace(s[n])
  {
    if s != [] && IsWhitespace(s[0]) then 1 + LeadingSpace(s[1..]) else 0
  }

  /** Number of whitespace characters at the end of `s`. */
  function TrailingSpace(s: string): (n: nat)
    ensures n <= |s|
    ensures forall k :: |s| - n <= k < |s| ==> IsWhitespace(s[k])
    ensures n < |s| ==> !IsWhitespace(s[|s| - 1 - n])
  {
    if s != [] && IsWhitespace(s[|s| - 1]) then 1 + TrailingSpace(s[..|s| - 1]) else 0
  }

  /** `s.lstrip()`: what follows the leading whitespace. */
  function StripLeft(s: string): (r: string)
    ensures |r| <= |s| && r == s[|s| - |r|..]
    ensures |s| - |r| == LeadingSpace(s)
    ensures r != [] ==> !IsWhitespace(r[0])
  {
    s[LeadingSpace(s)..]
  }

  /** `s.rstrip()`: what precedes the trailing whitespace. */
  function StripRight(s: string): (r: string)
    ensures |r| <= |s| && r == s[..|r|]
    ensures forall k :: |r| <= k < |s| ==> IsWhitespace(s[k])
    ensures r != [] ==> !IsWhitespace(r[|r| - 1])
  {
    var r := s[..|s| - TrailingSpace(s)];
    assert r != [] ==> r[|r| - 1] == s[|s| - 1 - TrailingSpace(s)];
    r
  }

  /**
   * `s.strip()`: the part of `s` that starts where its leading whitespace
   * ends and after which only whitespace follows; it neither starts nor ends
   * with whitespace.
   */
  function Strip(s: string): (r: string)
    ensures |r| <= |s|
    ensures LeadingSpace(s) + |r| <= |s| && r == s[LeadingSpace(s)..LeadingSpace(s) + |r|]
    ensures forall k :: LeadingSpace(s) + |r| <= k < |s| ==> IsWhitespace(s[k])
    ensures r != [] ==> !IsWhitespace(r[0]) && !IsWhitespace(r[|r| - 1])
  {
    var t := StripLeft(s);
    var r := StripRight(t);
    var i := LeadingSpace(s);
    assert t == s[i..];
    assert r == s[i..i + |r|];
    forall k | i + |r| <= k < |s| ensures IsWhitespace(s[k]) {
      assert s[k] == t[k - i];
    }
    assert r != [] ==> r[0] == t[0];
    r
  }

  /** `strip()` gives "" exactly for a string made of whitespace only. */
  lemma StripEmpty(s: string)
    ensures Strip(s) == [] <==> forall k :: 0 <= k < |s| ==> IsWhitespace(s[k])
  {
    var r := Strip(s);
    if r == [] {
      assert LeadingSpace(s) == |s|;
    }
  }

  /** A string that neither starts nor ends with whitespace is left as it is by `strip()`. */
  lemma StripUnchanged(s: string)
    requires s != [] ==> !IsWhitespace(s[0]) && !IsWhitespace(s[|s| - 1])
    ensures Strip(s) == s
  {
    if s != [] {
      assert LeadingSpace(s) == 0;
      assert TrailingSpace(s) == 0;
    }
  }

  /** A string whose first and last characters are not whitespace is left as it is. */
  lemma StripUnchangedCons(h: char, t: string)
    requires !IsWhitespace(h)
    requires t != [] ==> !IsWhitespace(t[|t| - 1])
    ensures Strip([h] + t) == [h] + t
  {
    var s := [h] + t;
    assert s[0] == h && s[|s| - 1] == if t == [] then h else t[|t| - 1];
    StripUnchanged(s);
  }

  /**
   * `s.encode('ascii', errors='ignore').decode('ascii')`: every ASCII
   * character kept with its multiplicity, every other one dropped.
   */
  function AsciiOnly(s: string): (r: string)
    ensures |r| <= |s|
    ensures AllAscii(r)
  {
    if s == [] then []
    else (if IsAscii(s[0]) then [s[0]] else []) + AsciiOnly(s[1..])
  }

  /** Every ASCII character is kept as often as it occurs; every other one is dropped. */
  lemma {:induction false} AsciiOnlyCounts(s: string)
    ensures forall c :: multiset(AsciiOnly(s))[c] == if IsAscii(c) then multiset(s)[c] else 0
  {
    if s != [] {
      AsciiOnlyCounts(s[1..]);
      assert s == [s[0]] + s[1..];
      assert multiset(s) == multiset([s[0]]) + multiset(s[1..]);
    }
  }

  /** Filtering keeps the order of what it keeps: it distributes over concatenation. */
  lemma {:induction false} AsciiOnlyAppend(a: string, b: string)
    ensures AsciiOnly(a + b) == AsciiOnly(a) + AsciiOnly(b)
  {
    if a == [] {
      assert a + b == b;
    } else {
      var head := if IsAscii(a[0]) then [a[0]] else [];
      calc {
        AsciiOnly(a + b);
        { assert (a + b)[0] == a[0] && (a + b)[1..] == a[1..] + b; }
        head + AsciiOnly(a[1..] + b);
        { AsciiOnlyAppend(a[1..], b); }
        head + (AsciiOnly(a[1..]) + AsciiOnly(b));
        (head + AsciiOnly(a[1..])) + AsciiOnly(b);
        AsciiOnly(a) + AsciiOnly(b);
      }
    }
  }

  /** A non-ASCII character is dropped without a trace. */
  lemma AsciiOnlyDropsNonAscii(h: char, t: string)
    requires !IsAscii(h)
    ensures AsciiOnly([h] + t) == AsciiOnly(t)
  {
    assert ([h] + t)[1..] == t;
  }

  /** Filtering changes a string exactly when the string holds a non-ASCII character. */
  lemma {:induction false} AsciiOnlyUnchanged(s: string)
    ensures AsciiOnly(s) == s <==> AllAscii(s)
  {
    if s != [] {
      AsciiOnlyUnchanged(s[1..]);
      if AllAscii(s) {
        assert AllAscii(s[1..]) by {
          forall k | 0 <= k < |s| - 1 ensures IsAscii(s[1..][k]) {
            assert s[1..][k] == s[k + 1];
          }
        }
      }
    }
  }
}
