/**
 * The parts of Go's `strings` package and of Go's string ordering that the
 * generator relies on. Strings are sequences of Unicode code points; comparing
 * them code point by code point orders them exactly as Go's byte-wise `<`
 * orders their UTF-8 encodings.
 */
module GoStrings {

  /** `strings.HasPrefix(s, p)` */
  predicate HasPrefix(s: string, p: string) {
    |p| <= |s| && s[..|p|] == p
  }

  /** `strings.HasSuffix(s, x)` */
  predicate HasSuffix(s: string, x: string) {
    |x| <= |s| && s[|s| - |x|..] == x
  }

  // ---------------------------------------------------------------------------
  // Go's `<` on strings

  /** Lexicographic order: a proper prefix is smaller, otherwise the first differing character decides. */
  predicate Less(a: string, b: string)
    decreases |a|
  {
    if |a| == 0 then |b| > 0
    else |b| > 0 && (a[0] < b[0] || (a[0] == b[0] && Less(a[1..], b[1..])))
  }

  lemma {:induction false} LessIrreflexive(a: string)
    ensures !Less(a, a)
    decreases |a|
  {
    if |a| > 0 {
      LessIrreflexive(a[1..]);
    }
  }

  lemma {:induction false} LessTransitive(a: string, b: string, c: string)
    requires Less(a, b) && Less(b, c)
    ensures Less(a, c)
    decreases |a|
  {
    if |a| > 0 && a[0] == b[0] && b[0] == c[0] {
      LessTransitive(a[1..], b[1..], c[1..]);
    }
  }

  lemma {:induction false} LessTotal(a: string, b: string)
    requires a != b
    ensures Less(a, b) || Less(b, a)
    decreases |a|
  {
    if |a| > 0 && |b| > 0 && a[0] == b[0] {
      assert a == [a[0]] + a[1..] && b == [b[0]] + b[1..];
      LessTotal(a[1..], b[1..]);
    }
  }

  // ---------------------------------------------------------------------------
  // `strings.Fields` and `strings.Join`

  /** `unicode.IsSpace`: the Latin-1 spaces and the other Unicode White_Space characters. */
  predicate IsSpace(c: char) {
    c == ' ' || c == '\t' || c == '\n' || c == '\U{B}' || c == '\U{C}' || c == '\r'
    || c == '\U{85}' || c == '\U{A0}' || c == '\U{1680}'
    || ('\U{2000}' <= c <= '\U{200A}')
    || c == '\U{2028}' || c == '\U{2029}' || c == '\U{202F}' || c == '\U{205F}' || c == '\U{3000}'
  }

  /** A non-empty run of non-space characters, as `strings.Fields` produces. */
  predicate IsWord(w: string) {
    |w| > 0 && forall i :: 0 <= i < |w| ==> !IsSpace(w[i])
  }

  /** Length of the leading run of non-space characters of `s`. */
  function WordLen(s: string): (n: nat)
    ensures n <= |s|
    ensures forall i :: 0 <= i < n ==> !IsSpace(s[i])
    ensures n < |s| ==> IsSpace(s[n])
  {
    if |s| == 0 || IsSpace(s[0]) then 0 else 1 + WordLen(s[1..])
  }

  /** `strings.Fields(s)`: the maximal runs of non-space characters, in order. */
  function Fields(s: string): (r: seq<string>)
    ensures forall i :: 0 <= i < |r| ==> IsWord(r[i])
    decreases |s|
  {
    if |s| == 0 then []
    else if IsSpace(s[0]) then Fields(s[1..])
    else
      var n := WordLen(s);
      [s[..n]] + Fields(s[n..])
  }

  /** `strings.Join(fs, sep)` */
  function Join(fs: seq<string>, sep: string): string {
    if |fs| == 0 then ""
    else if |fs| == 1 then fs[0]
    else fs[0] + sep + Join(fs[1..], sep)
  }

  /** The characters of `s` that are not spaces, in order. */
  function NonSpace(s: string): string {
    if |s| == 0 then ""
    else (if IsSpace(s[0]) then "" else [s[0]]) + NonSpace(s[1..])
  }

  /** The concatenation of `fs`. */
  function Concat(fs: seq<string>): string {
    if |fs| == 0 then "" else fs[0] + Concat(fs[1..])
  }

  lemma {:induction false} NonSpaceAppend(a: string, b: string)
    ensures NonSpace(a + b) == NonSpace(a) + NonSpace(b)
    decreases |a|
  {
    if |a| > 0 {
      assert (a + b)[0] == a[0] && (a + b)[1..] == a[1..] + b;
      NonSpaceAppend(a[1..], b);
      var h := if IsSpace(a[0]) then "" else [a[0]];
      assert NonSpace(a + b) == h + NonSpace(a[1..] + b);
      assert NonSpace(a) == h + NonSpace(a[1..]);
    } else {
      assert a + b == b;
    }
  }

  lemma {:induction false} NonSpaceOfWord(w: string)
    requires forall i :: 0 <= i < |w| ==> !IsSpace(w[i])
    ensures NonSpace(w) == w
    decreases |w|
  {
    if |w| > 0 {
      NonSpaceOfWord(w[1..]);
    }
  }

  /** Every non-space character of `s` lies in exactly one field, in order. */
  lemma {:induction false} FieldsKeepNonSpace(s: string)
    ensures Concat(Fields(s)) == NonSpace(s)
    decreases |s|
  {
    if |s| > 0 {
      if IsSpace(s[0]) {
        FieldsKeepNonSpace(s[1..]);
      } else {
        var n := WordLen(s);
        FieldsKeepNonSpace(s[n..]);
        assert s == s[..n] + s[n..];
        NonSpaceAppend(s[..n], s[n..]);
        NonSpaceOfWord(s[..n]);
      }
    }
  }

  /** Joining words with single spaces drops only the separators. */
  lemma {:induction false} NonSpaceOfJoin(fs: seq<string>)
    requires forall i :: 0 <= i < |fs| ==> IsWord(fs[i])
    ensures NonSpace(Join(fs, " ")) == Concat(fs)
    decreases |fs|
  {
    if |fs| == 1 {
      NonSpaceOfWord(fs[0]);
      assert Concat(fs[1..]) == "";
    } else if |fs| > 1 {
      NonSpaceOfJoin(fs[1..]);
      NonSpaceOfWord(fs[0]);
      NonSpaceAppend(fs[0], " ");
      NonSpaceAppend(fs[0] + " ", Join(fs[1..], " "));
      assert NonSpace(" ") == "";
    }
  }

  lemma {:induction false} WordLenOfWordThenSpace(w: string, t: string)
    requires IsWord(w) && |t| > 0 && IsSpace(t[0])
    ensures WordLen(w + t) == |w|
    decreases |w|
  {
    if |w| > 1 {
      assert (w + t)[1..] == w[1..] + t;
      WordLenOfWordThenSpace(w[1..], t);
    }
  }

  /** Splitting a space-joined list of words gives the words back. */
  lemma {:induction false} FieldsOfJoin(fs: seq<string>)
    requires forall i :: 0 <= i < |fs| ==> IsWord(fs[i])
    ensures Fields(Join(fs, " ")) == fs
    decreases |fs|
  {
    if |fs| == 1 {
      var w := fs[0];
      WordLenAll(w);
      assert w[..|w|] == w && w[|w|..] == "";
      assert Fields(w) == [w[..|w|]] + Fields(w[|w|..]);
      assert fs == [w];
    } else if |fs| > 1 {
      var w, rest := fs[0], Join(fs[1..], " ");
      var s := w + " " + rest;
      WordLenOfWordThenSpace(w, " " + rest);
      assert s == w + (" " + rest);
      assert s[..|w|] == w;
      assert s[|w|..] == " " + rest;
      assert (" " + rest)[1..] == rest;
      FieldsOfJoin(fs[1..]);
    }
  }

  lemma {:induction false} WordLenAll(w: string)
    requires forall i :: 0 <= i < |w| ==> !IsSpace(w[i])
    ensures WordLen(w) == |w|
    decreases |w|
  {
    if |w| > 0 {
      WordLenAll(w[1..]);
    }
  }

  /** Whitespace occurs only as single ' ' characters strictly between two non-space characters. */
  predicate SingleSpaced(r: string) {
    forall i :: 0 <= i < |r| && IsSpace(r[i]) ==>
      r[i] == ' ' && 0 < i < |r| - 1 && !IsSpace(r[i - 1]) && !IsSpace(r[i + 1])
  }

  lemma {:induction false} JoinEnds(fs: seq<string>)
    requires |fs| > 0 && forall i :: 0 <= i < |fs| ==> IsWord(fs[i])
    ensures var r := Join(fs, " "); |r| > 0 && !IsSpace(r[0]) && !IsSpace(r[|r| - 1])
    decreases |fs|
  {
    if |fs| > 1 {
      JoinEnds(fs[1..]);
    }
  }

  /** A space-joined list of words is single-spaced. */
  lemma {:induction false} JoinSingleSpaced(fs: seq<string>)
    requires forall i :: 0 <= i < |fs| ==> IsWord(fs[i])
    ensures SingleSpaced(Join(fs, " "))
    decreases |fs|
  {
    if |fs| > 1 {
      var w, rest := fs[0], Join(fs[1..], " ");
      JoinSingleSpaced(fs[1..]);
      JoinEnds(fs[1..]);
      var r := w + " " + rest;
      assert Join(fs, " ") == r;
      forall i | 0 <= i < |r| && IsSpace(r[i])
        ensures r[i] == ' ' && 0 < i < |r| - 1 && !IsSpace(r[i - 1]) && !IsSpace(r[i + 1])
      {
        if i == |w| {
          assert r[i - 1] == w[|w| - 1] && r[i + 1] == rest[0];
        } else if i > |w| {
          var k := i - |w| - 1;
          assert r[i] == rest[k];
          assert k > 0 by {
            if k == 0 { assert !IsSpace(rest[0]); }
          }
          assert r[i - 1] == rest[k - 1] && r[i + 1] == rest[k + 1];
        }
      }
    }
  }
}
