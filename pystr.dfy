/**
 * The parts of Python's `str` that the harness scripts rely on: `isspace`,
 * `rstrip()`, `strip()`, the `in` operator, `endswith`, `index`, `split(sep)`,
 * `lower()` and `str(n)` for a non-negative `int`.
 */
module PyStr {

  /** The characters for which Python's `str.isspace()` holds. */
  predicate IsSpace(c: char) {
    || c == ' ' || ('\U{0009}' <= c <= '\U{000D}') || ('\U{001C}' <= c <= '\U{001F}')
    || c == '\U{0085}' || c == '\U{00A0}' || c == '\U{1680}'
    || ('\U{2000}' <= c <= '\U{200A}') || c == '\U{2028}' || c == '\U{2029}'
    || c == '\U{202F}' || c == '\U{205F}' || c == '\U{3000}'
  }

  /** `s.rstrip()`: the longest prefix of `s` that does not end in whitespace. */
  function RStrip(s: string): (r: string)
    ensures |r| <= |s| && r == s[..|r|]
    ensures r == [] || !IsSpace(r[|r| - 1])
    ensures forall i :: |r| <= i < |s| ==> IsSpace(s[i])
  {
    if |s| > 0 && IsSpace(s[|s| - 1]) then RStrip(s[..|s| - 1]) else s
  }

  /** `s.lstrip()`: the longest suffix of `s` that does not start with whitespace. */
  function LStrip(s: string): (r: string)
    ensures |r| <= |s| && r == s[|s| - |r|..]
    ensures r == [] || !IsSpace(r[0])
    ensures forall i :: 0 <= i < |s| - |r| ==> IsSpace(s[i])
  {
    if |s| > 0 && IsSpace(s[0]) then LStrip(s[1..]) else s
  }

  /** `r` is `s` with exactly the whitespace before offset `k` and after `k + |r|` removed. */
  predicate TrimmedAt(s: string, r: string, k: nat) {
    && k + |r| <= |s| && s[k..k + |r|] == r
    && (forall i :: 0 <= i < k ==> IsSpace(s[i]))
    && (forall i :: k + |r| <= i < |s| ==> IsSpace(s[i]))
  }

  /** Right-stripping removes exactly a run of trailing whitespace. */
  lemma {:induction false} RStripTrailingSpace(head: string, gap: string)
    requires head == [] || !IsSpace(head[|head| - 1])
    requires forall i :: 0 <= i < |gap| ==> IsSpace(gap[i])
    ensures RStrip(head + gap) == head
    decreases |gap|
  {
    if gap != [] {
      var shorter := gap[..|gap| - 1];
      assert (head + gap)[..|head + gap| - 1] == head + shorter;
      RStripTrailingSpace(head, shorter);
    } else {
      assert head + gap == head;
    }
  }

  /** `s.strip()`: `s` without its leading and trailing whitespace. */
  function Strip(s: string): (r: string)
    ensures r == [] || (!IsSpace(r[0]) && !IsSpace(r[|r| - 1]))
    ensures exists k: nat :: TrimmedAt(s, r, k)
  {
    var t := RStrip(s);
    var r := LStrip(t);
    assert TrimmedAt(s, r, |t| - |r|);
    r
  }

  /** Stripping introduces no character. */
  lemma StripKeepsAbsent(s: string, c: char)
    requires c !in s
    ensures c !in Strip(s)
  {
    var r := Strip(s);
    var k: nat :| TrimmedAt(s, r, k);
    forall j | 0 <= j < |r|
      ensures r[j] != c
    {
      assert r[j] == s[k + j];
      assert s[k + j] in s;
    }
  }

  /** `s.startswith(p)` */
  predicate StartsWith(s: string, p: string) {
    |p| <= |s| && s[..|p|] == p
  }

  /** `s.endswith(p)` */
  predicate EndsWith(s: string, p: string) {
    |p| <= |s| && s[|s| - |p|..] == p
  }

  /** `n` occurs in `h` at offset `i`. */
  predicate OccursAt(h: string, n: string, i: nat) {
    i + |n| <= |h| && h[i..i + |n|] == n
  }

  /** The substring test `n in h`. */
  predicate Contains(h: string, n: string)
    decreases |h|
  {
    StartsWith(h, n) || (|h| > 0 && Contains(h[1..], n))
  }

  /** `Contains` holds exactly when `n` occurs at some offset of `h`. */
  lemma {:induction false} ContainsIffOccurs(h: string, n: string)
    ensures Contains(h, n) <==> exists i: nat :: OccursAt(h, n, i)
    decreases |h|
  {
    if StartsWith(h, n) {
      assert OccursAt(h, n, 0);
    } else if |h| > 0 {
      ContainsIffOccurs(h[1..], n);
      if exists i: nat :: OccursAt(h, n, i) {
        var i: nat :| OccursAt(h, n, i);
        assert i != 0;
        assert OccursAt(h[1..], n, i - 1);
      }
      if Contains(h[1..], n) {
        var i: nat :| OccursAt(h[1..], n, i);
        assert OccursAt(h, n, i + 1);
      }
    }
  }

  lemma SliceOfSlice(s: string, a: nat, b: nat, c: nat, d: nat)
    requires a <= b <= |s| && c <= d <= b - a
    ensures s[a..b][c..d] == s[a + c..a + d]
  {
    forall x | 0 <= x < d - c
      ensures s[a..b][c..d][x] == s[a + c..a + d][x]
    {
    }
  }

  /** An occurrence in the stripped string is an occurrence in the original, shifted by `k`. */
  lemma OccursInOriginal(t: string, r: string, k: nat, n: string, i: nat)
    requires TrimmedAt(t, r, k) && OccursAt(r, n, i)
    ensures OccursAt(t, n, k + i)
  {
    SliceOfSlice(t, k, k + |r|, i, i + |n|);
  }

  /** An occurrence of a needle with non-blank ends lies inside the stripped part. */
  lemma OccursInTrimmed(t: string, r: string, k: nat, n: string, j: nat)
    requires TrimmedAt(t, r, k) && OccursAt(t, n, j)
    requires n != [] && !IsSpace(n[0]) && !IsSpace(n[|n| - 1])
    ensures k <= j && OccursAt(r, n, j - k)
  {
    assert t[j] == t[j..j + |n|][0] == n[0];
    assert t[j + |n| - 1] == t[j..j + |n|][|n| - 1] == n[|n| - 1];
    assert k <= j;
    assert j + |n| <= k + |r|;
    SliceOfSlice(t, k, k + |r|, j - k, j - k + |n|);
  }

  /** A needle without whitespace at its ends occurs in `t` exactly when it occurs in `t.strip()`. */
  lemma StripKeepsContains(t: string, n: string)
    requires n != [] && !IsSpace(n[0]) && !IsSpace(n[|n| - 1])
    ensures Contains(Strip(t), n) <==> Contains(t, n)
  {
    var r := Strip(t);
    var k: nat :| TrimmedAt(t, r, k);
    ContainsIffOccurs(r, n);
    ContainsIffOccurs(t, n);
    if Contains(r, n) {
      var i: nat :| OccursAt(r, n, i);
      OccursInOriginal(t, r, k, n, i);
    }
    if Contains(t, n) {
      var j: nat :| OccursAt(t, n, j);
      OccursInTrimmed(t, r, k, n, j);
    }
  }

  /** `s.index(c)` where the caller has already checked `c in s`: the first position of `c`. */
  function IndexOf(s: string, c: char): (r: nat)
    requires c in s
    ensures r < |s| && s[r] == c && c !in s[..r]
  {
    if s[0] == c then 0 else 1 + IndexOf(s[1..], c)
  }

  /** A position holding `c` with no `c` before it is the one `IndexOf` finds. */
  lemma IndexOfUnique(s: string, c: char, k: nat)
    requires k < |s| && s[k] == c && c !in s[..k]
    ensures IndexOf(s, c) == k
  {
  }

  /** `s.split(sep)` for a one-character separator. */
  function Split(s: string, sep: char): (r: seq<string>)
    ensures |r| >= 1
    ensures forall i :: 0 <= i < |r| ==> sep !in r[i]
    decreases |s|
  {
    if sep !in s then [s]
    else
      var i := IndexOf(s, sep);
      [s[..i]] + Split(s[i + 1..], sep)
  }

  /** Splitting at a first separator found at position `k`. */
  lemma SplitAtFirst(s: string, sep: char, k: nat)
    requires k < |s| && s[k] == sep && sep !in s[..k]
    ensures Split(s, sep) == [s[..k]] + Split(s[k + 1..], sep)
  {
    IndexOfUnique(s, sep, k);
  }

  /** `sep.join(parts)`: the inverse of `Split`. */
  function JoinWith(parts: seq<string>, sep: char): string
    requires |parts| >= 1
  {
    if |parts| == 1 then parts[0] else parts[0] + [sep] + JoinWith(parts[1..], sep)
  }

  /** Joining the fields of a split gives back the original string. */
  lemma {:induction false} JoinSplit(s: string, sep: char)
    ensures JoinWith(Split(s, sep), sep) == s
    decreases |s|
  {
    if sep in s {
      var i := IndexOf(s, sep);
      JoinSplit(s[i + 1..], sep);
      assert Split(s, sep)[1..] == Split(s[i + 1..], sep);
      assert s == s[..i] + [sep] + s[i + 1..];
    }
  }

  /** Splitting a join of separator-free fields gives back the fields. */
  lemma {:induction false} SplitJoin(parts: seq<string>, sep: char)
    requires |parts| >= 1
    requires forall i :: 0 <= i < |parts| ==> sep !in parts[i]
    ensures Split(JoinWith(parts, sep), sep) == parts
  {
    if |parts| > 1 {
      var s := JoinWith(parts, sep);
      var rest := JoinWith(parts[1..], sep);
      var k := |parts[0]|;
      assert s == parts[0] + [sep] + rest;
      assert s[..k] == parts[0] && s[k] == sep && s[k + 1..] == rest;
      SplitAtFirst(s, sep, k);
      SplitJoin(parts[1..], sep);
      assert parts == [parts[0]] + parts[1..];
    }
  }

  /** `s.split(sep)` has a field at index 1 exactly when `sep` occurs in `s`. */
  lemma SplitHasSecondField(s: string, sep: char)
    ensures |Split(s, sep)| >= 2 <==> sep in s
  {
  }

  /** ASCII approximation of Python's `str.lower()`. */
  function LowerChar(c: char): char {
    if 'A' <= c <= 'Z' then (c as int + 32) as char else c
  }

  function Lower(s: string): (r: string)
    ensures |r| == |s|
    ensures forall i :: 0 <= i < |s| ==> r[i] == LowerChar(s[i])
  {
    seq(|s|, i requires 0 <= i < |s| => LowerChar(s[i]))
  }

  /** The comparison `a.lower() == b.lower()`. */
  predicate EqualsIgnoringCase(a: string, b: string) {
    Lower(a) == Lower(b)
  }

  function DigitChar(d: nat): char
    requires d < 10
  {
    ('0' as int + d) as char
  }

  function DigitValue(c: char): int {
    c as int - '0' as int
  }

  /** `str(n)` for a non-negative integer: its decimal digits, with no leading zero. */
  function NatToStr(n: nat): (r: string)
    ensures |r| >= 1
    ensures forall i :: 0 <= i < |r| ==> '0' <= r[i] <= '9'
    ensures |r| > 1 ==> r[0] != '0'
    decreases n
  {
    if n < 10 then [DigitChar(n)] else NatToStr(n / 10) + [DigitChar(n % 10)]
  }

  /** Reads a string of decimal digits back as a number (Python's `int(s)`). */
  function ParseNat(s: string): int {
    if s == [] then 0 else ParseNat(s[..|s| - 1]) * 10 + DigitValue(s[|s| - 1])
  }

  /** `int(str(n)) == n` */
  lemma {:induction false} ParseNatToStr(n: nat)
    ensures ParseNat(NatToStr(n)) == n
    decreases n
  {
    if n >= 10 {
      ParseNatToStr(n / 10);
      var s := NatToStr(n);
      assert s[..|s| - 1] == NatToStr(n / 10);
    }
  }

  /** Different numbers have different decimal representations. */
  lemma NatToStrInjective(a: nat, b: nat)
    ensures NatToStr(a) == NatToStr(b) ==> a == b
  {
    ParseNatToStr(a);
    ParseNatToStr(b);
  }
}
