/** The string operations of the Python standard library that the pipeline
    relies on: `str.lower` (ASCII letters only), `str.strip()`, `str.split(sep)`,
    `sep.join(pieces)` and the substring test `needle in hay`. */
module Text {

  // ---------------------------------------------------------------------------
  // Lower-casing
  // ---------------------------------------------------------------------------

  predicate IsUpper(c: char) {
    'A' <= c <= 'Z'
  }

  /** ASCII lower-casing of one character; other characters are unchanged. */
  function LowerChar(c: char): (d: char)
    ensures !IsUpper(d)
    ensures !IsUpper(c) ==> d == c
    ensures IsUpper(c) ==> 'a' <= d <= 'z' && d as int == c as int + ('a' as int - 'A' as int)
  {
    if IsUpper(c) then (c as int + 32) as char else c
  }

  predicate IsLowerCase(s: string) {
    forall i :: 0 <= i < |s| ==> !IsUpper(s[i])
  }

  /** `s.lower()` restricted to ASCII letters. */
  function Lower(s: string): (r: string)
    ensures |r| == |s|
    ensures IsLowerCase(r)
    ensures forall i :: 0 <= i < |s| && !IsUpper(s[i]) ==> r[i] == s[i]
    ensures forall i :: 0 <= i < |s| && IsUpper(s[i]) ==> r[i] as int == s[i] as int + ('a' as int - 'A' as int)
  {
    seq(|s|, i requires 0 <= i < |s| => LowerChar(s[i]))
  }

  /** Lower-casing leaves an already lower-case string alone, hence it is idempotent. */
  lemma LowerOfLowerCase(s: string)
    requires IsLowerCase(s)
    ensures Lower(s) == s
  {
  }

  lemma LowerIdempotent(s: string)
    ensures Lower(Lower(s)) == Lower(s)
  {
    LowerOfLowerCase(Lower(s));
  }

  // ---------------------------------------------------------------------------
  // Stripping
  // ---------------------------------------------------------------------------

  /** The characters for which Python's `str.isspace()` holds, i.e. those that
      `str.strip()` with no argument removes. */
  predicate IsSpace(c: char) {
    var n := c as int;
    || (9 <= n <= 13) || (28 <= n <= 32) || n == 0x85 || n == 0xA0 || n == 0x1680
    || (0x2000 <= n <= 0x200A) || n == 0x2028 || n == 0x2029 || n == 0x202F
    || n == 0x205F || n == 0x3000
  }

  predicate AllSpace(s: string) {
    forall i :: 0 <= i < |s| ==> IsSpace(s[i])
  }

  /** No whitespace at either end. */
  predicate IsTrimmed(s: string) {
    s == [] || (!IsSpace(s[0]) && !IsSpace(s[|s| - 1]))
  }

  /** `s.lstrip()`: the suffix left after dropping leading whitespace. */
  function StripLeft(s: string): (r: string)
    ensures |r| <= |s|
    ensures r != [] ==> !IsSpace(r[0])
  {
    if s != [] && IsSpace(s[0]) then StripLeft(s[1..]) else s
  }

  /** `StripLeft` returns a suffix of its argument. */
  lemma {:induction false} StripLeftSuffix(s: string)
    ensures StripLeft(s) == s[|s| - |StripLeft(s)|..]
    decreases |s|
  {
    if s != [] && IsSpace(s[0]) {
      StripLeftSuffix(s[1..]);
      DropOfSuffix(s, 1, |s| - 1 - |StripLeft(s)|);
    }
  }

  /** What `StripLeft` drops is whitespace only. */
  lemma {:induction false} StripLeftDropsOnlySpace(s: string)
    ensures AllSpace(s[..|s| - |StripLeft(s)|])
    decreases |s|
  {
    if s != [] && IsSpace(s[0]) {
      StripLeftDropsOnlySpace(s[1..]);
      var k := |s| - |StripLeft(s)|;
      assert forall j :: 1 <= j < k ==> s[..k][j] == s[1..][..k - 1][j - 1];
    }
  }

  /** `s.rstrip()`: the prefix left after dropping trailing whitespace. */
  function StripRight(s: string): (r: string)
    ensures |r| <= |s|
    ensures r != [] ==> !IsSpace(r[|r| - 1])
  {
    if s != [] && IsSpace(s[|s| - 1]) then StripRight(s[..|s| - 1]) else s
  }

  /** `StripRight` returns a prefix of its argument. */
  lemma {:induction false} StripRightPrefix(s: string)
    ensures StripRight(s) == s[..|StripRight(s)|]
    decreases |s|
  {
    if s != [] && IsSpace(s[|s| - 1]) {
      StripRightPrefix(s[..|s| - 1]);
      assert s[..|s| - 1][..|StripRight(s)|] == s[..|StripRight(s)|];
    }
  }

  /** What `StripRight` drops is whitespace only. */
  lemma {:induction false} StripRightDropsOnlySpace(s: string)
    ensures AllSpace(s[|StripRight(s)|..])
    decreases |s|
  {
    if s != [] && IsSpace(s[|s| - 1]) {
      StripRightDropsOnlySpace(s[..|s| - 1]);
      var k := |StripRight(s)|;
      assert forall j :: k <= j < |s| - 1 ==> s[j] == s[..|s| - 1][j];
    }
  }

  /** The number of whitespace characters `s.lstrip()` drops. */
  function LeadingSpace(s: string): (n: nat)
    ensures n <= |s|
  {
    |s| - |StripLeft(s)|
  }

  /** `s.strip()`: the slice of `s` left after dropping whitespace at both ends. */
  function Strip(s: string): (r: string)
    ensures IsTrimmed(r)
    ensures LeadingSpace(s) + |r| <= |s|
  {
    var t := StripLeft(s);
    var r := StripRight(t);
    StripRightPrefix(t);
    assert r != [] ==> r[0] == t[0];
    r
  }

  /** `Strip` returns the slice of `s` that starts after the leading whitespace. */
  lemma StripSlice(s: string)
    ensures Strip(s) == s[LeadingSpace(s)..LeadingSpace(s) + |Strip(s)|]
  {
    var t := StripLeft(s);
    var r := StripRight(t);
    var i := |s| - |t|;
    assert i == LeadingSpace(s) && r == Strip(s);
    StripLeftSuffix(s);
    StripRightPrefix(t);
    SliceOfSuffix(s, i, |r|);
  }

  lemma SliceOfSuffix(s: string, i: nat, n: nat)
    requires i + n <= |s|
    ensures s[i..][..n] == s[i..i + n]
  {
  }

  /** What `Strip` drops is whitespace only. */
  lemma {:induction false} StripDropsOnlySpace(s: string)
    ensures AllSpace(s[..LeadingSpace(s)])
    ensures AllSpace(s[LeadingSpace(s) + |Strip(s)|..])
  {
    var t := StripLeft(s);
    var r := StripRight(t);
    var i := |s| - |t|;
    assert i == LeadingSpace(s) && r == Strip(s);
    StripLeftSuffix(s);
    StripLeftDropsOnlySpace(s);
    StripRightDropsOnlySpace(t);
    DropOfSuffix(s, i, |r|);
  }

  lemma DropOfSuffix(s: string, i: nat, n: nat)
    requires i + n <= |s|
    ensures s[i..][n..] == s[i + n..]
  {
  }

  /** A string without whitespace at its ends is its own strip. */
  lemma StripTrimmed(s: string)
    requires IsTrimmed(s)
    ensures Strip(s) == s
  {
  }

  // ---------------------------------------------------------------------------
  // Normalization: `s.lower().strip()`
  // ---------------------------------------------------------------------------

  /** A string that lower-then-strip leaves unchanged. */
  predicate IsNormalized(s: string) {
    IsLowerCase(s) && IsTrimmed(s)
  }

  lemma LowerCaseSlice(s: string, i: nat, j: nat)
    requires IsLowerCase(s) && i <= j <= |s|
    ensures IsLowerCase(s[i..j])
  {
    assert forall k :: 0 <= k < j - i ==> s[i..j][k] == s[i + k];
  }

  /** `s.lower().strip()`, as config.py applies to every comma piece. */
  function Normalize(s: string): (r: string)
    ensures IsNormalized(r)
    ensures |r| <= |s|
  {
    var l := Lower(s);
    StripSlice(l);
    LowerCaseSlice(l, LeadingSpace(l), LeadingSpace(l) + |Strip(l)|);
    Strip(l)
  }

  /** The normalized strings are exactly the fixed points of lower-then-strip. */
  lemma {:induction false} NormalizedIsFixedPoint(s: string)
    ensures IsNormalized(s) <==> Normalize(s) == s
  {
    if IsNormalized(s) {
      LowerOfLowerCase(s);
      StripTrimmed(s);
    }
  }

  lemma {:induction false} NormalizeIdempotent(s: string)
    ensures Normalize(Normalize(s)) == Normalize(s)
  {
    NormalizedIsFixedPoint(Normalize(s));
  }

  /** A piece made only of whitespace normalizes to the empty string. */
  lemma {:induction false} NormalizeAllSpace(s: string)
    ensures AllSpace(s) <==> Normalize(s) == ""
  {
    var l := Lower(s);
    assert forall k :: 0 <= k < |s| ==> (IsSpace(s[k]) <==> IsSpace(l[k]));
    var r := Strip(l);
    var i := LeadingSpace(l);
    StripSlice(l);
    StripDropsOnlySpace(l);
    if r == [] {
      assert l == l[..i] + l[i..];
    }
  }

  // ---------------------------------------------------------------------------
  // Splitting and joining
  // ---------------------------------------------------------------------------

  /** `sep.join(pieces)`: the pieces with `sep` between neighbours; `""` for no pieces. */
  function Join(pieces: seq<string>, sep: string): string
  {
    if |pieces| == 0 then ""
    else if |pieces| == 1 then pieces[0]
    else pieces[0] + sep + Join(pieces[1..], sep)
  }

  lemma JoinCons(x: string, rest: seq<string>, sep: string)
    requires |rest| > 0
    ensures Join([x] + rest, sep) == x + sep + Join(rest, sep)
  {
    assert ([x] + rest)[1..] == rest;
  }

  /** `s.split(sep)` for a one-character separator: the maximal runs between
      separators, including empty ones; never an empty list. */
  function Split(s: string, sep: char): (r: seq<string>)
    ensures 1 <= |r| <= |s| + 1
    decreases |s|
  {
    if s == [] then [[]]
    else
      var rest := Split(s[1..], sep);
      if s[0] == sep then [[]] + rest
      else [[s[0]] + rest[0]] + rest[1..]
  }

  /** A split has one piece more than there are separators. */
  lemma {:induction false} SplitCount(s: string, sep: char)
    ensures |Split(s, sep)| == multiset(s)[sep] + 1
    decreases |s|
  {
    if s != [] {
      SplitCount(s[1..], sep);
      assert s == [s[0]] + s[1..];
      assert multiset(s)[sep] == multiset(s[1..])[sep] + if s[0] == sep then 1 else 0;
    }
  }

  /** No piece of a split contains the separator. */
  lemma {:induction false} SplitPiecesAvoidSeparator(s: string, sep: char)
    ensures forall i :: 0 <= i < |Split(s, sep)| ==> sep !in Split(s, sep)[i]
    decreases |s|
  {
    if s != [] {
      SplitPiecesAvoidSeparator(s[1..], sep);
      var rest := Split(s[1..], sep);
      if s[0] != sep {
        assert forall i :: 1 <= i < |Split(s, sep)| ==> Split(s, sep)[i] == rest[i];
      } else {
        assert forall i :: 1 <= i < |Split(s, sep)| ==> Split(s, sep)[i] == rest[i - 1];
      }
    }
  }

  /** Joining the pieces of a split restores the string. */
  lemma {:induction false} JoinSplit(s: string, sep: char)
    ensures Join(Split(s, sep), [sep]) == s
    decreases |s|
  {
    if s != [] {
      JoinSplit(s[1..], sep);
      assert s == [s[0]] + s[1..];
      JoinSplitStep(s[0], s[1..], sep);
    }
  }

  lemma JoinSplitStep(c: char, t: string, sep: char)
    requires Join(Split(t, sep), [sep]) == t
    ensures Join(Split([c] + t, sep), [sep]) == [c] + t
  {
    var s := [c] + t;
    assert s[0] == c && s[1..] == t;
    var rest := Split(t, sep);
    if c == sep {
      assert Split(s, sep) == [[]] + rest;
      JoinCons([], rest, [sep]);
    } else {
      assert Split(s, sep) == [[c] + rest[0]] + rest[1..];
      JoinExtendFirst([c], rest, [sep]);
    }
  }

  lemma JoinExtendFirst(c: string, p: seq<string>, sep: string)
    requires |p| > 0
    ensures Join([c + p[0]] + p[1..], sep) == c + Join(p, sep)
  {
    if |p| > 1 {
      JoinCons(c + p[0], p[1..], sep);
      JoinCons(p[0], p[1..], sep);
      assert [p[0]] + p[1..] == p;
    }
  }

  lemma {:induction false} SplitWithoutSeparator(s: string, sep: char)
    requires sep !in s
    ensures Split(s, sep) == [s]
    decreases |s|
  {
    if s != [] {
      SplitWithoutSeparator(s[1..], sep);
      assert [s[0]] + s[1..] == s;
    }
  }

  lemma {:induction false} SplitAfterPiece(a: string, b: string, sep: char)
    requires sep !in a
    ensures Split(a + [sep] + b, sep) == [a] + Split(b, sep)
    decreases |a|
  {
    if a == [] {
      assert a + [sep] + b == [sep] + b;
      assert ([sep] + b)[1..] == b;
    } else {
      var s := a + [sep] + b;
      assert s[1..] == a[1..] + [sep] + b;
      SplitAfterPiece(a[1..], b, sep);
      assert [a[0]] + a[1..] == a;
    }
  }

  /** Splitting undoes joining when no piece contains the separator: the other
      half of the round trip stated by `JoinSplit`. */
  lemma {:induction false} SplitJoin(pieces: seq<string>, sep: char)
    requires |pieces| > 0
    requires forall i :: 0 <= i < |pieces| ==> sep !in pieces[i]
    ensures Split(Join(pieces, [sep]), sep) == pieces
    decreases |pieces|
  {
    if |pieces| == 1 {
      SplitWithoutSeparator(pieces[0], sep);
    } else {
      SplitJoin(pieces[1..], sep);
      SplitAfterPiece(pieces[0], Join(pieces[1..], [sep]), sep);
      assert [pieces[0]] + pieces[1..] == pieces;
    }
  }

  // ---------------------------------------------------------------------------
  // Substrings
  // ---------------------------------------------------------------------------

  /** `needle in hay` for strings: `needle` occurs at some position of `hay`. */
  ghost predicate IsSubstring(needle: string, hay: string) {
    exists i :: 0 <= i <= |hay| && needle <= hay[i..]
  }

  /** The empty string occurs in every string. */
  lemma EmptyIsSubstring(hay: string)
    ensures IsSubstring("", hay)
  {
    assert "" <= hay[0..];
  }

  /** Left-to-right scan for `needle` in `hay`. */
  function Contains(hay: string, needle: string): (r: bool)
    ensures r <==> IsSubstring(needle, hay)
    decreases |hay|
  {
    if needle <= hay then
      assert hay[0..] == hay;
      true
    else if hay == [] then
      false
    else
      assert forall i :: 1 <= i <= |hay| ==> hay[i..] == hay[1..][i - 1..];
      Contains(hay[1..], needle)
  }

  /** Some word of `words` occurs in `text`. */
  function AnyWordIn(words: seq<string>, text: string): (r: bool)
    ensures r <==> exists i :: 0 <= i < |words| && IsSubstring(words[i], text)
  {
    if words == [] then false
    else Contains(text, words[0]) || AnyWordIn(words[1..], text)
  }
}
