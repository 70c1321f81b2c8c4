/** The pieces of Python's string built-ins that the store's keys depend on:
    `chr`/`ord` over the lowercase alphabet, `str.lower` (ASCII part),
    `str.strip` with no argument, and the slice `s[:2]`; and, at the end,
    the duplicate-free sequences and their element sets that stand for
    lists of distinct keys. */
module Text {

  /** `chr(97 + i)`: the i-th letter of `'abcdefghijklmnopqrstuvwxyz'`. */
  function Letter(i: int): (c: char)
    requires 0 <= i < 26
    ensures 'a' <= c <= 'z' && c as int == 97 + i
  {
    (97 + i) as char
  }

  predicate IsLowerLetter(c: char)
  {
    'a' <= c <= 'z'
  }

  /** Every lowercase letter is `Letter` of its own `ord(c) - 97`. */
  lemma LetterIndex(c: char)
    requires IsLowerLetter(c)
    ensures 0 <= c as int - 97 < 26 && Letter(c as int - 97) == c
  {
  }

  /** `str.lower` on one character (ASCII letters only). */
  function LowerChar(c: char): (r: char)
    ensures 'A' <= c <= 'Z' ==> IsLowerLetter(r) && r as int == c as int + 32
    ensures !('A' <= c <= 'Z') ==> r == c
  {
    if 'A' <= c <= 'Z' then (c as int + 32) as char else c
  }

  /** `str.lower`: maps each character on its own, so the length is kept. */
  function Lower(s: string): (r: string)
    ensures |r| == |s|
    ensures forall i :: 0 <= i < |s| ==> r[i] == LowerChar(s[i])
  {
    seq(|s|, i requires 0 <= i < |s| => LowerChar(s[i]))
  }

  /** A string with no ASCII upper-case letter. */
  predicate IsLowered(s: string)
  {
    forall i :: 0 <= i < |s| ==> !('A' <= s[i] <= 'Z')
  }

  lemma LowerIsLowered(s: string)
    ensures IsLowered(Lower(s))
  {
  }

  /** `s.lower().lower() == s.lower()` */
  lemma LowerIdempotent(s: string)
    ensures Lower(Lower(s)) == Lower(s)
  {
    LowerIsLowered(s);
    LoweredFixed(Lower(s));
  }

  lemma LoweredFixed(s: string)
    requires IsLowered(s)
    ensures Lower(s) == s
  {
  }

  /** `[s.lower() for s in ss]` */
  function LowerAll(ss: seq<string>): (r: seq<string>)
    ensures |r| == |ss|
    ensures forall i :: 0 <= i < |ss| ==> r[i] == Lower(ss[i])
  {
    seq(|ss|, i requires 0 <= i < |ss| => Lower(ss[i]))
  }

  /** `s[:2]`: Python slicing clips at the end of a shorter string. */
  function Take2(s: string): (r: string)
    ensures |r| == if |s| < 2 then |s| else 2
    ensures r == s[..|r|]
  {
    if |s| >= 2 then s[..2] else s
  }

  /** The characters for which Python's `str.isspace()` holds, which are the
      ones `str.strip()` removes. */
  predicate IsSpace(c: char)
  {
    var k := c as int;
    k == 32 || 9 <= k <= 13 || 28 <= k <= 31 || k == 0x85 || k == 0xA0 || k == 0x1680
    || 0x2000 <= k <= 0x200A || k == 0x2028 || k == 0x2029 || k == 0x202F
    || k == 0x205F || k == 0x3000
  }

  function StripLeft(s: string): (r: string)
    ensures |r| <= |s| && r == s[|s| - |r|..]
    ensures r == [] || !IsSpace(r[0])
  {
    if |s| > 0 && IsSpace(s[0]) then StripLeft(s[1..]) else s
  }

  function StripRight(s: string): (r: string)
    ensures |r| <= |s| && r == s[..|r|]
    ensures r == [] || !IsSpace(r[|r| - 1])
  {
    if |s| > 0 && IsSpace(s[|s| - 1]) then StripRight(s[..|s| - 1]) else s
  }

  /** `str.strip()`: drops the white space at both ends. */
  function Strip(s: string): (r: string)
    ensures |r| <= |s|
    ensures r == [] || (!IsSpace(r[0]) && !IsSpace(r[|r| - 1]))
  {
    StripRight(StripLeft(s))
  }

  /** A string is blank (`not s.strip()`) exactly when every character is
      white space. */
  lemma {:induction false} StripEmptyIffBlank(s: string)
    ensures Strip(s) == [] <==> forall i :: 0 <= i < |s| ==> IsSpace(s[i])
  {
    if Strip(s) == [] {
      StripEmptyAllSpace(s);
    } else {
      var r := Strip(s);
      var l := StripLeft(s);
      assert r == l[..|r|];
      assert l[0] == s[|s| - |l|];
    }
  }

  lemma {:induction false} StripEmptyAllSpace(s: string)
    requires Strip(s) == []
    ensures forall i :: 0 <= i < |s| ==> IsSpace(s[i])
  {
    var l := StripLeft(s);
    if l != [] {
      StripRightEmpty(l);
    }
    StripLeftPrefix(s);
  }

  lemma {:induction false} StripRightEmpty(s: string)
    requires StripRight(s) == []
    ensures forall i :: 0 <= i < |s| ==> IsSpace(s[i])
  {
    if |s| > 0 {
      assert IsSpace(s[|s| - 1]);
      StripRightEmpty(s[..|s| - 1]);
      assert forall i :: 0 <= i < |s| - 1 ==> s[i] == s[..|s| - 1][i];
    }
  }

  /** What `StripLeft` drops is white space. */
  lemma {:induction false} StripLeftPrefix(s: string)
    ensures forall i :: 0 <= i < |s| - |StripLeft(s)| ==> IsSpace(s[i])
  {
    if |s| > 0 && IsSpace(s[0]) {
      StripLeftPrefix(s[1..]);
      assert forall i :: 1 <= i < |s| ==> s[i] == s[1..][i - 1];
    }
  }

  /** What `StripRight` drops is white space. */
  lemma {:induction false} StripRightSuffix(s: string)
    ensures forall i :: |StripRight(s)| <= i < |s| ==> IsSpace(s[i])
  {
    if |s| > 0 && IsSpace(s[|s| - 1]) {
      var t := s[..|s| - 1];
      StripRightSuffix(t);
      assert forall i :: 0 <= i < |t| ==> s[i] == t[i];
    }
  }

  /** A prefix of a suffix of `s` is a slice of `s`. */
  lemma PrefixOfSuffix(s: string, l: string, r: string)
    requires |l| <= |s| && l == s[|s| - |l|..]
    requires |r| <= |l| && r == l[..|r|]
    ensures r == s[|s| - |l|..|s| - |l| + |r|]
  {
    assert s[|s| - |l|..][..|r|] == s[|s| - |l|..|s| - |l| + |r|];
  }

  /** `s.strip()` is the slice `s[i:j]` between the leading and the
      trailing run of white space: it drops white space at the ends and
      nothing else. */
  lemma StripSlice(s: string)
    ensures var i := |s| - |StripLeft(s)|;
            var j := i + |Strip(s)|;
            && j <= |s|
            && Strip(s) == s[i..j]
            && (forall k :: 0 <= k < i ==> IsSpace(s[k]))
            && (forall k :: j <= k < |s| ==> IsSpace(s[k]))
  {
    var l := StripLeft(s);
    var r := Strip(s);
    var i := |s| - |l|;
    var j := i + |r|;
    PrefixOfSuffix(s, l, r);
    StripLeftPrefix(s);
    forall k | j <= k < |s| ensures IsSpace(s[k]) {
      StripRightSuffix(l);
      assert s[k] == l[k - i];
    }
  }

  /** A string with no white space at either end is its own strip. */
  lemma StripTrimmed(s: string)
    requires s == [] || (!IsSpace(s[0]) && !IsSpace(s[|s| - 1]))
    ensures Strip(s) == s
  {
  }

  /** Lowering neither adds nor removes white space. */
  lemma LowerKeepsSpace(c: char)
    ensures IsSpace(LowerChar(c)) <==> IsSpace(c)
  {
  }

  /** A sequence with no element twice. */
  predicate Distinct<T(==)>(s: seq<T>)
  {
    forall i, j :: 0 <= i < j < |s| ==> s[i] != s[j]
  }

  /** The elements of a sequence, as a set. */
  function Elements<T(==)>(s: seq<T>): set<T>
  {
    set x | x in s
  }

  /** A duplicate-free sequence has as many elements as its set. */
  lemma {:induction false} DistinctCard<T>(s: seq<T>)
    requires Distinct(s)
    ensures |Elements(s)| == |s|
  {
    if s != [] {
      var t := s[..|s| - 1];
      assert Distinct(t);
      DistinctCard(t);
      assert Elements(s) == Elements(t) + {s[|s| - 1]};
      assert s[|s| - 1] !in Elements(t);
    }
  }
}
