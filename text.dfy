/**
 * The string operations the ingestion strategy applies to file names, file
 * extensions and topic strings: ASCII lower-casing, Python's `str.strip()`
 * and Python's `str.split(",")`.
 */
module Text {

  /** Python's `str.isspace()` for one character. */
  predicate IsSpace(c: char)
  {
    || c == ' '
    || ('\t' <= c <= '\r')
    || ('\U{1C}' <= c <= '\U{1F}')
    || c == '\U{85}' || c == '\U{A0}' || c == '\U{1680}'
    || ('\U{2000}' <= c <= '\U{200A}')
    || c == '\U{2028}' || c == '\U{2029}' || c == '\U{202F}' || c == '\U{205F}' || c == '\U{3000}'
  }

  function LowerChar(c: char): char
  {
    if 'A' <= c <= 'Z' then (c as int + 32) as char else c
  }

  function UpperChar(c: char): char
  {
    if 'a' <= c <= 'z' then (c as int - 32) as char else c
  }

  /** `str.lower()` restricted to ASCII letters. */
  function Lower(s: string): string
  {
    seq(|s|, i requires 0 <= i < |s| => LowerChar(s[i]))
  }

  /** The name of the descriptor file that carries per-file metadata. */
  const DescriptorName: string := "metadata.json"

  /** `name.lower() == "metadata.json"` */
  predicate IsDescriptorName(name: string)
  {
    Lower(name) == DescriptorName
  }

  /** The descriptor test ignores case and nothing else: each character is the
      descriptor name's own character or its upper-case form. */
  lemma DescriptorNameIgnoresCase(name: string)
    ensures IsDescriptorName(name) <==>
      |name| == |DescriptorName| &&
      forall i :: 0 <= i < |name| ==> name[i] == DescriptorName[i] || name[i] == UpperChar(DescriptorName[i])
  {
    if |name| == |DescriptorName| {
      forall i | 0 <= i < |name|
        ensures LowerChar(name[i]) == DescriptorName[i] <==>
                (name[i] == DescriptorName[i] || name[i] == UpperChar(DescriptorName[i]))
      {
        assert DescriptorName[i] == '.' || 'a' <= DescriptorName[i] <= 'z';
      }
      assert IsDescriptorName(name) <==> forall i :: 0 <= i < |name| ==> LowerChar(name[i]) == DescriptorName[i];
    }
  }

  // ---------------------------------------------------------------- strip

  /** `r` is `s[i..j]` and everything cut off on either side is whitespace. */
  ghost predicate TrimmedAt(s: string, i: int, j: int, r: string)
  {
    && 0 <= i <= j <= |s|
    && r == s[i..j]
    && (forall k :: 0 <= k < i ==> IsSpace(s[k]))
    && (forall k :: j <= k < |s| ==> IsSpace(s[k]))
  }

  /** `r` is what `s.strip()` gives: a slice of `s` with only whitespace cut
      off, which neither begins nor ends with whitespace. */
  ghost predicate IsStripOf(s: string, r: string)
  {
    && (exists i, j :: TrimmedAt(s, i, j, r))
    && (r == [] || (!IsSpace(r[0]) && !IsSpace(r[|r| - 1])))
  }

  /** Number of leading whitespace characters. */
  function LeadingSpace(s: string): (i: nat)
    ensures i <= |s|
    ensures forall k :: 0 <= k < i ==> IsSpace(s[k])
    ensures i < |s| ==> !IsSpace(s[i])
    decreases |s|
  {
    if |s| > 0 && IsSpace(s[0]) then 1 + LeadingSpace(s[1..]) else 0
  }

  /** End of `s` once trailing whitespace is cut, never going below `lo`. */
  function TrailingCut(s: string, lo: nat): (j: nat)
    requires lo <= |s|
    ensures lo <= j <= |s|
    ensures forall k :: j <= k < |s| ==> IsSpace(s[k])
    ensures j > lo ==> !IsSpace(s[j - 1])
    decreases |s|
  {
    if |s| > lo && IsSpace(s[|s| - 1]) then
      var j := TrailingCut(s[..|s| - 1], lo);
      assert forall k :: j <= k < |s| - 1 ==> s[..|s| - 1][k] == s[k];
      j
    else |s|
  }

  /** Python's `str.strip()` with no argument. */
  function Strip(s: string): (r: string)
    ensures IsStripOf(s, r)
  {
    var i := LeadingSpace(s);
    var j := TrailingCut(s, i);
    assert TrimmedAt(s, i, j, s[i..j]);
    s[i..j]
  }

  /** When `s` holds any non-whitespace character, a strip of it is non-empty. */
  lemma StripEmptyIff(s: string, i: int, j: int, r: string)
    requires TrimmedAt(s, i, j, r)
    requires r == [] || (!IsSpace(r[0]) && !IsSpace(r[|r| - 1]))
    ensures r == [] <==> forall k :: 0 <= k < |s| ==> IsSpace(s[k])
  {
    if r != [] {
      assert !IsSpace(s[i]);
    }
  }

  /** There is only one strip of a string: `IsStripOf` pins `str.strip()` down. */
  lemma StripUnique(s: string, r1: string, r2: string)
    requires IsStripOf(s, r1) && IsStripOf(s, r2)
    ensures r1 == r2
  {
    var i1, j1 :| TrimmedAt(s, i1, j1, r1);
    var i2, j2 :| TrimmedAt(s, i2, j2, r2);
    StripEmptyIff(s, i1, j1, r1);
    StripEmptyIff(s, i2, j2, r2);
    if r1 != [] && r2 != [] {
      assert !IsSpace(s[i1]) && !IsSpace(s[i2]);
      assert i1 == i2;
      assert !IsSpace(s[j1 - 1]) && !IsSpace(s[j2 - 1]);
      assert j1 == j2;
    }
  }

  // ---------------------------------------------------------------- split

  /** Joins pieces with a comma between each pair, inverse of `SplitCommas`. */
  function JoinCommas(ps: seq<string>): string
    requires |ps| > 0
  {
    if |ps| == 1 then ps[0] else ps[0] + [','] + JoinCommas(ps[1..])
  }

  /** Adding one non-comma character in front extends the first piece. */
  lemma {:induction false} JoinExtendsHead(c: char, rest: seq<string>)
    requires |rest| > 0
    ensures JoinCommas([[c] + rest[0]] + rest[1..]) == [c] + JoinCommas(rest)
  {
    var r := [[c] + rest[0]] + rest[1..];
    assert |r| == |rest| && r[0] == [c] + rest[0];
    if |rest| > 1 {
      assert r[1..] == rest[1..];
      assert JoinCommas(r) == r[0] + [','] + JoinCommas(r[1..]);
      assert JoinCommas(rest) == rest[0] + [','] + JoinCommas(rest[1..]);
    }
  }

  /** Python's `s.split(",")`: the pieces between commas, in order, empty
      pieces kept; one more piece than there are commas. */
  function SplitCommas(s: string): (r: seq<string>)
    ensures |r| > 0
    ensures forall k :: 0 <= k < |r| ==> ',' !in r[k]
    ensures JoinCommas(r) == s
  {
    if s == [] then [[]]
    else
      var rest := SplitCommas(s[1..]);
      assert s == [s[0]] + s[1..];
      if s[0] == ',' then
        assert JoinCommas([[]] + rest) == [','] + JoinCommas(rest) by {
          assert ([[]] + rest)[1..] == rest;
        }
        [[]] + rest
      else
        JoinExtendsHead(s[0], rest);
        [[s[0]] + rest[0]] + rest[1..]
  }

  /** `s.split(",")` has one piece more than `s` has commas. */
  lemma {:induction false} SplitCommasCount(s: string)
    ensures |SplitCommas(s)| == multiset(s)[','] + 1
  {
    if s != [] {
      SplitCommasCount(s[1..]);
      assert s == [s[0]] + s[1..];
      assert multiset(s) == multiset([s[0]]) + multiset(s[1..]);
    }
  }

  /** A string without commas is one piece. */
  lemma {:induction false} SplitNoComma(a: string)
    requires ',' !in a
    ensures SplitCommas(a) == [a]
  {
    if a != [] {
      SplitNoComma(a[1..]);
    }
  }

  /** A comma-free head followed by a comma splits off as the first piece. */
  lemma {:induction false} SplitHead(a: string, t: string)
    requires ',' !in a
    ensures SplitCommas(a + [','] + t) == [a] + SplitCommas(t)
  {
    var w := a + [','] + t;
    if a == [] {
      assert w == [','] + t;
      assert w[1..] == t;
    } else {
      assert w[0] == a[0] && w[0] != ',';
      assert w[1..] == a[1..] + [','] + t;
      SplitHead(a[1..], t);
      var rest := SplitCommas(w[1..]);
      assert SplitCommas(w) == [[w[0]] + rest[0]] + rest[1..];
      assert rest[0] == a[1..] && rest[1..] == SplitCommas(t);
      assert [w[0]] + a[1..] == a;
    }
  }

  /** The comma-free pieces of a string are unique: any comma-free pieces that
      join back to `s` are exactly `s.split(",")`. */
  lemma {:induction false} SplitUnique(ps: seq<string>)
    requires |ps| > 0
    requires forall k :: 0 <= k < |ps| ==> ',' !in ps[k]
    ensures SplitCommas(JoinCommas(ps)) == ps
  {
    if |ps| == 1 {
      SplitNoComma(ps[0]);
    } else {
      SplitUnique(ps[1..]);
      SplitHead(ps[0], JoinCommas(ps[1..]));
      assert ps == [ps[0]] + ps[1..];
    }
  }
}
