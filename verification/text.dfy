/** The parts of Go's `strings` package the modelled code relies on:
    `HasPrefix`, `Contains`, `Split` (with `Join` as its inverse) and
    `Title`. Strings are sequences of Unicode scalar values. */
module Text {

  /** Reading a Go `map[string]string`: a missing key (or a nil map) yields "". */
  function Lookup(m: map<string, string>, key: string): (v: string)
    ensures key !in m ==> v == ""
    ensures key in m ==> v == m[key]
  {
    if key in m then m[key] else ""
  }

  /** `strings.HasPrefix(s, prefix)`: `s` is `prefix` followed by something. */
  function HasPrefix(s: string, prefix: string): (b: bool)
    ensures b <==> exists rest :: s == prefix + rest
  {
    if |prefix| <= |s| && s[..|prefix|] == prefix then
      assert s == prefix + s[|prefix|..];
      true
    else
      false
  }

  /** `sub` occurs in `s` starting at index `i`. */
  ghost predicate OccursAt(s: string, sub: string, i: int) {
    0 <= i && i + |sub| <= |s| && s[i..i + |sub|] == sub
  }

  /** `strings.Contains(s, sub)`: tries every start position from the left.
      The empty string is contained in everything, and nothing longer than
      `s` is contained in it. */
  function Contains(s: string, sub: string): (b: bool)
    ensures |sub| == 0 ==> b
    ensures b ==> |sub| <= |s|
    decreases |s|
  {
    HasPrefix(s, sub) || (|s| > 0 && Contains(s[1..], sub))
  }

  /** `Contains` holds exactly when `sub` occurs somewhere in `s`. */
  lemma {:induction false} ContainsIffOccurs(s: string, sub: string)
    ensures Contains(s, sub) <==> exists i :: OccursAt(s, sub, i)
    decreases |s|
  {
    if |s| > 0 {
      ContainsIffOccurs(s[1..], sub);
    }
    if Contains(s, sub) {
      if HasPrefix(s, sub) {
        assert OccursAt(s, sub, 0);
      } else {
        var i :| OccursAt(s[1..], sub, i);
        SliceOfTail(s, i + 1, i + 1 + |sub|);
        assert OccursAt(s, sub, i + 1);
      }
    }
    if exists i :: OccursAt(s, sub, i) {
      var i :| OccursAt(s, sub, i);
      if i == 0 {
        assert HasPrefix(s, sub);
      } else {
        SliceOfTail(s, i, i + |sub|);
        assert OccursAt(s[1..], sub, i - 1);
      }
    }
  }

  /** A slice of the tail is the slice of `s` one position further on. */
  lemma SliceOfTail(s: string, a: int, b: int)
    requires 1 <= a <= b <= |s|
    ensures s[1..][a - 1..b - 1] == s[a..b]
  {
    forall k | 0 <= k < b - a
      ensures s[1..][a - 1..b - 1][k] == s[a..b][k]
    {
      assert s[1..][a - 1 + k] == s[a + k];
    }
  }

  /** Searching for a one-character string is membership of that character. */
  lemma ContainsChar(s: string, c: char)
    ensures Contains(s, [c]) <==> c in s
  {
    ContainsIffOccurs(s, [c]);
    if c in s {
      var i :| 0 <= i < |s| && s[i] == c;
      assert s[i..i + 1] == [c];
      assert OccursAt(s, [c], i);
    }
    if exists i :: OccursAt(s, [c], i) {
      var i :| OccursAt(s, [c], i);
      assert s[i] == s[i..i + 1][0];
    }
  }

  /** Index of the first occurrence of `c` in `s`. */
  function IndexOf(s: string, c: char): (i: nat)
    requires c in s
    ensures i < |s| && s[i] == c
    ensures c !in s[..i]
  {
    if s[0] == c then 0
    else
      var j := IndexOf(s[1..], c);
      assert s[..j + 1] == [s[0]] + s[1..][..j];
      j + 1
  }

  /** The first `c` in `a + [c] + b` is the one after `a` when `a` holds none. */
  lemma IndexOfAfterPrefix(a: string, c: char, b: string)
    requires c !in a
    ensures IndexOf(a + [c] + b, c) == |a|
  {
    var s := a + [c] + b;
    var i := IndexOf(s, c);
    assert forall j :: 0 <= j < |a| ==> s[j] == a[j];
    assert s[|a|] == c;
  }

  /** Inverse of `Split`: the parts glued back together with `sep`. */
  function Join(parts: seq<string>, sep: char): string
    requires |parts| >= 1
  {
    if |parts| == 1 then parts[0]
    else parts[0] + [sep] + Join(parts[1..], sep)
  }

  /** `strings.Split(s, string(sep))`: the maximal `sep`-free pieces of `s`,
      one more piece than there are separators. */
  function Split(s: string, sep: char): (parts: seq<string>)
    ensures |parts| >= 1
    ensures forall i :: 0 <= i < |parts| ==> sep !in parts[i]
    ensures sep in s <==> |parts| >= 2
    ensures Join(parts, sep) == s
    decreases |s|
  {
    if sep !in s then [s]
    else
      var i := IndexOf(s, sep);
      var rest := Split(s[i + 1..], sep);
      assert s == s[..i] + [sep] + s[i + 1..];
      assert ([s[..i]] + rest)[1..] == rest;
      [s[..i]] + rest
  }

  /** Splitting undoes joining whenever no part holds the separator. */
  lemma {:induction false} SplitJoin(parts: seq<string>, sep: char)
    requires |parts| >= 1
    requires forall i :: 0 <= i < |parts| ==> sep !in parts[i]
    ensures Split(Join(parts, sep), sep) == parts
    decreases |parts|
  {
    if |parts| > 1 {
      var rest := Join(parts[1..], sep);
      var s := parts[0] + [sep] + rest;
      assert s == Join(parts, sep);
      assert sep in s by { assert s[|parts[0]|] == sep; }
      IndexOfAfterPrefix(parts[0], sep, rest);
      assert s[..|parts[0]|] == parts[0];
      assert s[|parts[0]| + 1..] == rest;
      SplitJoin(parts[1..], sep);
      assert parts == [parts[0]] + parts[1..];
    }
  }

  /** Go's `isSeparator` as used by `strings.Title`: ASCII characters other
      than letters, digits and `_` separate words; beyond ASCII only the
      Unicode white-space characters do. */
  predicate IsSeparator(c: char) {
    if c <= '\U{7F}' then
      !(('0' <= c <= '9') || ('a' <= c <= 'z') || ('A' <= c <= 'Z') || c == '_')
    else
      c == '\U{85}' || c == '\U{A0}' || c == '\U{1680}' || ('\U{2000}' <= c <= '\U{200A}')
      || c == '\U{2028}' || c == '\U{2029}' || c == '\U{202F}' || c == '\U{205F}' || c == '\U{3000}'
  }

  /** `unicode.ToTitle` on ASCII: lower-case letters become upper-case. */
  function ToTitle(c: char): char {
    if 'a' <= c <= 'z' then (c as int - 32) as char else c
  }

  /** `strings.Title`: every character that follows a separator (or starts
      the string) is title-cased; the test looks at the ORIGINAL previous
      character. */
  function Title(s: string): (r: string)
    ensures |r| == |s|
    ensures forall i :: 0 <= i < |s| ==>
      r[i] == (if IsSeparator(if i == 0 then ' ' else s[i - 1]) then ToTitle(s[i]) else s[i])
  {
    TitleAfter(s, ' ')
  }

  function TitleAfter(s: string, prev: char): (r: string)
    ensures |r| == |s|
    ensures forall i :: 0 <= i < |s| ==>
      r[i] == (if IsSeparator(if i == 0 then prev else s[i - 1]) then ToTitle(s[i]) else s[i])
    decreases |s|
  {
    if |s| == 0 then ""
    else
      var head := if IsSeparator(prev) then ToTitle(s[0]) else s[0];
      var tail := TitleAfter(s[1..], s[0]);
      assert forall i :: 1 <= i < |s| ==> ([head] + tail)[i] == tail[i - 1];
      [head] + tail
  }

  /** Title-casing a second time changes nothing. */
  lemma TitleIdempotent(s: string)
    ensures Title(Title(s)) == Title(s)
  {
    var t := Title(s);
    forall i | 0 <= i < |s|
      ensures Title(t)[i] == t[i]
    {
      var prev := if i == 0 then ' ' else s[i - 1];
      var prevT := if i == 0 then ' ' else t[i - 1];
      ToTitleKeepsClass(s[i]);
      ToTitleKeepsClass(prev);
      if i > 0 {
        var j := i - 1;
        assert t[j] == if IsSeparator(if j == 0 then ' ' else s[j - 1]) then ToTitle(s[j]) else s[j];
      }
      assert prevT == prev || prevT == ToTitle(prev);
      assert IsSeparator(prevT) == IsSeparator(prev);
      assert t[i] == if IsSeparator(prev) then ToTitle(s[i]) else s[i];
      assert Title(t)[i] == if IsSeparator(prevT) then ToTitle(t[i]) else t[i];
    }
  }

  /** Title-casing a character keeps it on the same side of the word
      boundary test and is itself idempotent. */
  lemma ToTitleKeepsClass(c: char)
    ensures IsSeparator(ToTitle(c)) == IsSeparator(c)
    ensures ToTitle(ToTitle(c)) == ToTitle(c)
  {
  }

  /** A single word (no separators inside) only has its first letter changed:
      `spotLabel` becomes `SpotLabel`. */
  lemma TitleOfWord(s: string)
    requires |s| > 0
    requires forall i :: 0 <= i < |s| ==> !IsSeparator(s[i])
    ensures Title(s) == [ToTitle(s[0])] + s[1..]
  {
    var r := Title(s);
    assert IsSeparator(' ');
    forall i | 1 <= i < |s|
      ensures r[i] == s[i]
    {
      assert !IsSeparator(s[i - 1]);
    }
    assert r == [ToTitle(s[0])] + s[1..];
  }
}
