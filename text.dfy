/** The few JavaScript string operations the jukebox store relies on:
    `includes`, `split` on a one-character separator, and `trim`. */
module Text {

  /** A code point that ECMAScript's `String.prototype.trim` removes:
      the WhiteSpace and LineTerminator productions of the language. */
  predicate IsWhiteSpace(c: char)
  {
    c == '\t' || c == '\U{000B}' || c == '\U{000C}' || c == ' ' || c == '\U{00A0}' || c == '\U{FEFF}'
    || c == '\n' || c == '\r' || c == '\U{2028}' || c == '\U{2029}'
    || c == '\U{1680}' || ('\U{2000}' <= c <= '\U{200A}') || c == '\U{202F}' || c == '\U{205F}'
    || c == '\U{3000}'
  }

  /** `sub` occurs in `s` starting at offset `i`. */
  predicate OccursAt(s: string, sub: string, i: int)
  {
    0 <= i && i + |sub| <= |s| && s[i..i + |sub|] == sub
  }

  /** `s.includes(sub)`: scans the offsets of `s` from the left. */
  function Contains(s: string, sub: string): bool
    decreases |s|
  {
    if |sub| > |s| then false
    else if s[..|sub|] == sub then true
    else Contains(s[1..], sub)
  }

  /** The scan finds `sub` exactly when it occurs at some offset. */
  lemma {:induction false} ContainsSpec(s: string, sub: string)
    ensures Contains(s, sub) <==> exists i :: OccursAt(s, sub, i)
    decreases |s|
  {
    if |sub| > |s| {
    } else if s[..|sub|] == sub {
      assert OccursAt(s, sub, 0);
    } else {
      ContainsSpec(s[1..], sub);
      if Contains(s, sub) {
        var i :| OccursAt(s[1..], sub, i);
        OccursShift(s, sub, i);
      }
      if exists i :: OccursAt(s, sub, i) {
        var i :| OccursAt(s, sub, i);
        assert i != 0 by {
          assert s[0..|sub|] == s[..|sub|];
        }
        OccursShift(s, sub, i - 1);
      }
    }
  }

  /** An occurrence in the tail is an occurrence one further on in the string. */
  lemma {:induction false} OccursShift(s: string, sub: string, i: int)
    requires s != [] && i >= 0
    ensures OccursAt(s[1..], sub, i) <==> OccursAt(s, sub, i + 1)
  {
    if 0 <= i && i + 1 + |sub| <= |s| {
      assert s[1..][i..i + |sub|] == s[i + 1..i + 1 + |sub|];
    }
  }

  /** Searching for a one-character string is membership of that character. */
  lemma {:induction false} ContainsChar(s: string, c: char)
    ensures Contains(s, [c]) <==> c in s
  {
    ContainsSpec(s, [c]);
    if c in s {
      var i :| 0 <= i < |s| && s[i] == c;
      assert OccursAt(s, [c], i);
    }
    if Contains(s, [c]) {
      var i :| OccursAt(s, [c], i);
      assert s[i] == s[i..i + 1][0];
    }
  }

  /** The first position of `c` in `s`. */
  function IndexOf(s: string, c: char): (i: nat)
    requires c in s
    ensures i < |s| && s[i] == c && c !in s[..i]
  {
    if s[0] == c then 0 else 1 + IndexOf(s[1..], c)
  }

  /** `parts.join(sep)`: the inverse of Split. */
  function Join(parts: seq<string>, sep: char): string
    requires |parts| >= 1
  {
    if |parts| == 1 then parts[0] else parts[0] + [sep] + Join(parts[1..], sep)
  }

  /** `s.split(sep)` for a one-character separator: the segments of `s`
      between separators, one more than there are separators. */
  function Split(s: string, sep: char): (parts: seq<string>)
    ensures |parts| >= 1
    ensures sep in s ==> |parts| >= 2
    decreases |s|
  {
    if sep !in s then [s]
    else
      var i := IndexOf(s, sep);
      [s[..i]] + Split(s[i + 1..], sep)
  }

  /** A split at a separator that occurs: the text before the first one,
      then the split of the text after it. */
  lemma {:induction false} SplitAt(s: string, sep: char)
    requires sep in s
    ensures var i := IndexOf(s, sep);
            Split(s, sep) == [s[..i]] + Split(s[i + 1..], sep)
            && s == s[..i] + [sep] + s[i + 1..]
  {
  }

  lemma {:induction false} JoinCons(first: string, rest: seq<string>, sep: char)
    requires |rest| >= 1
    ensures Join([first] + rest, sep) == first + [sep] + Join(rest, sep)
  {
    assert ([first] + rest)[1..] == rest;
  }

  /** No segment of a split holds the separator. */
  lemma {:induction false} SplitSegments(s: string, sep: char)
    ensures forall k :: 0 <= k < |Split(s, sep)| ==> sep !in Split(s, sep)[k]
    decreases |s|
  {
    if sep in s {
      var i := IndexOf(s, sep);
      SplitAt(s, sep);
      SplitSegments(s[i + 1..], sep);
      SegmentsCons(s[..i], Split(s[i + 1..], sep), sep);
    }
  }

  lemma {:induction false} SegmentsCons(first: string, rest: seq<string>, sep: char)
    requires sep !in first
    requires forall k :: 0 <= k < |rest| ==> sep !in rest[k]
    ensures forall k :: 0 <= k < |[first] + rest| ==> sep !in ([first] + rest)[k]
  {
  }

  /** Joining the segments back with the separator gives the string. */
  lemma {:induction false} SplitJoin(s: string, sep: char)
    ensures Join(Split(s, sep), sep) == s
    decreases |s|
  {
    if sep in s {
      var i := IndexOf(s, sep);
      SplitAt(s, sep);
      SplitJoin(s[i + 1..], sep);
      JoinCons(s[..i], Split(s[i + 1..], sep), sep);
    }
  }

  /** Splitting is determined by Join: any separator-free segmentation of a
      string is the one Split returns. */
  lemma {:induction false} SplitUnique(parts: seq<string>, sep: char)
    requires |parts| >= 1
    requires forall k :: 0 <= k < |parts| ==> sep !in parts[k]
    ensures Split(Join(parts, sep), sep) == parts
  {
    if |parts| == 1 {
      assert Join(parts, sep) == parts[0];
    } else {
      var rest := Join(parts[1..], sep);
      SplitPastFirst(parts[0], sep, rest);
      assert forall k :: 0 <= k < |parts[1..]| ==> sep !in parts[1..][k] by {
        forall k | 0 <= k < |parts[1..]| ensures sep !in parts[1..][k] {
          assert parts[1..][k] == parts[k + 1];
        }
      }
      SplitUnique(parts[1..], sep);
      assert parts == [parts[0]] + parts[1..];
    }
  }

  /** A string that is a separator-free segment, a separator and a rest
      splits into that segment followed by the split of the rest. */
  lemma {:induction false} SplitPastFirst(first: string, sep: char, rest: string)
    requires sep !in first
    ensures Split(first + [sep] + rest, sep) == [first] + Split(rest, sep)
  {
    var s := first + [sep] + rest;
    assert s[|first|] == sep;
    var i := IndexOf(s, sep);
    assert s[..i] == first;
    assert s[i + 1..] == rest;
  }

  /** The first two segments of a split at a separator that occurs: the text
      before the first separator, and the text from there up to the next
      separator or the end. */
  lemma {:induction false} SplitFirstTwo(s: string, sep: char) returns (i: nat, j: nat)
    requires sep in s
    ensures i < j <= |s| && s[i] == sep && sep !in s[..i]
    ensures sep !in s[i + 1..j] && (j == |s| || s[j] == sep)
    ensures Split(s, sep)[0] == s[..i] && Split(s, sep)[1] == s[i + 1..j]
  {
    i := IndexOf(s, sep);
    SplitAt(s, sep);
    var rest := s[i + 1..];
    var n := SplitFirst(rest, sep);
    j := i + 1 + n;
    SliceOfRest(s, i + 1, n);
  }

  /** The first segment of a split runs up to the first separator or the end. */
  lemma {:induction false} SplitFirst(s: string, sep: char) returns (n: nat)
    ensures n <= |s| && Split(s, sep)[0] == s[..n] && sep !in s[..n] && (n == |s| || s[n] == sep)
  {
    if sep in s {
      n := IndexOf(s, sep);
    } else {
      n := |s|;
      assert s[..n] == s;
    }
  }

  lemma {:induction false} SliceOfRest(s: string, i: nat, n: nat)
    requires i + n <= |s|
    ensures s[i..][..n] == s[i..i + n]
    ensures i + n < |s| ==> s[i..][n] == s[i + n]
  {
  }

  /** The length of the white-space run that starts `s`. */
  function LeadingSpace(s: string): (n: nat)
    ensures n <= |s|
    ensures forall k :: 0 <= k < n ==> IsWhiteSpace(s[k])
    ensures n == |s| || !IsWhiteSpace(s[n])
  {
    if s != [] && IsWhiteSpace(s[0]) then 1 + LeadingSpace(s[1..]) else 0
  }

  /** The length of the white-space run that ends `s`. */
  function TrailingSpace(s: string): (n: nat)
    ensures n <= |s|
    ensures forall k :: |s| - n <= k < |s| ==> IsWhiteSpace(s[k])
    ensures n == |s| || !IsWhiteSpace(s[|s| - n - 1])
  {
    if s != [] && IsWhiteSpace(s[|s| - 1]) then 1 + TrailingSpace(s[..|s| - 1]) else 0
  }

  /** `s.trim()`: the leading white space cut, then the trailing white space. */
  function Trim(s: string): string
  {
    var t := s[LeadingSpace(s)..];
    t[..|t| - TrailingSpace(t)]
  }

  /** Trim keeps the infix of `s` that starts where the leading white space
      ends: only white space is cut on either side, and what is kept neither
      starts nor ends with white space. */
  lemma {:induction false} TrimSpec(s: string)
    ensures var i, r := LeadingSpace(s), Trim(s);
            i + |r| <= |s| && r == s[i..i + |r|]
            && (forall k :: 0 <= k < i ==> IsWhiteSpace(s[k]))
            && (forall k :: i + |r| <= k < |s| ==> IsWhiteSpace(s[k]))
            && (r == [] || (!IsWhiteSpace(r[0]) && !IsWhiteSpace(r[|r| - 1])))
  {
    TrimInfix(s);
    TrimCutsSpace(s);
    TrimEnds(s);
  }

  lemma {:induction false} TrimInfix(s: string)
    ensures var i, r := LeadingSpace(s), Trim(s);
            i + |r| <= |s| && r == s[i..i + |r|]
  {
    var i := LeadingSpace(s);
    var t := s[i..];
    SliceOfRest(s, i, |t| - TrailingSpace(t));
  }

  lemma {:induction false} TrimCutsSpace(s: string)
    ensures var i, r := LeadingSpace(s), Trim(s);
            forall k :: i + |r| <= k < |s| ==> IsWhiteSpace(s[k])
  {
    var i := LeadingSpace(s);
    var t := s[i..];
    forall k | i + |Trim(s)| <= k < |s| ensures IsWhiteSpace(s[k]) {
      assert s[k] == t[k - i];
    }
  }

  lemma {:induction false} TrimEnds(s: string)
    ensures var r := Trim(s);
            r == [] || (!IsWhiteSpace(r[0]) && !IsWhiteSpace(r[|r| - 1]))
  {
    var i := LeadingSpace(s);
    var t := s[i..];
    var n := TrailingSpace(t);
    var r := t[..|t| - n];
    if r != [] {
      assert r[0] == t[0] == s[i];
      assert r[|r| - 1] == t[|t| - n - 1];
    }
  }

  /** A character absent from a string is absent from its trim. */
  lemma {:induction false} TrimKeepsOut(s: string, c: char)
    requires c !in s
    ensures c !in Trim(s)
  {
    TrimSpec(s);
  }

  /** Trimming twice is trimming once. */
  lemma {:induction false} TrimIdempotent(s: string)
    ensures Trim(Trim(s)) == Trim(s)
  {
    var r := Trim(s);
    TrimSpec(s);
    assert LeadingSpace(r) == 0;
    assert TrailingSpace(r) == 0;
  }
}
