/**
  The three pieces of Python string behaviour the core relies on:
  `needle in haystack`, `s.split(",")` and `s.strip()`.
 */
module Text {

  /** Python's `needle in haystack` for strings: `needle` occurs at some offset. */
  predicate Contains(haystack: string, needle: string)
    decreases |haystack|
  {
    needle <= haystack || (haystack != [] && Contains(haystack[1..], needle))
  }

  /** The characters for which Python's `str.isspace()` holds; these are what `strip()` removes. */
  predicate IsSpace(c: char) {
    || c == ' ' || c == '\t' || c == '\n' || c == '\r'
    || c == '\U{0B}' || c == '\U{0C}'
    || ('\U{1C}' <= c <= '\U{1F}')
    || c == '\U{85}' || c == '\U{A0}' || c == '\U{1680}'
    || ('\U{2000}' <= c <= '\U{200A}')
    || c == '\U{2028}' || c == '\U{2029}' || c == '\U{202F}' || c == '\U{205F}' || c == '\U{3000}'
  }

  /** `s.lstrip()`: the longest suffix of `s` that does not start with whitespace. */
  function StripLeft(s: string): (r: string)
    ensures |r| <= |s| && r == s[|s| - |r|..]
    ensures r == [] || !IsSpace(r[0])
  {
    if s != [] && IsSpace(s[0]) then StripLeft(s[1..]) else s
  }

  /** `lstrip()` removes only whitespace. */
  lemma {:induction false} StripLeftRemovesSpace(s: string)
    ensures forall i :: 0 <= i < |s| - |StripLeft(s)| ==> IsSpace(s[i])
  {
    if s != [] && IsSpace(s[0]) {
      StripLeftRemovesSpace(s[1..]);
      forall i | 1 <= i < |s| - |StripLeft(s)| ensures IsSpace(s[i]) {
        assert s[i] == s[1..][i - 1];
      }
    }
  }

  /** `s.rstrip()`: the longest prefix of `s` that does not end with whitespace. */
  function StripRight(s: string): (r: string)
    ensures |r| <= |s| && r == s[..|r|]
    ensures r == [] || !IsSpace(r[|r| - 1])
  {
    if s != [] && IsSpace(s[|s| - 1]) then StripRight(s[..|s| - 1]) else s
  }

  /** `rstrip()` removes only whitespace. */
  lemma {:induction false} StripRightRemovesSpace(s: string)
    ensures forall i :: |StripRight(s)| <= i < |s| ==> IsSpace(s[i])
  {
    if s != [] && IsSpace(s[|s| - 1]) {
      StripRightRemovesSpace(s[..|s| - 1]);
      forall i | |StripRight(s)| <= i < |s| - 1 ensures IsSpace(s[i]) {
        assert s[i] == s[..|s| - 1][i];
      }
    }
  }

  /** `s.strip()`: `s` without its leading and trailing whitespace. */
  function Strip(s: string): (r: string)
  {
    StripRight(StripLeft(s))
  }

  /** How many leading characters `Strip` removes. */
  function LeadingSpaces(s: string): nat
  {
    |s| - |StripLeft(s)|
  }

  /** `Strip` removes only whitespace, only at the two ends, and leaves none there. */
  lemma StripIsTrimmedSlice(s: string)
    ensures var r, lead := Strip(s), LeadingSpaces(s);
      && lead + |r| <= |s| && r == s[lead..lead + |r|]
      && (forall i :: 0 <= i < lead ==> IsSpace(s[i]))
      && (forall i :: lead + |r| <= i < |s| ==> IsSpace(s[i]))
    ensures Trimmed(Strip(s))
  {
    StripSlice(s);
    StripLeftRemovesSpace(s);
    StripTrailing(s);
    StripKeepsEnds(s);
  }

  /** What `Strip` keeps is the slice of `s` after its leading whitespace. */
  lemma StripSlice(s: string)
    ensures LeadingSpaces(s) + |Strip(s)| <= |s|
    ensures Strip(s) == s[LeadingSpaces(s)..LeadingSpaces(s) + |Strip(s)|]
  {
    var l := StripLeft(s);
    var r := StripRight(l);
    SliceOfSuffix(s, |s| - |l|, |r|);
  }

  /** A prefix of a suffix is a slice. */
  lemma SliceOfSuffix<T>(s: seq<T>, from: nat, n: nat)
    requires from + n <= |s|
    ensures s[from..][..n] == s[from..from + n]
  {
  }

  /** Everything after what `Strip` keeps is whitespace. */
  lemma StripTrailing(s: string)
    ensures forall i :: LeadingSpaces(s) + |Strip(s)| <= i < |s| ==> IsSpace(s[i])
  {
    var l := StripLeft(s);
    var r := StripRight(l);
    var lead := |s| - |l|;
    StripRightRemovesSpace(l);
    forall i | lead + |r| <= i < |s| ensures IsSpace(s[i]) {
      assert s[i] == l[i - lead];
    }
  }

  /** What `Strip` leaves starts and ends with non-whitespace. */
  lemma StripKeepsEnds(s: string)
    ensures Trimmed(Strip(s))
  {
    var l := StripLeft(s);
    var r := StripRight(l);
    if r != [] {
      assert r[0] == l[0];
    }
  }

  /** No whitespace at either end. */
  predicate Trimmed(s: string) {
    s == [] || (!IsSpace(s[0]) && !IsSpace(s[|s| - 1]))
  }

  /** `strip()` changes nothing exactly when there is nothing to remove. */
  lemma {:induction false} StripFixedIffTrimmed(s: string)
    ensures Strip(s) == s <==> Trimmed(s)
  {
    StripIsTrimmedSlice(s);
    if Trimmed(s) && s != [] {
      assert StripLeft(s) == s;
      assert StripRight(s) == s;
    }
  }

  /** Stripping twice is stripping once. */
  lemma StripIdempotent(s: string)
    ensures Strip(Strip(s)) == Strip(s)
  {
    StripIsTrimmedSlice(s);
    StripFixedIffTrimmed(Strip(s));
  }

  /** Number of times `c` occurs in `s`. */
  function Count(s: string, c: char): nat {
    if s == [] then 0 else (if s[0] == c then 1 else 0) + Count(s[1..], c)
  }

  /** `s.split(sep)` for a one-character separator: the pieces between separators, empty ones included. */
  function Split(s: string, sep: char): (pieces: seq<string>)
    ensures |pieces| >= 1
    ensures forall k :: 0 <= k < |pieces| ==> sep !in pieces[k]
  {
    if s == [] then [""]
    else
      var tail := Split(s[1..], sep);
      if s[0] == sep then [""] + tail
      else [[s[0]] + tail[0]] + tail[1..]
  }

  /** `sep.join(pieces)`, the inverse of `Split`. */
  function Join(pieces: seq<string>, sep: char): string
    requires |pieces| >= 1
  {
    if |pieces| == 1 then pieces[0] else pieces[0] + [sep] + Join(pieces[1..], sep)
  }

  /** Splitting never loses a character: joining the pieces gives the input back. */
  lemma {:induction false} JoinSplit(s: string, sep: char)
    ensures Join(Split(s, sep), sep) == s
  {
    if s != [] {
      var tail := Split(s[1..], sep);
      JoinSplit(s[1..], sep);
      if s[0] != sep {
        if |tail| == 1 {
          assert Split(s, sep) == [[s[0]] + tail[0]];
        } else {
          assert Split(s, sep)[1..] == tail[1..];
        }
      }
    }
  }

  /** A separator-free list of pieces is exactly what splitting its join gives. */
  lemma {:induction false} SplitJoin(pieces: seq<string>, sep: char)
    requires |pieces| >= 1
    requires forall k :: 0 <= k < |pieces| ==> sep !in pieces[k]
    ensures Split(Join(pieces, sep), sep) == pieces
  {
    if |pieces| == 1 {
      SplitWithoutSeparator(pieces[0], sep);
    } else {
      SplitJoin(pieces[1..], sep);
      SplitPrefix(pieces[0], Join(pieces[1..], sep), sep);
    }
  }

  lemma {:induction false} SplitWithoutSeparator(s: string, sep: char)
    requires sep !in s
    ensures Split(s, sep) == [s]
  {
    if s != [] {
      SplitWithoutSeparator(s[1..], sep);
      assert [s[0]] + s[1..] == s;
    }
  }

  lemma {:induction false} SplitPrefix(head: string, rest: string, sep: char)
    requires sep !in head
    ensures Split(head + [sep] + rest, sep) == [head] + Split(rest, sep)
  {
    if head == [] {
      assert head + [sep] + rest == [sep] + rest;
    } else {
      assert (head + [sep] + rest)[1..] == head[1..] + [sep] + rest;
      SplitPrefix(head[1..], rest, sep);
      assert [head[0]] + head[1..] == head;
    }
  }

  /** There is one more piece than there are separators, so `"".split(",") == [""]`. */
  lemma {:induction false} SplitCount(s: string, sep: char)
    ensures |Split(s, sep)| == Count(s, sep) + 1
  {
    if s != [] {
      SplitCount(s[1..], sep);
    }
  }

  /** `[p.strip() for p in s.split(",")]`, the command-list parse. */
  function SplitStrip(s: string): (r: seq<string>)
  {
    var pieces := Split(s, ',');
    seq(|pieces|, k requires 0 <= k < |pieces| => Strip(pieces[k]))
  }

  /** Stripping a comma-free piece leaves it comma-free, and trimmed. */
  lemma StripKeepsCommaFree(p: string)
    requires ',' !in p
    ensures Trimmed(Strip(p)) && ',' !in Strip(p)
  {
    StripIsTrimmedSlice(p);
    var r := Strip(p);
    var lead := LeadingSpaces(p);
    forall j | 0 <= j < |r| ensures r[j] != ',' {
      assert r[j] == p[lead + j];
    }
  }

  /** The parse has one element per comma plus one, each trimmed and comma-free. */
  lemma SplitStripShape(s: string)
    ensures |SplitStrip(s)| == Count(s, ',') + 1
    ensures forall k :: 0 <= k < |SplitStrip(s)| ==> Trimmed(SplitStrip(s)[k]) && ',' !in SplitStrip(s)[k]
  {
    SplitCount(s, ',');
    var pieces := Split(s, ',');
    var r := SplitStrip(s);
    forall k | 0 <= k < |r| ensures Trimmed(r[k]) && ',' !in r[k] {
      assert r[k] == Strip(pieces[k]);
      StripKeepsCommaFree(pieces[k]);
    }
  }

  /** An empty reply parses as one empty command. */
  lemma SplitStripEmpty()
    ensures SplitStrip("") == [""]
  {
  }
}
