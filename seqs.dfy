/** Facts about sequences that the models' proofs share. */
module Seqs {
  /** Concatenation is associative. */
  lemma AppendAssoc<T>(a: seq<T>, b: seq<T>, c: seq<T>)
    ensures a + (b + c) == a + b + c
  {
  }

  /** Slicing off a prefix across a chain of prefixes. */
  lemma SliceAcross<T>(a: seq<T>, b: seq<T>, c: seq<T>)
    requires a <= b <= c
    ensures c[|a|..] == b[|a|..] + c[|b|..]
  {
  }

  /** Reading on into a suffix: `k` more elements of the suffix extend the prefix before it. */
  lemma SuffixSplit<T>(whole: seq<T>, mid: seq<T>, k: nat)
    requires |mid| <= |whole| && mid == whole[|whole| - |mid|..]
    requires k <= |mid|
    ensures whole[..|whole| - |mid| + k] == whole[..|whole| - |mid|] + mid[..k]
  {
  }

  /** A suffix of a suffix is a suffix. */
  lemma SuffixOfSuffix<T>(whole: seq<T>, mid: seq<T>, last: seq<T>)
    requires |mid| <= |whole| && mid == whole[|whole| - |mid|..]
    requires |last| <= |mid| && last == mid[|mid| - |last|..]
    ensures last == whole[|whole| - |last|..]
  {
  }

  /** What was appended after `middle`, itself `before` followed by `lines`. */
  lemma AppendedAfter<T>(before: seq<T>, lines: seq<T>, middle: seq<T>, after: seq<T>)
    requires middle == before + lines && middle <= after
    ensures after == before + (lines + after[|middle|..])
  {
    assert after == middle + after[|middle|..];
  }
}
