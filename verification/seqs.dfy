/** Small facts about sequences, stated once so that each proof that needs
    one can cite it instead of re-deriving it in a large context. */
module Seqs {

  /** A prefix one element longer is the shorter prefix and that element. */
  lemma PrefixSnoc<T>(s: seq<T>, i: nat)
    requires i < |s|
    ensures s[..i + 1] == s[..i] + [s[i]]
  {
  }

  /** The prefix as long as the sequence is the sequence. */
  lemma PrefixAll<T>(s: seq<T>)
    ensures s[..|s|] == s
  {
  }

  lemma AppendAssoc<T>(a: seq<T>, b: seq<T>, c: seq<T>)
    ensures a + (b + c) == (a + b) + c
  {
  }

  lemma Regroup<T>(a: seq<T>, b: seq<T>, c: seq<T>, d: seq<T>)
    ensures (a + b) + c + d == a + (b + c) + d
  {
  }

  /** The first and last elements of a sequence written in three parts. */
  lemma Ends<T>(head: seq<T>, middle: seq<T>, tail: seq<T>)
    requires head != [] && tail != []
    ensures var s := head + middle + tail;
            s[0] == head[0] && s[|s| - 1] == tail[|tail| - 1]
  {
  }

  /** An element of the middle part of a sequence written in three parts. */
  lemma InMiddle<T>(head: seq<T>, middle: seq<T>, tail: seq<T>, j: nat)
    requires j < |middle|
    ensures |head| + j < |head + middle + tail|
    ensures (head + middle + tail)[|head| + j] == middle[j]
  {
  }

  /** A slice of the middle part of a sequence written in three parts. */
  lemma SliceOfMiddle<T>(head: seq<T>, middle: seq<T>, tail: seq<T>, lo: nat, hi: nat)
    requires lo <= hi <= |middle|
    ensures |head| + hi <= |head + middle + tail|
    ensures (head + middle + tail)[|head| + lo .. |head| + hi] == middle[lo..hi]
  {
  }
}
