/** Small facts about sequences that the grouping proofs rewrite with. */
module SeqLemmas {

  /** A sequence is its prefix followed by the matching suffix. */
  lemma SplitJoin<T>(s: seq<T>, n: nat)
    requires n <= |s|
    ensures s[..n] + s[n..] == s
  {
  }

  /** A non-empty sequence is its head followed by its tail. */
  lemma HeadTail<T>(s: seq<T>)
    requires s != []
    ensures s == [s[0]] + s[1..]
  {
  }

  /** Splitting off the head of the remainder moves it onto the done part. */
  lemma ShiftHead<T>(whole: seq<T>, done: seq<T>, rest: seq<T>, head: T, tail: seq<T>)
    requires whole == done + rest && rest == [head] + tail
    ensures whole == (done + [head]) + tail
  {
  }
}
