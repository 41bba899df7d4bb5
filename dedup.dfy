/** `list(dict.fromkeys(li))`: the order-preserving deduplication `make_dic`
    applies to each of its three lists. */
module Dedup {

  predicate NoDuplicates(s: seq<string>) {
    forall i, j | 0 <= i < j < |s| :: s[i] != s[j]
  }

  /** The position of the first occurrence of `x` in `s`. */
  function FirstIndex(s: seq<string>, x: string): (k: nat)
    requires x in s
    ensures k < |s| && s[k] == x && x !in s[..k]
  {
    if s[0] == x then 0 else 1 + FirstIndex(s[1..], x)
  }

  /** `list(dict.fromkeys(s))`: the keys of a dictionary filled from `s` in
      order, where a key already present keeps its place. */
  function FromKeys(s: seq<string>): (r: seq<string>)
    ensures NoDuplicates(r)
    ensures forall x :: x in r <==> x in s
    decreases |s|
  {
    if s == [] then []
    else
      var keys := FromKeys(s[..|s| - 1]);
      var x := s[|s| - 1];
      if x in keys then keys else keys + [x]
  }

  /** An element occurring first at `k` has `FirstIndex` `k`, in `s` and in any longer prefix. */
  lemma FirstIndexOfPrefix(s: seq<string>, m: nat, x: string)
    requires m <= |s| && x in s[..m]
    ensures FirstIndex(s, x) == FirstIndex(s[..m], x)
  {
    var k := FirstIndex(s[..m], x);
    var j := FirstIndex(s, x);
    assert s[..m][..k] == s[..k];
  }

  /** The kept elements appear in the order of their first occurrences in the
      input: each is kept at its first occurrence, and later repeats are dropped. */
  lemma {:induction false} FromKeysOrder(s: seq<string>)
    ensures forall i, j | 0 <= i < j < |FromKeys(s)| ::
              FirstIndex(s, FromKeys(s)[i]) < FirstIndex(s, FromKeys(s)[j])
    decreases |s|
  {
    if s != [] {
      var init := s[..|s| - 1];
      var keys := FromKeys(init);
      var x := s[|s| - 1];
      FromKeysOrder(init);
      var r := FromKeys(s);
      forall i, j | 0 <= i < j < |r|
        ensures FirstIndex(s, r[i]) < FirstIndex(s, r[j])
      {
        assert r[i] == keys[i];
        FirstIndexOfPrefix(s, |s| - 1, r[i]);
        if j < |keys| {
          assert r[j] == keys[j];
          FirstIndexOfPrefix(s, |s| - 1, r[j]);
        } else {
          assert r[j] == x && x !in init;
          assert s[..|s| - 1] == init;
        }
      }
    }
  }
}
