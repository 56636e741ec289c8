/** Keeping the first element of each kind, where a key says what kind an element is. */
module Distinct {

  function KeysOf<T>(s: seq<T>, key: T -> string): (r: set<string>)
  {
    set i | 0 <= i < |s| :: key(s[i])
  }

  function DistinctBy<T>(s: seq<T>, key: T -> string): (r: seq<T>)
  {
    if s == [] then []
    else
      DistinctBy(s[..|s| - 1], key)
      + if key(s[|s| - 1]) in KeysOf(s[..|s| - 1], key) then [] else [s[|s| - 1]]
  }

  /** No earlier element has the same key. */
  ghost predicate FirstOfItsKind<T>(s: seq<T>, key: T -> string, i: nat)
    requires i < |s|
  {
    forall j :: 0 <= j < i ==> key(s[j]) != key(s[i])
  }

  /**
   * `kept` is `s` with exactly the first element of each kind left in, in order:
   * `positions` says where each kept element came from.
   */
  ghost predicate KeepsFirstOfEachKind<T>(s: seq<T>, key: T -> string, kept: seq<T>, positions: seq<nat>)
  {
    && |positions| == |kept|
    && (forall i, j :: 0 <= i < j < |positions| ==> positions[i] < positions[j])
    && (forall i :: 0 <= i < |kept| ==> positions[i] < |s| && kept[i] == s[positions[i]])
    && (forall i :: 0 <= i < |s| ==> (FirstOfItsKind(s, key, i) <==> i in positions))
  }

  lemma KeysPush<T>(s: seq<T>, x: T, key: T -> string)
    ensures KeysOf(s + [x], key) == KeysOf(s, key) + {key(x)}
  {
    var all := s + [x];
    forall k | k in KeysOf(s, key) + {key(x)} ensures k in KeysOf(all, key) {
      if k in KeysOf(s, key) {
        var i :| 0 <= i < |s| && key(s[i]) == k;
        assert all[i] == s[i];
      } else {
        assert all[|s|] == x;
      }
    }
  }

  lemma DistinctPush<T>(s: seq<T>, x: T, key: T -> string)
    ensures DistinctBy(s + [x], key) == DistinctBy(s, key) + if key(x) in KeysOf(s, key) then [] else [x]
  {
    assert (s + [x])[..|s|] == s;
  }

  lemma {:induction false} KeepsFirstOccurrences<T>(s: seq<T>, key: T -> string) returns (positions: seq<nat>)
    ensures KeepsFirstOfEachKind(s, key, DistinctBy(s, key), positions)
  {
    if s == [] {
      positions := [];
    } else {
      var n := |s| - 1;
      var earlier := KeepsFirstOccurrences(s[..n], key);
      forall i | 0 <= i < n ensures FirstOfItsKind(s, key, i) <==> FirstOfItsKind(s[..n], key, i) {
        assert forall j :: 0 <= j <= i ==> s[..n][j] == s[j];
      }
      assert FirstOfItsKind(s, key, n) <==> key(s[n]) !in KeysOf(s[..n], key) by {
        assert forall j :: 0 <= j < n ==> s[..n][j] == s[j];
      }
      positions := earlier + if key(s[n]) in KeysOf(s[..n], key) then [] else [n];
      forall i | 0 <= i < |s| ensures FirstOfItsKind(s, key, i) <==> i in positions {
        if i < n {
          assert FirstOfItsKind(s[..n], key, i) <==> i in earlier;
        }
      }
    }
  }

  /** No kind is lost, none is left twice, and a non-empty list is never emptied. */
  lemma {:induction false} DropsNoKind<T>(s: seq<T>, key: T -> string)
    ensures KeysOf(DistinctBy(s, key), key) == KeysOf(s, key)
    ensures forall i, j :: 0 <= i < j < |DistinctBy(s, key)| ==>
              key(DistinctBy(s, key)[i]) != key(DistinctBy(s, key)[j])
    ensures DistinctBy(s, key) == [] <==> s == []
  {
    if s != [] {
      var front, last := s[..|s| - 1], s[|s| - 1];
      DropsNoKind(front, key);
      KeysPush(front, last, key);
      KeysPush(DistinctBy(front, key), last, key);
      assert s == front + [last];
      assert DistinctBy(front, key) + [] == DistinctBy(front, key);
      assert forall i :: 0 <= i < |DistinctBy(front, key)| ==>
          key(DistinctBy(front, key)[i]) in KeysOf(DistinctBy(front, key), key);
    }
  }
}
