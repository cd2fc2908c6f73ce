/** `list.filter(x => key(x) !== id)`, shared by the two delete-by-id handlers. */
module Seqs {

  function Without<T>(s: seq<T>, key: T -> string, id: string): (r: seq<T>)
    ensures |r| <= |s|
    ensures forall i :: 0 <= i < |r| ==> r[i] in s && key(r[i]) != id
    ensures forall i :: 0 <= i < |s| && key(s[i]) != id ==> s[i] in r
  {
    if s == [] then []
    else (if key(s[0]) == id then [] else [s[0]]) + Without(s[1..], key, id)
  }

  /** How many elements carry the key `id`. */
  function Count<T>(s: seq<T>, key: T -> string, id: string): nat {
    if s == [] then 0 else (if key(s[0]) == id then 1 else 0) + Count(s[1..], key, id)
  }

  /** Filtering commutes with concatenation, so the survivors keep their relative order. */
  lemma {:induction false} WithoutAppend<T>(a: seq<T>, b: seq<T>, key: T -> string, id: string)
    ensures Without(a + b, key, id) == Without(a, key, id) + Without(b, key, id)
  {
    if a == [] {
      assert a + b == b;
    } else {
      assert (a + b)[1..] == a[1..] + b;
      WithoutAppend(a[1..], b, key, id);
    }
  }

  /** Exactly the matching elements are dropped. */
  lemma {:induction false} WithoutLength<T>(s: seq<T>, key: T -> string, id: string)
    ensures |Without(s, key, id)| == |s| - Count(s, key, id)
  {
    if s != [] {
      WithoutLength(s[1..], key, id);
    }
  }

  /** With no matching element the filter is the identity. */
  lemma {:induction false} WithoutAbsent<T>(s: seq<T>, key: T -> string, id: string)
    requires forall i :: 0 <= i < |s| ==> key(s[i]) != id
    ensures Without(s, key, id) == s
  {
    if s != [] {
      WithoutAbsent(s[1..], key, id);
      assert [s[0]] + s[1..] == s;
    }
  }

  /** A key held by exactly one element, at index `i`, is counted once. */
  lemma {:induction false} CountSingle<T>(s: seq<T>, key: T -> string, i: nat)
    requires i < |s|
    requires forall j :: 0 <= j < |s| && j != i ==> key(s[j]) != key(s[i])
    ensures Count(s, key, key(s[i])) == 1
  {
    if i == 0 {
      CountNone(s[1..], key, key(s[0]));
    } else {
      CountSingle(s[1..], key, i - 1);
    }
  }

  lemma {:induction false} CountNone<T>(s: seq<T>, key: T -> string, id: string)
    requires forall j :: 0 <= j < |s| ==> key(s[j]) != id
    ensures Count(s, key, id) == 0
  {
    if s != [] {
      CountNone(s[1..], key, id);
    }
  }
}
