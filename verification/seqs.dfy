/** Sequence helpers shared by the ordered dictionaries and the name lists. */
module Seqs {

  /** No element occurs twice. */
  predicate NoDup<T(==)>(s: seq<T>) {
    forall i, j :: 0 <= i < j < |s| ==> s[i] != s[j]
  }

  function Elems<T>(s: seq<T>): set<T> {
    set x | x in s
  }

  /** The elements of a non-empty sequence are its head and those of its tail. */
  lemma ElemsCons<T>(s: seq<T>)
    requires |s| > 0
    ensures Elems(s) == {s[0]} + Elems(s[1..])
  {
    assert s == [s[0]] + s[1..];
  }

  /** Without repeats, the head is not in the tail, which has no repeats. */
  lemma NoDupTail<T>(s: seq<T>)
    requires NoDup(s) && |s| > 0
    ensures NoDup(s[1..]) && s[0] !in s[1..]
  {
    forall j | 0 <= j < |s| - 1 ensures s[1..][j] != s[0] {
      assert s[1..][j] == s[j + 1];
    }
  }

  /** The position of the first occurrence of `x` in `s`. */
  function FirstIndex<T(==)>(s: seq<T>, x: T): (i: nat)
    requires x in s
    ensures i < |s| && s[i] == x
    ensures forall j :: 0 <= j < i ==> s[j] != x
  {
    if s[0] == x then 0
    else
      assert x in s[1..] by {
        var k :| 0 <= k < |s| && s[k] == x;
        assert s[1..][k - 1] == x;
      }
      var i := FirstIndex(s[1..], x);
      assert forall j :: 1 <= j <= i ==> s[j] == s[1..][j - 1];
      1 + i
  }

  /** Appends, in order, every element of `extra` that is not yet present:
      the `for ele in ...: if ele not in full_list: full_list += [ele]` loop
      of the names properties, and the key order of a Python dict that
      receives the keys of `extra` one after another. */
  function AppendMissing<T(==)>(acc: seq<T>, extra: seq<T>): (r: seq<T>)
    ensures |acc| <= |r| <= |acc| + |extra|
    ensures r[..|acc|] == acc
    ensures Elems(r) == Elems(acc) + Elems(extra)
    ensures NoDup(acc) ==> NoDup(r)
    decreases |extra|
  {
    if |extra| == 0 then acc
    else
      var next := if extra[0] in acc then acc else acc + [extra[0]];
      assert Elems(next) == Elems(acc) + {extra[0]};
      assert Elems(extra) == {extra[0]} + Elems(extra[1..]);
      AppendMissing(next, extra[1..])
  }

  /** What the loop appends is new: each appended element comes from
      `extra` and was not in `acc`. */
  lemma {:induction false} AppendMissingNew<T>(acc: seq<T>, extra: seq<T>)
    ensures forall i :: |acc| <= i < |AppendMissing(acc, extra)| ==>
              AppendMissing(acc, extra)[i] !in acc && AppendMissing(acc, extra)[i] in extra
    decreases |extra|
  {
    if |extra| > 0 {
      var x, rest := extra[0], extra[1..];
      var next := if x in acc then acc else acc + [x];
      var r := AppendMissing(next, rest);
      assert AppendMissing(acc, extra) == r;
      AppendMissingNew(next, rest);
      forall i | |acc| <= i < |r| ensures r[i] !in acc && r[i] in extra {
        if i < |next| {
          assert r[i] == next[i] == x;
        } else {
          assert r[i] in rest && r[i] !in next;
        }
      }
    }
  }

  /** What the loop appends keeps the order of `extra`: an element appended
      earlier first occurs earlier in `extra`. */
  lemma {:induction false} AppendMissingOrder<T>(acc: seq<T>, extra: seq<T>)
    ensures forall i :: |acc| <= i < |AppendMissing(acc, extra)| ==> AppendMissing(acc, extra)[i] in extra
    ensures forall i, j :: |acc| <= i < j < |AppendMissing(acc, extra)| ==>
              FirstIndex(extra, AppendMissing(acc, extra)[i]) < FirstIndex(extra, AppendMissing(acc, extra)[j])
    decreases |extra|
  {
    AppendMissingNew(acc, extra);
    if |extra| > 0 {
      var x, rest := extra[0], extra[1..];
      var next := if x in acc then acc else acc + [x];
      var r := AppendMissing(next, rest);
      assert AppendMissing(acc, extra) == r;
      AppendMissingOrder(next, rest);
      AppendMissingNew(next, rest);
      forall i | |next| <= i < |r| ensures r[i] != x && FirstIndex(extra, r[i]) == 1 + FirstIndex(rest, r[i]) {
        assert r[i] !in next && r[i] in rest;
      }
      forall i, j | |acc| <= i < j < |r| ensures FirstIndex(extra, r[i]) < FirstIndex(extra, r[j]) {
        if i < |next| {
          assert r[i] == next[i] == x;
        }
      }
    }
  }

  /** The elements of `s` with later repetitions removed. */
  function Distinct<T(==)>(s: seq<T>): (r: seq<T>)
    ensures NoDup(r)
    ensures Elems(r) == Elems(s)
    ensures |r| <= |s|
  {
    AppendMissing([], s)
  }

  /** Nothing is dropped exactly when `extra` has no repetition and shares
      nothing with `acc`. */
  lemma {:induction false} AppendMissingExact<T>(acc: seq<T>, extra: seq<T>)
    requires NoDup(acc)
    ensures |AppendMissing(acc, extra)| == |acc| + |extra|
            <==> NoDup(extra) && Elems(acc) !! Elems(extra)
    decreases |extra|
  {
    if |extra| == 0 {
    } else {
      var x := extra[0];
      var rest := extra[1..];
      assert Elems(extra) == {x} + Elems(rest);
      if x in acc {
        AppendMissingExact(acc, rest);
        assert |AppendMissing(acc, extra)| <= |acc| + |rest|;
        assert !(Elems(acc) !! Elems(extra));
      } else {
        var next := acc + [x];
        assert NoDup(next);
        AppendMissingExact(next, rest);
        assert Elems(next) == Elems(acc) + {x};
        if NoDup(extra) && Elems(acc) !! Elems(extra) {
          assert NoDup(rest) by {
            forall i, j | 0 <= i < j < |rest| ensures rest[i] != rest[j] {
              assert rest[i] == extra[i + 1] && rest[j] == extra[j + 1];
            }
          }
          assert x !in rest by {
            forall i | 0 <= i < |rest| ensures rest[i] != x {
              assert rest[i] == extra[i + 1];
            }
          }
        }
        if NoDup(rest) && Elems(next) !! Elems(rest) {
          assert NoDup(extra) by {
            forall i, j | 0 <= i < j < |extra| ensures extra[i] != extra[j] {
              if i == 0 {
                assert extra[j] == rest[j - 1];
              } else {
                assert extra[i] == rest[i - 1] && extra[j] == rest[j - 1];
              }
            }
          }
        }
      }
    }
  }

  /** A repetition-free sequence is its own `Distinct`. */
  lemma {:induction false} AppendMissingFresh<T>(acc: seq<T>, extra: seq<T>)
    requires NoDup(extra) && Elems(acc) !! Elems(extra)
    ensures AppendMissing(acc, extra) == acc + extra
    decreases |extra|
  {
    if |extra| > 0 {
      var rest := extra[1..];
      assert extra[0] !in acc by {
        assert extra[0] in Elems(extra);
      }
      assert NoDup(rest) by {
        forall i, j | 0 <= i < j < |rest| ensures rest[i] != rest[j] {
          assert rest[i] == extra[i + 1] && rest[j] == extra[j + 1];
        }
      }
      assert Elems(acc + [extra[0]]) !! Elems(rest) by {
        forall y | y in rest ensures y != extra[0] && y !in acc {
          var k :| 0 <= k < |rest| && rest[k] == y;
          assert y == extra[k + 1];
          assert y in Elems(extra);
        }
      }
      AppendMissingFresh(acc + [extra[0]], rest);
      assert acc + [extra[0]] + rest == acc + extra;
    }
  }

  /** A repetition-free sequence has as many elements as its length. */
  lemma {:induction false} NoDupCard<T>(s: seq<T>)
    requires NoDup(s)
    ensures |Elems(s)| == |s|
    decreases |s|
  {
    if |s| > 0 {
      NoDupTail(s);
      NoDupCard(s[1..]);
      assert s == [s[0]] + s[1..];
      assert Elems(s) == {s[0]} + Elems(s[1..]);
    }
  }

  /** A concatenation repeats nothing exactly when neither part does and
      the parts share nothing. */
  lemma NoDupConcat<T>(a: seq<T>, b: seq<T>)
    ensures NoDup(a + b) <==> NoDup(a) && NoDup(b) && Elems(a) !! Elems(b)
  {
    var ab := a + b;
    if NoDup(ab) {
      forall i, j | 0 <= i < j < |a| ensures a[i] != a[j] {
        assert a[i] == ab[i] && a[j] == ab[j];
      }
      forall i, j | 0 <= i < j < |b| ensures b[i] != b[j] {
        assert b[i] == ab[|a| + i] && b[j] == ab[|a| + j];
      }
      forall i, j | 0 <= i < |a| && 0 <= j < |b| ensures a[i] != b[j] {
        assert a[i] == ab[i] && b[j] == ab[|a| + j];
      }
    }
    if NoDup(a) && NoDup(b) && Elems(a) !! Elems(b) {
      forall i, j | 0 <= i < j < |ab| ensures ab[i] != ab[j] {
        if j >= |a| && i < |a| {
          assert ab[i] in Elems(a) && ab[j] in Elems(b);
        } else if i >= |a| {
          assert ab[i] == b[i - |a|] && ab[j] == b[j - |a|];
        }
      }
    }
  }
}
