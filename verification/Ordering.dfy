/** Sorting, as the program uses it: by a key that orders the elements at hand. */
module Ordering {

  ghost predicate TotalPreorder<T(!new)>(le: (T, T) -> bool) {
    && (forall a, b :: le(a, b) || le(b, a))
    && (forall a, b, c :: le(a, b) && le(b, c) ==> le(a, c))
  }

  predicate Sorted<T(!new)>(s: seq<T>, le: (T, T) -> bool) {
    forall i, j :: 0 <= i < j < |s| ==> le(s[i], s[j])
  }

  /** No two different elements of the sequence tie. */
  ghost predicate Decided<T(!new)>(s: seq<T>, le: (T, T) -> bool) {
    forall x, y :: x in s && y in s && le(x, y) && le(y, x) ==> x == y
  }

  function Insert<T(!new)>(x: T, s: seq<T>, le: (T, T) -> bool): seq<T> {
    if |s| == 0 then [x]
    else if le(s[|s| - 1], x) then s + [x]
    else Insert(x, s[..|s| - 1], le) + [s[|s| - 1]]
  }

  /** Stable insertion sort. */
  function Sort<T(!new)>(s: seq<T>, le: (T, T) -> bool): seq<T> {
    if |s| == 0 then [] else Insert(s[|s| - 1], Sort(s[..|s| - 1], le), le)
  }

  lemma {:induction false} InsertPermutes<T(!new)>(x: T, s: seq<T>, le: (T, T) -> bool)
    ensures multiset(Insert(x, s, le)) == multiset(s) + multiset{x}
  {
    if |s| > 0 && !le(s[|s| - 1], x) {
      assert s == s[..|s| - 1] + [s[|s| - 1]];
      InsertPermutes(x, s[..|s| - 1], le);
    }
  }

  lemma {:induction false} InsertSorted<T(!new)>(x: T, s: seq<T>, le: (T, T) -> bool)
    requires TotalPreorder(le) && Sorted(s, le)
    ensures Sorted(Insert(x, s, le), le)
  {
    if |s| > 0 {
      var last := s[|s| - 1];
      if le(last, x) {
        forall i | 0 <= i < |s| ensures le(s[i], x) {
          assert i == |s| - 1 || le(s[i], last);
        }
      } else {
        var front := s[..|s| - 1];
        var rest := Insert(x, front, le);
        InsertSorted(x, front, le);
        InsertPermutes(x, front, le);
        forall i | 0 <= i < |rest| ensures le(rest[i], last) {
          assert rest[i] in multiset(rest);
          assert rest[i] == x || rest[i] in front;
        }
      }
    }
  }

  lemma {:induction false} SortPermutes<T(!new)>(s: seq<T>, le: (T, T) -> bool)
    ensures multiset(Sort(s, le)) == multiset(s)
  {
    if |s| > 0 {
      assert s == s[..|s| - 1] + [s[|s| - 1]];
      SortPermutes(s[..|s| - 1], le);
      InsertPermutes(s[|s| - 1], Sort(s[..|s| - 1], le), le);
    }
  }

  /** Sorting keeps the elements, with their multiplicities, and orders them. */
  lemma {:induction false} SortSorts<T(!new)>(s: seq<T>, le: (T, T) -> bool)
    requires TotalPreorder(le)
    ensures Sorted(Sort(s, le), le)
    ensures multiset(Sort(s, le)) == multiset(s)
    ensures forall x :: x in Sort(s, le) <==> x in s
  {
    SortPermutes(s, le);
    forall x ensures x in Sort(s, le) <==> x in s {
      assert x in multiset(Sort(s, le)) <==> x in multiset(s);
    }
    if |s| > 0 {
      SortSorts(s[..|s| - 1], le);
      InsertSorted(s[|s| - 1], Sort(s[..|s| - 1], le), le);
    }
  }

  lemma TailMultiset<T>(s: seq<T>)
    requires |s| > 0
    ensures multiset(s[1..]) == multiset(s) - multiset{s[0]}
  {
    assert s == [s[0]] + s[1..];
  }

  lemma SameHead<T(!new)>(a: seq<T>, b: seq<T>, le: (T, T) -> bool)
    requires Sorted(a, le) && Sorted(b, le) && Decided(a, le)
    requires multiset(a) == multiset(b) && |a| > 0
    ensures |b| > 0 && a[0] == b[0]
  {
    assert a[0] in multiset(b);
    assert b[0] in multiset(a) by { assert b[0] in multiset(b); }
    var i :| 0 <= i < |a| && a[i] == b[0];
    var j :| 0 <= j < |b| && b[j] == a[0];
    assert i == 0 || le(a[0], a[i]);
    assert j == 0 || le(b[0], b[j]);
  }

  /** A sorted sequence is determined by its elements once ties are decided. */
  lemma {:induction false} SortedUnique<T(!new)>(a: seq<T>, b: seq<T>, le: (T, T) -> bool)
    requires Sorted(a, le) && Sorted(b, le) && Decided(a, le)
    requires multiset(a) == multiset(b)
    ensures a == b
  {
    if |a| == 0 {
      assert |multiset(b)| == 0;
    } else {
      SameHead(a, b, le);
      TailMultiset(a);
      TailMultiset(b);
      SortedUnique(a[1..], b[1..], le);
      assert a == [a[0]] + a[1..] && b == [b[0]] + b[1..];
    }
  }

  // ---- text -------------------------------------------------------------------------------

  /** Python's order on strings: by code point, a proper prefix first. */
  predicate TextLe(a: string, b: string) {
    |a| == 0 || (|b| > 0 && (a[0] < b[0] || (a[0] == b[0] && TextLe(a[1..], b[1..]))))
  }

  predicate TextLt(a: string, b: string) {
    TextLe(a, b) && a != b
  }

  /** The texts agree up to k, and there the first has the smaller character. */
  predicate SmallerAt(a: string, b: string, k: int) {
    0 <= k < |a| && k < |b| && a[..k] == b[..k] && a[k] < b[k]
  }

  /** A text is at most another when it begins it, or is smaller at the first difference. */
  lemma {:induction false} TextLeExactly(a: string, b: string)
    ensures TextLe(a, b) <==> a <= b || exists k :: SmallerAt(a, b, k)
  {
    if |a| > 0 && |b| > 0 {
      var x, y := a[1..], b[1..];
      TextLeExactly(x, y);
      assert a == [a[0]] + x && b == [b[0]] + y;
      if a[0] < b[0] { assert SmallerAt(a, b, 0); }
      if k :| SmallerAt(a, b, k) {
        if k > 0 {
          assert x[..k - 1] == a[1..k] && y[..k - 1] == b[1..k];
          assert a[..k][0] == b[..k][0] && a[1..k] == a[..k][1..] == b[..k][1..] == b[1..k];
          assert SmallerAt(x, y, k - 1);
        }
      }
      if a[0] == b[0] {
        if k :| SmallerAt(x, y, k) {
          assert a[..k + 1] == [a[0]] + x[..k] && b[..k + 1] == [b[0]] + y[..k];
          assert SmallerAt(a, b, k + 1);
        }
      }
    }
  }

  lemma {:induction false} TextLeTotal(a: string, b: string)
    ensures TextLe(a, b) || TextLe(b, a)
  {
    if |a| > 0 && |b| > 0 { TextLeTotal(a[1..], b[1..]); }
  }

  lemma {:induction false} TextLeAntisymmetric(a: string, b: string)
    requires TextLe(a, b) && TextLe(b, a)
    ensures a == b
  {
    if |a| > 0 && |b| > 0 {
      TextLeAntisymmetric(a[1..], b[1..]);
      assert a == [a[0]] + a[1..] && b == [b[0]] + b[1..];
    }
  }

  lemma {:induction false} TextLeTransitive(a: string, b: string, c: string)
    requires TextLe(a, b) && TextLe(b, c)
    ensures TextLe(a, c)
  {
    if |a| > 0 && a[0] == b[0] && b[0] == c[0] { TextLeTransitive(a[1..], b[1..], c[1..]); }
  }

  lemma TextOrder()
    ensures TotalPreorder(TextLe)
    ensures forall a, b :: TextLe(a, b) && TextLe(b, a) ==> a == b
  {
    forall a, b ensures TextLe(a, b) || TextLe(b, a) { TextLeTotal(a, b); }
    forall a, b | TextLe(a, b) && TextLe(b, a) ensures a == b { TextLeAntisymmetric(a, b); }
    forall a, b, c | TextLe(a, b) && TextLe(b, c) ensures TextLe(a, c) { TextLeTransitive(a, b, c); }
  }

  /** Tuples of text, compared component by component. */
  predicate KeyLe(a: seq<string>, b: seq<string>) {
    |a| == 0 || (|b| > 0 && if a[0] == b[0] then KeyLe(a[1..], b[1..]) else TextLe(a[0], b[0]))
  }

  lemma {:induction false} KeyLeTotal(a: seq<string>, b: seq<string>)
    ensures KeyLe(a, b) || KeyLe(b, a)
  {
    if |a| > 0 && |b| > 0 {
      TextLeTotal(a[0], b[0]);
      KeyLeTotal(a[1..], b[1..]);
    }
  }

  lemma {:induction false} KeyLeAntisymmetric(a: seq<string>, b: seq<string>)
    requires KeyLe(a, b) && KeyLe(b, a)
    ensures a == b
  {
    if |a| > 0 && |b| > 0 {
      if a[0] == b[0] {
        KeyLeAntisymmetric(a[1..], b[1..]);
        assert a == [a[0]] + a[1..] && b == [b[0]] + b[1..];
      } else {
        TextLeAntisymmetric(a[0], b[0]);
      }
    }
  }

  lemma TextLeStrict(a: string, b: string, c: string)
    requires TextLe(a, b) && TextLe(b, c) && !(a == b && b == c)
    ensures TextLe(a, c) && a != c
  {
    TextLeTransitive(a, b, c);
    if a == c { TextLeAntisymmetric(a, b); }
  }

  lemma {:induction false} KeyLeTransitive(a: seq<string>, b: seq<string>, c: seq<string>)
    requires KeyLe(a, b) && KeyLe(b, c)
    ensures KeyLe(a, c)
  {
    if |a| > 0 {
      if a[0] == b[0] && b[0] == c[0] {
        KeyLeTransitive(a[1..], b[1..], c[1..]);
      } else {
        TextLeTotal(b[0], b[0]);
        TextLeStrict(a[0], b[0], c[0]);
      }
    }
  }

  lemma KeyOrder()
    ensures TotalPreorder(KeyLe)
    ensures forall a, b :: KeyLe(a, b) && KeyLe(b, a) ==> a == b
  {
    forall a, b ensures KeyLe(a, b) || KeyLe(b, a) { KeyLeTotal(a, b); }
    forall a, b | KeyLe(a, b) && KeyLe(b, a) ensures a == b { KeyLeAntisymmetric(a, b); }
    forall a, b, c | KeyLe(a, b) && KeyLe(b, c) ensures KeyLe(a, c) { KeyLeTransitive(a, b, c); }
  }

  /** Strictly increasing text: sorted, and nothing twice. */
  ghost predicate Ascending(s: seq<string>) {
    forall i, j :: 0 <= i < j < |s| ==> TextLt(s[i], s[j])
  }

  lemma EmptyTogether(a: seq<string>, b: seq<string>)
    requires forall x :: x in a <==> x in b
    ensures |a| == 0 <==> |b| == 0
  {
    if |a| > 0 { assert a[0] in b; }
    if |b| > 0 { assert b[0] in a; }
  }

  /** Only one ascending sequence has a given set of elements. */
  lemma {:induction false} AscendingUnique(a: seq<string>, b: seq<string>)
    requires Ascending(a) && Ascending(b)
    requires forall x :: x in a <==> x in b
    ensures a == b
  {
    EmptyTogether(a, b);
    if |a| > 0 {
      assert a[0] in b && b[0] in a;
      var i :| 0 <= i < |a| && a[i] == b[0];
      var j :| 0 <= j < |b| && b[j] == a[0];
      TextOrder();
      assert a[0] == b[0];
      assert a == [a[0]] + a[1..] && b == [b[0]] + b[1..];
      forall x ensures x in a[1..] <==> x in b[1..] {
        if x in a[1..] { assert x in a; assert x != a[0]; assert x in b; }
        if x in b[1..] { assert x in b; assert x != b[0]; assert x in a; }
      }
      AscendingUnique(a[1..], b[1..]);
    }
  }

  /** Sorting distinct strings gives them in ascending order. */
  lemma SortAscending(s: seq<string>)
    requires forall i, j :: 0 <= i < j < |s| ==> s[i] != s[j]
    ensures Ascending(Sort(s, TextLe))
    ensures forall x :: x in Sort(s, TextLe) <==> x in s
  {
    TextOrder();
    SortSorts(s, TextLe);
    var r := Sort(s, TextLe);
    forall i, j | 0 <= i < j < |r| ensures r[i] != r[j] {
      if r[i] == r[j] {
        TwiceCounted(r, i, j);
        var x := r[i];
        assert multiset(s)[x] >= 2;
        OnceCounted(s, x);
      }
    }
  }

  lemma TwiceCounted<T>(s: seq<T>, i: nat, j: nat)
    requires i < j < |s| && s[i] == s[j]
    ensures multiset(s)[s[i]] >= 2
  {
    assert s == s[..j] + [s[j]] + s[j + 1..];
    assert s[i] in s[..j] by { assert s[..j][i] == s[i]; }
  }

  lemma {:induction false} OnceCounted<T>(s: seq<T>, x: T)
    requires forall i, j :: 0 <= i < j < |s| ==> s[i] != s[j]
    ensures multiset(s)[x] <= 1
  {
    if |s| > 0 {
      var front := s[..|s| - 1];
      assert s == front + [s[|s| - 1]];
      OnceCounted(front, x);
      if x == s[|s| - 1] { assert x !in front; }
    }
  }
}
