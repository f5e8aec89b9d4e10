/** Orders and sorting. Python compares `str` values code point by code
    point, and pandas' `sort_values(by=<all columns>)` compares rows one
    cell at a time; both are written here as lexicographic orders.
    `SortBy` is a stable insertion sort over any total preorder: Python's
    `list.sort`, and the canonical order the fingerprint sorts rows into. */
module Order {

  /** Python's `a <= b` on `str`. */
  predicate StrLe(a: string, b: string)
  {
    a == [] || (b != [] && (a[0] < b[0] || (a[0] == b[0] && StrLe(a[1..], b[1..]))))
  }

  lemma {:induction false} StrLeTotal(a: string, b: string)
    ensures StrLe(a, b) || StrLe(b, a)
  {
    if a != [] && b != [] && a[0] == b[0] {
      StrLeTotal(a[1..], b[1..]);
    }
  }

  lemma {:induction false} StrLeAntisymmetric(a: string, b: string)
    requires StrLe(a, b) && StrLe(b, a)
    ensures a == b
  {
    if a != [] && b != [] {
      StrLeAntisymmetric(a[1..], b[1..]);
      assert a == [a[0]] + a[1..] && b == [b[0]] + b[1..];
    }
  }

  lemma {:induction false} StrLeTransitive(a: string, b: string, c: string)
    requires StrLe(a, b) && StrLe(b, c)
    ensures StrLe(a, c)
  {
    if a != [] && b != [] && c != [] && a[0] == b[0] == c[0] {
      StrLeTransitive(a[1..], b[1..], c[1..]);
    }
  }

  /** The order pandas sorts text rows into when every column is a sort key. */
  predicate RowLe(a: seq<string>, b: seq<string>)
  {
    a == [] || (b != [] && ((a[0] != b[0] && StrLe(a[0], b[0])) || (a[0] == b[0] && RowLe(a[1..], b[1..]))))
  }

  lemma {:induction false} RowLeTotal(a: seq<string>, b: seq<string>)
    ensures RowLe(a, b) || RowLe(b, a)
  {
    if a != [] && b != [] {
      if a[0] == b[0] {
        RowLeTotal(a[1..], b[1..]);
      } else {
        StrLeTotal(a[0], b[0]);
      }
    }
  }

  lemma {:induction false} RowLeAntisymmetric(a: seq<string>, b: seq<string>)
    requires RowLe(a, b) && RowLe(b, a)
    ensures a == b
  {
    if a != [] && b != [] {
      if a[0] == b[0] {
        RowLeAntisymmetric(a[1..], b[1..]);
        assert a == [a[0]] + a[1..] && b == [b[0]] + b[1..];
      } else {
        StrLeAntisymmetric(a[0], b[0]);
      }
    }
  }

  lemma {:induction false} RowLeTransitive(a: seq<string>, b: seq<string>, c: seq<string>)
    requires RowLe(a, b) && RowLe(b, c)
    ensures RowLe(a, c)
  {
    if a != [] && b != [] && c != [] {
      if a[0] == b[0] && b[0] == c[0] {
        RowLeTransitive(a[1..], b[1..], c[1..]);
      } else if a[0] != b[0] && b[0] != c[0] {
        StrLeTransitive(a[0], b[0], c[0]);
        if a[0] == c[0] {
          StrLeAntisymmetric(a[0], b[0]);
        }
      }
    }
  }

  ghost predicate TotalPreorder<T(!new)>(le: (T, T) -> bool)
  {
    && (forall x, y :: le(x, y) || le(y, x))
    && (forall x, y, z :: le(x, y) && le(y, z) ==> le(x, z))
  }

  ghost predicate Antisymmetric<T(!new)>(le: (T, T) -> bool)
  {
    forall x, y :: le(x, y) && le(y, x) ==> x == y
  }

  lemma RowLeIsTotalOrder()
    ensures TotalPreorder(RowLe) && Antisymmetric(RowLe)
  {
    forall x, y ensures RowLe(x, y) || RowLe(y, x) {
      RowLeTotal(x, y);
    }
    forall x, y, z | RowLe(x, y) && RowLe(y, z) ensures RowLe(x, z) {
      RowLeTransitive(x, y, z);
    }
    forall x, y | RowLe(x, y) && RowLe(y, x) ensures x == y {
      RowLeAntisymmetric(x, y);
    }
  }

  lemma StrLeIsTotalPreorder()
    ensures TotalPreorder(StrLe)
  {
    forall x, y ensures StrLe(x, y) || StrLe(y, x) {
      StrLeTotal(x, y);
    }
    forall x, y, z | StrLe(x, y) && StrLe(y, z) ensures StrLe(x, z) {
      StrLeTransitive(x, y, z);
    }
  }

  predicate SortedBy<T>(s: seq<T>, le: (T, T) -> bool)
  {
    forall i, j :: 0 <= i < j < |s| ==> le(s[i], s[j])
  }

  /** Inserts `x` after every element that is at most `x`. */
  function InsertBy<T(!new)>(x: T, s: seq<T>, le: (T, T) -> bool): (r: seq<T>)
    requires TotalPreorder(le) && SortedBy(s, le)
    ensures SortedBy(r, le)
    ensures multiset(r) == multiset(s) + multiset{x}
  {
    if s == [] then [x]
    else if le(s[0], x) then
      var tail := InsertBy(x, s[1..], le);
      HeadTail(s);
      HeadBelowInserted(x, s, tail, le);
      ConsSorted(s[0], tail, le);
      [s[0]] + tail
    else
      InsertFrontSorted(x, s, le);
      [x] + s
  }

  /** A head at most every element of a sorted tail gives a sorted sequence. */
  lemma ConsSorted<T>(h: T, t: seq<T>, le: (T, T) -> bool)
    requires SortedBy(t, le)
    requires forall j :: 0 <= j < |t| ==> le(h, t[j])
    ensures SortedBy([h] + t, le)
  {
    forall i, j | 0 <= i < j < |[h] + t| ensures le(([h] + t)[i], ([h] + t)[j]) {
      if i == 0 {
        assert ([h] + t)[j] == t[j - 1];
      } else {
        assert ([h] + t)[i] == t[i - 1] && ([h] + t)[j] == t[j - 1];
      }
    }
  }

  /** The head of a sorted `s` that is at most `x` is at most every element of
      `s[1..]` with `x` inserted. */
  lemma HeadBelowInserted<T>(x: T, s: seq<T>, tail: seq<T>, le: (T, T) -> bool)
    requires s != [] && SortedBy(s, le) && le(s[0], x)
    requires multiset(tail) == multiset(s[1..]) + multiset{x}
    ensures forall j :: 0 <= j < |tail| ==> le(s[0], tail[j])
  {
    forall j | 0 <= j < |tail| ensures le(s[0], tail[j]) {
      assert tail[j] in multiset(tail);
      if tail[j] != x {
        assert tail[j] in multiset(s[1..]);
        var m :| 0 <= m < |s[1..]| && s[1..][m] == tail[j];
        assert s[m + 1] == tail[j];
      }
    }
  }

  /** An `x` below the head of a sorted `s` can go in front. */
  lemma InsertFrontSorted<T(!new)>(x: T, s: seq<T>, le: (T, T) -> bool)
    requires TotalPreorder(le) && SortedBy(s, le)
    requires s != [] && !le(s[0], x)
    ensures SortedBy([x] + s, le)
  {
    assert le(x, s[0]);
    forall j | 0 <= j < |s| ensures le(x, s[j]) {
      if j > 0 {
        assert le(s[0], s[j]);
      }
    }
    ConsSorted(x, s, le);
  }

  /** Stable insertion sort: the elements are inserted first to last, each
      after all those already placed that are at most it. */
  function SortBy<T(!new)>(s: seq<T>, le: (T, T) -> bool): (r: seq<T>)
    requires TotalPreorder(le)
    ensures SortedBy(r, le)
    ensures multiset(r) == multiset(s)
  {
    if s == [] then []
    else
      InitLast(s);
      InsertBy(s[|s| - 1], SortBy(s[..|s| - 1], le), le)
  }

  /** The elements of `s` equivalent to `k` under `le`, in their order in `s`. */
  function ClassOf<T>(s: seq<T>, k: T, le: (T, T) -> bool): seq<T>
  {
    if s == [] then []
    else (if le(s[0], k) && le(k, s[0]) then [s[0]] else []) + ClassOf(s[1..], k, le)
  }

  lemma {:induction false} ClassOfConcat<T>(a: seq<T>, b: seq<T>, k: T, le: (T, T) -> bool)
    ensures ClassOf(a + b, k, le) == ClassOf(a, k, le) + ClassOf(b, k, le)
  {
    if a == [] {
      assert a + b == b;
    } else {
      assert (a + b)[1..] == a[1..] + b;
      ClassOfConcat(a[1..], b, k, le);
    }
  }

  lemma {:induction false} ClassOfNone<T>(s: seq<T>, k: T, le: (T, T) -> bool)
    requires forall j :: 0 <= j < |s| ==> !(le(s[j], k) && le(k, s[j]))
    ensures ClassOf(s, k, le) == []
  {
    if s != [] {
      ClassOfNone(s[1..], k, le);
    }
  }

  lemma {:induction false} InsertByClass<T(!new)>(x: T, s: seq<T>, k: T, le: (T, T) -> bool)
    requires TotalPreorder(le) && SortedBy(s, le)
    ensures ClassOf(InsertBy(x, s, le), k, le)
         == ClassOf(s, k, le) + (if le(x, k) && le(k, x) then [x] else [])
  {
    if s == [] {
    } else if le(s[0], x) {
      SortedTail(s, le);
      InsertByClass(x, s[1..], k, le);
      InsertByAfterHead(x, s, le);
      HeadTail(s);
      ConsClass(s[0], s[1..], InsertBy(x, s[1..], le), if le(x, k) && le(k, x) then [x] else [], k, le);
    } else {
      InsertBeforeClass(x, s, k, le);
    }
  }

  lemma InsertByAfterHead<T(!new)>(x: T, s: seq<T>, le: (T, T) -> bool)
    requires TotalPreorder(le) && SortedBy(s, le)
    requires s != [] && le(s[0], x)
    ensures SortedBy(s[1..], le)
    ensures InsertBy(x, s, le) == [s[0]] + InsertBy(x, s[1..], le)
  {
    SortedTail(s, le);
  }

  /** Putting the same head in front of two sequences keeps the relation
      between their classes. */
  lemma ConsClass<T>(h: T, t: seq<T>, u: seq<T>, added: seq<T>, k: T, le: (T, T) -> bool)
    requires ClassOf(u, k, le) == ClassOf(t, k, le) + added
    ensures ClassOf([h] + u, k, le) == ClassOf([h] + t, k, le) + added
  {
    assert ([h] + u)[1..] == u;
    assert ([h] + t)[1..] == t;
    var head := if le(h, k) && le(k, h) then [h] else [];
    AppendAssoc(head, ClassOf(t, k, le), added);
  }

  lemma HeadTail<T>(s: seq<T>)
    requires s != []
    ensures [s[0]] + s[1..] == s
  {
  }

  lemma InitLast<T>(s: seq<T>)
    requires s != []
    ensures s[..|s| - 1] + [s[|s| - 1]] == s
  {
  }

  lemma AppendAssoc<T>(a: seq<T>, b: seq<T>, c: seq<T>)
    ensures (a + b) + c == a + (b + c)
  {
  }

  lemma InsertBeforeClass<T(!new)>(x: T, s: seq<T>, k: T, le: (T, T) -> bool)
    requires TotalPreorder(le) && SortedBy(s, le)
    requires s != [] && !le(s[0], x)
    ensures ClassOf([x] + s, k, le)
         == ClassOf(s, k, le) + (if le(x, k) && le(k, x) then [x] else [])
  {
    assert ([x] + s)[1..] == s;
    if le(x, k) && le(k, x) {
      forall j | 0 <= j < |s| ensures !(le(s[j], k) && le(k, s[j])) {
        assert j == 0 || le(s[0], s[j]);
      }
      ClassOfNone(s, k, le);
    }
  }

  /** `SortBy` is stable: elements with equal sort keys keep their relative
      order. */
  lemma {:induction false} SortByStable<T(!new)>(s: seq<T>, k: T, le: (T, T) -> bool)
    requires TotalPreorder(le)
    ensures ClassOf(SortBy(s, le), k, le) == ClassOf(s, k, le)
  {
    if s != [] {
      var init, last := s[..|s| - 1], s[|s| - 1];
      var sorted := SortBy(init, le);
      assert SortBy(s, le) == InsertBy(last, sorted, le);
      var tail := if le(last, k) && le(k, last) then [last] else [];
      calc {
        ClassOf(SortBy(s, le), k, le);
      == { InsertByClass(last, sorted, k, le); }
        ClassOf(sorted, k, le) + tail;
      == { SortByStable(init, k, le); }
        ClassOf(init, k, le) + tail;
      == { ClassOfSingleton(last, k, le); }
        ClassOf(init, k, le) + ClassOf([last], k, le);
      == { ClassOfConcat(init, [last], k, le); }
        ClassOf(init + [last], k, le);
      == { InitLast(s); }
        ClassOf(s, k, le);
      }
    }
  }

  lemma ClassOfSingleton<T>(x: T, k: T, le: (T, T) -> bool)
    ensures ClassOf([x], k, le) == if le(x, k) && le(k, x) then [x] else []
  {
    assert [x][1..] == [];
  }

  /** Under an antisymmetric order there is only one sorted arrangement of a
      multiset. */
  lemma {:induction false} SortedUnique<T(!new)>(a: seq<T>, b: seq<T>, le: (T, T) -> bool)
    requires Antisymmetric(le)
    requires SortedBy(a, le) && SortedBy(b, le)
    requires multiset(a) == multiset(b)
    ensures a == b
  {
    if a == [] {
      assert |b| == |multiset(b)| == 0;
    } else {
      assert |b| == |multiset(b)| == |multiset(a)| > 0;
      SortedHeadIsLeast(a, b[0], le);
      SortedHeadIsLeast(b, a[0], le);
      assert a[0] == b[0];
      TailMultiset(a);
      TailMultiset(b);
      SortedTail(a, le);
      SortedTail(b, le);
      SortedUnique(a[1..], b[1..], le);
      assert a == [a[0]] + a[1..] && b == [b[0]] + b[1..];
    }
  }

  lemma TailMultiset<T>(s: seq<T>)
    requires s != []
    ensures multiset(s[1..]) == multiset(s) - multiset{s[0]}
  {
    assert s == [s[0]] + s[1..];
  }

  lemma SortedTail<T>(s: seq<T>, le: (T, T) -> bool)
    requires s != [] && SortedBy(s, le)
    ensures SortedBy(s[1..], le)
  {
  }

  lemma SortedHeadIsLeast<T>(s: seq<T>, y: T, le: (T, T) -> bool)
    requires SortedBy(s, le) && y in multiset(s)
    ensures s[0] == y || le(s[0], y)
  {
    assert y in s;
    var i :| 0 <= i < |s| && s[i] == y;
    assert i == 0 || le(s[0], s[i]);
  }

  /** Sorting by a total order forgets the order of the input: permuted
      inputs sort to the same sequence. */
  lemma SortByPermutation<T(!new)>(p: seq<T>, q: seq<T>, le: (T, T) -> bool)
    requires TotalPreorder(le) && Antisymmetric(le)
    requires multiset(p) == multiset(q)
    ensures SortBy(p, le) == SortBy(q, le)
  {
    SortedUnique(SortBy(p, le), SortBy(q, le), le);
  }
}
