/**
  Strict orders, lexicographic comparison, and the meaning of a SQL
  "where ... order by ..." over a table held as a sequence of rows.
 */
module Order {

  /** An irreflexive and transitive relation. */
  ghost predicate StrictOrder<T(!new)>(before: (T, T) -> bool) {
    && (forall x :: !before(x, x))
    && (forall x, y, z :: before(x, y) && before(y, z) ==> before(x, z))
  }

  /** A strict order that also decides every pair of distinct values. */
  ghost predicate StrictTotal<T(!new)>(before: (T, T) -> bool) {
    && StrictOrder(before)
    && (forall x, y :: x != y ==> before(x, y) || before(y, x))
  }

  /** The order decides any two different positions of s. */
  ghost predicate Decides<T>(before: (T, T) -> bool, s: seq<T>) {
    forall i, j :: 0 <= i < j < |s| ==> before(s[i], s[j]) || before(s[j], s[i])
  }

  ghost predicate Sorted<T>(before: (T, T) -> bool, s: seq<T>) {
    forall i, j :: 0 <= i < j < |s| ==> before(s[i], s[j])
  }

  // ---------------------------------------------------------------- lexicographic order

  /** Lexicographic extension of lt; a proper prefix comes first. */
  predicate Lex<T(==)>(lt: (T, T) -> bool, a: seq<T>, b: seq<T>) {
    b != [] && (a == [] || lt(a[0], b[0]) || (a[0] == b[0] && Lex(lt, a[1..], b[1..])))
  }

  lemma {:induction false} LexIrreflexive<T(!new)>(lt: (T, T) -> bool, a: seq<T>)
    requires StrictTotal(lt)
    ensures !Lex(lt, a, a)
  {
    if a != [] {
      LexIrreflexive(lt, a[1..]);
    }
  }

  lemma {:induction false} LexTransitive<T(!new)>(lt: (T, T) -> bool, a: seq<T>, b: seq<T>, c: seq<T>)
    requires StrictTotal(lt)
    requires Lex(lt, a, b) && Lex(lt, b, c)
    ensures Lex(lt, a, c)
  {
    if a != [] && a[0] == b[0] && b[0] == c[0] {
      LexTransitive(lt, a[1..], b[1..], c[1..]);
    }
  }

  lemma {:induction false} LexDecides<T(!new)>(lt: (T, T) -> bool, a: seq<T>, b: seq<T>)
    requires StrictTotal(lt)
    requires a != b
    ensures Lex(lt, a, b) || Lex(lt, b, a)
  {
    if a != [] && b != [] && a[0] == b[0] {
      assert a == [a[0]] + a[1..] && b == [b[0]] + b[1..];
      LexDecides(lt, a[1..], b[1..]);
    }
  }

  /** A lexicographic order over a strict total order is itself strict and total. */
  lemma LexStrictTotal<T(!new)>(lt: (T, T) -> bool)
    requires StrictTotal(lt)
    ensures StrictTotal((a: seq<T>, b: seq<T>) => Lex(lt, a, b))
  {
    forall a: seq<T> ensures !Lex(lt, a, a) { LexIrreflexive(lt, a); }
    forall a: seq<T>, b: seq<T>, c: seq<T> | Lex(lt, a, b) && Lex(lt, b, c)
      ensures Lex(lt, a, c)
    {
      LexTransitive(lt, a, b, c);
    }
    forall a: seq<T>, b: seq<T> | a != b ensures Lex(lt, a, b) || Lex(lt, b, a) { LexDecides(lt, a, b); }
  }

  predicate CharBefore(x: char, y: char) { x < y }

  /** SQLite's BINARY collation on text. */
  predicate TextBefore(a: string, b: string) { Lex(CharBefore, a, b) }

  /** Where two sequences part: at a shared front behind which the first one ends or has the lesser element. */
  ghost predicate PartsAt<T>(lt: (T, T) -> bool, a: seq<T>, b: seq<T>, k: nat) {
    k <= |a| && k < |b| && a[..k] == b[..k] && (k == |a| || lt(a[k], b[k]))
  }

  lemma {:induction false} LexExactly<T>(lt: (T, T) -> bool, a: seq<T>, b: seq<T>)
    ensures Lex(lt, a, b) <==> exists k: nat :: PartsAt(lt, a, b, k)
  {
    if b != [] && (a == [] || lt(a[0], b[0])) {
      assert PartsAt(lt, a, b, 0);
    } else if a != [] && b != [] {
      LexExactly(lt, a[1..], b[1..]);
      if a[0] == b[0] {
        if k: nat :| PartsAt(lt, a[1..], b[1..], k) {
          assert a[..k + 1] == [a[0]] + a[1..][..k] && b[..k + 1] == [b[0]] + b[1..][..k];
          assert PartsAt(lt, a, b, k + 1);
        }
      }
      if k: nat :| PartsAt(lt, a, b, k) {
        assert k > 0 && a[..k][0] == b[..k][0];
        assert a[1..][..k - 1] == a[..k][1..] && b[1..][..k - 1] == b[..k][1..];
        assert PartsAt(lt, a[1..], b[1..], k - 1);
      }
    }
  }

  /** The order of texts: at the first difference the lesser character decides, and a front comes first. */
  lemma TextBeforeExactly(a: string, b: string)
    ensures TextBefore(a, b) <==>
            exists k: nat :: k <= |a| && k < |b| && a[..k] == b[..k] && (k == |a| || a[k] < b[k])
  {
    LexExactly(CharBefore, a, b);
    if k: nat :| PartsAt(CharBefore, a, b, k) {
      assert a[..k] == b[..k] && (k == |a| || a[k] < b[k]);
    }
    if k: nat :| k <= |a| && k < |b| && a[..k] == b[..k] && (k == |a| || a[k] < b[k]) {
      assert PartsAt(CharBefore, a, b, k);
    }
  }

  lemma TextStrictTotal()
    ensures StrictTotal(TextBefore)
  {
    var lex := (a: string, b: string) => Lex(CharBefore, a, b);
    LexStrictTotal(CharBefore);
    forall a: string ensures !TextBefore(a, a) { assert !lex(a, a); }
    forall a: string, b: string, c: string | TextBefore(a, b) && TextBefore(b, c) ensures TextBefore(a, c) {
      assert lex(a, b) && lex(b, c);
      assert lex(a, c);
    }
    forall a: string, b: string | a != b ensures TextBefore(a, b) || TextBefore(b, a) {
      assert lex(a, b) || lex(b, a);
    }
  }

  // ---------------------------------------------------------------- where

  /** The elements of s that satisfy p, in the order of s. */
  function Select<T>(p: T -> bool, s: seq<T>): seq<T> {
    if s == [] then [] else (if p(s[0]) then [s[0]] else []) + Select(p, s[1..])
  }

  lemma {:induction false} SelectConcat<T>(p: T -> bool, a: seq<T>, b: seq<T>)
    ensures Select(p, a + b) == Select(p, a) + Select(p, b)
  {
    if a == [] {
      assert a + b == b;
    } else {
      var head := if p(a[0]) then [a[0]] else [];
      assert (a + b)[0] == a[0] && (a + b)[1..] == a[1..] + b;
      SelectConcat(p, a[1..], b);
      ConcatAssociative(head, Select(p, a[1..]), Select(p, b));
    }
  }

  lemma Halves<T>(s: seq<T>, n: nat)
    requires n <= |s|
    ensures s[..n] + s[n..] == s
  {
  }

  lemma PrefixOfPrefix<T>(s: seq<T>, n: nat)
    requires n < |s|
    ensures s[..n + 1][..n] == s[..n] && s[..n + 1][n] == s[n]
  {
  }

  lemma ConcatAssociative<T>(a: seq<T>, b: seq<T>, c: seq<T>)
    ensures a + (b + c) == (a + b) + c
  {
  }

  lemma {:induction false} SelectCount<T>(p: T -> bool, s: seq<T>, x: T)
    ensures multiset(Select(p, s))[x] == if p(x) then multiset(s)[x] else 0
  {
    if s != [] {
      assert s == [s[0]] + s[1..];
      SelectCount(p, s[1..], x);
    }
  }

  lemma {:induction false} SelectAll<T>(p: T -> bool, s: seq<T>)
    requires forall x :: x in s ==> p(x)
    ensures Select(p, s) == s
  {
    if s != [] {
      SelectAll(p, s[1..]);
    }
  }

  lemma {:induction false} SelectNone<T>(p: T -> bool, s: seq<T>)
    requires forall x :: x in s ==> !p(x)
    ensures Select(p, s) == []
  {
    if s != [] {
      SelectNone(p, s[1..]);
    }
  }

  lemma {:induction false} SelectAgree<T>(p: T -> bool, q: T -> bool, s: seq<T>)
    requires forall x :: x in s ==> p(x) == q(x)
    ensures Select(p, s) == Select(q, s)
  {
    if s != [] {
      SelectAgree(p, q, s[1..]);
    }
  }

  lemma {:induction false} SelectSelect<T>(p: T -> bool, q: T -> bool, s: seq<T>)
    ensures Select(p, Select(q, s)) == Select(x => q(x) && p(x), s)
  {
    if s != [] {
      SelectSelect(p, q, s[1..]);
      SelectConcat(p, if q(s[0]) then [s[0]] else [], Select(q, s[1..]));
    }
  }

  /** The first k selected elements are the selection of some prefix that ends in the k-th of them. */
  lemma {:induction false} SelectTake<T>(p: T -> bool, s: seq<T>, k: nat) returns (j: nat)
    requires 0 < k <= |Select(p, s)|
    ensures 0 < j <= |s| && Select(p, s[..j]) == Select(p, s)[..k] && s[j - 1] == Select(p, s)[k - 1]
  {
    if p(s[0]) && k == 1 {
      j := 1;
      assert s[..1] == [s[0]];
    } else {
      var i := SelectTake(p, s[1..], if p(s[0]) then k - 1 else k);
      j := i + 1;
      assert s[..j] == [s[0]] + s[1..][..i];
      assert s[..j][1..] == s[1..][..i];
    }
  }

  lemma {:induction false} SelectBounds<T>(p: T -> bool, s: seq<T>)
    ensures |Select(p, s)| <= |s|
    ensures forall x :: x in Select(p, s) ==> x in s && p(x)
    ensures forall x :: x in s && p(x) ==> x in Select(p, s)
  {
    if s != [] {
      SelectBounds(p, s[1..]);
    }
  }

  lemma {:induction false} SelectSorted<T>(before: (T, T) -> bool, p: T -> bool, s: seq<T>)
    requires Sorted(before, s)
    ensures Sorted(before, Select(p, s))
  {
    if s != [] {
      SelectSorted(before, p, s[1..]);
      SelectBounds(p, s[1..]);
      var rest := Select(p, s[1..]);
      forall j | 0 <= j < |rest| ensures before(s[0], rest[j]) {
        assert rest[j] in rest && rest[j] in s[1..];
      }
    }
  }

  // ---------------------------------------------------------------- order by

  function Insert<T>(before: (T, T) -> bool, x: T, s: seq<T>): seq<T> {
    if s == [] then [x]
    else if before(x, s[0]) then [x] + s
    else [s[0]] + Insert(before, x, s[1..])
  }

  function SortBy<T>(before: (T, T) -> bool, s: seq<T>): seq<T> {
    if s == [] then [] else Insert(before, s[0], SortBy(before, s[1..]))
  }

  lemma {:induction false} InsertMultiset<T>(before: (T, T) -> bool, x: T, s: seq<T>)
    ensures multiset(Insert(before, x, s)) == multiset(s) + multiset{x}
  {
    if s != [] && !before(x, s[0]) {
      InsertMultiset(before, x, s[1..]);
      assert s == [s[0]] + s[1..];
    }
  }

  /** Sorting keeps every row, exactly as often as it occurs. */
  lemma {:induction false} SortMultiset<T>(before: (T, T) -> bool, s: seq<T>)
    ensures multiset(SortBy(before, s)) == multiset(s)
  {
    if s != [] {
      SortMultiset(before, s[1..]);
      InsertMultiset(before, s[0], SortBy(before, s[1..]));
      assert s == [s[0]] + s[1..];
    }
  }

  lemma SortMembers<T>(before: (T, T) -> bool, s: seq<T>)
    ensures |SortBy(before, s)| == |s|
    ensures forall x :: x in SortBy(before, s) ==> x in s
    ensures forall x :: x in s ==> x in SortBy(before, s)
  {
    SortMultiset(before, s);
    assert |multiset(SortBy(before, s))| == |multiset(s)|;
    forall x | x in SortBy(before, s) ensures x in s {
      assert x in multiset(SortBy(before, s));
    }
    forall x | x in s ensures x in SortBy(before, s) {
      assert x in multiset(s);
    }
  }

  lemma {:induction false} InsertSorted<T(!new)>(before: (T, T) -> bool, x: T, s: seq<T>)
    requires StrictOrder(before) && Sorted(before, s)
    requires forall y :: y in s ==> before(x, y) || before(y, x)
    ensures Sorted(before, Insert(before, x, s))
  {
    if s != [] && !before(x, s[0]) {
      InsertSorted(before, x, s[1..]);
      var rest := Insert(before, x, s[1..]);
      InsertMultiset(before, x, s[1..]);
      forall j | 0 <= j < |rest| ensures before(s[0], rest[j]) {
        assert rest[j] in multiset(rest);
        assert rest[j] in s[1..] || rest[j] == x;
      }
    }
  }

  lemma {:induction false} SortSorted<T(!new)>(before: (T, T) -> bool, s: seq<T>)
    requires StrictOrder(before) && Decides(before, s)
    ensures Sorted(before, SortBy(before, s))
  {
    if s != [] {
      SortSorted(before, s[1..]);
      SortMembers(before, s[1..]);
      InsertSorted(before, s[0], SortBy(before, s[1..]));
    }
  }

  lemma FirstOrLater<T>(before: (T, T) -> bool, s: seq<T>, x: T)
    requires Sorted(before, s) && x in s
    ensures s[0] == x || before(s[0], x)
  {
    var i :| 0 <= i < |s| && s[i] == x;
  }

  lemma SameFirst<T(!new)>(before: (T, T) -> bool, a: seq<T>, b: seq<T>)
    requires StrictOrder(before) && Sorted(before, a) && Sorted(before, b)
    requires a != [] && b != [] && a[0] in b && b[0] in a
    ensures a[0] == b[0]
  {
    FirstOrLater(before, a, b[0]);
    FirstOrLater(before, b, a[0]);
  }

  lemma TailMultiset<T>(s: seq<T>)
    requires s != []
    ensures multiset(s[1..]) == multiset(s) - multiset{s[0]}
  {
    assert s == [s[0]] + s[1..];
  }

  lemma TailSorted<T>(before: (T, T) -> bool, s: seq<T>)
    requires s != [] && Sorted(before, s)
    ensures Sorted(before, s[1..])
  {
  }

  /** A strictly sorted list is determined by its elements. */
  lemma {:induction false} SortedUnique<T(!new)>(before: (T, T) -> bool, a: seq<T>, b: seq<T>)
    requires StrictOrder(before) && Sorted(before, a) && Sorted(before, b)
    requires multiset(a) == multiset(b)
    ensures a == b
  {
    assert |a| == |multiset(a)| == |multiset(b)| == |b|;
    if a != [] {
      assert a[0] in multiset(b) && b[0] in multiset(a);
      SameFirst(before, a, b);
      TailMultiset(a);
      TailMultiset(b);
      TailSorted(before, a);
      TailSorted(before, b);
      SortedUnique(before, a[1..], b[1..]);
      assert a == [a[0]] + a[1..] && b == [b[0]] + b[1..];
    }
  }

  lemma {:induction false} SelectDecides<T>(before: (T, T) -> bool, p: T -> bool, s: seq<T>)
    requires Decides(before, s)
    ensures Decides(before, Select(p, s))
  {
    if s != [] {
      SelectDecides(before, p, s[1..]);
      SelectBounds(p, s[1..]);
      var rest := Select(p, s[1..]);
      forall j | 0 <= j < |rest| ensures before(s[0], rest[j]) || before(rest[j], s[0]) {
        assert rest[j] in rest && rest[j] in s[1..];
      }
    }
  }

  /** Filtering and sorting commute. */
  lemma SortSelect<T(!new)>(before: (T, T) -> bool, p: T -> bool, s: seq<T>)
    requires StrictOrder(before) && Decides(before, s)
    ensures SortBy(before, Select(p, s)) == Select(p, SortBy(before, s))
    ensures Sorted(before, SortBy(before, Select(p, s)))
  {
    SelectDecides(before, p, s);
    SortSorted(before, Select(p, s));
    SortSorted(before, s);
    SelectSorted(before, p, SortBy(before, s));
    SortMultiset(before, Select(p, s));
    SortMultiset(before, s);
    forall x ensures multiset(SortBy(before, Select(p, s)))[x] == multiset(Select(p, SortBy(before, s)))[x] {
      SelectCount(p, s, x);
      SelectCount(p, SortBy(before, s), x);
    }
    assert multiset(SortBy(before, Select(p, s))) == multiset(Select(p, SortBy(before, s)));
    SortedUnique(before, SortBy(before, Select(p, s)), Select(p, SortBy(before, s)));
  }

  lemma NotBeforeHead<T(!new)>(before: (T, T) -> bool, s: seq<T>, j: nat, x: T)
    requires StrictOrder(before) && Sorted(before, s) && j < |s| && x in s[..j + 1]
    ensures x in s && !before(s[j], x)
  {
    var i :| 0 <= i < j + 1 && s[..j + 1][i] == x;
    assert s[i] == x && (i < j ==> before(s[i], s[j]));
  }

  lemma BeforeTail<T>(before: (T, T) -> bool, s: seq<T>, j: nat, x: T)
    requires Sorted(before, s) && j < |s| && x in s[j + 1..]
    ensures x in s && before(s[j], x)
  {
    var i :| 0 <= i < |s[j + 1..]| && s[j + 1..][i] == x;
    assert s[j + 1 + i] == x;
  }

  /** In a sorted list the rows after position j are exactly those that s[j] precedes. */
  lemma SelectSuffix<T(!new)>(before: (T, T) -> bool, p: T -> bool, s: seq<T>, j: nat)
    requires StrictOrder(before) && Sorted(before, s) && j < |s|
    requires forall x :: x in s ==> (p(x) <==> before(s[j], x))
    ensures Select(p, s) == s[j + 1..]
  {
    forall x | x in s[..j + 1] ensures !p(x) {
      NotBeforeHead(before, s, j, x);
    }
    forall x | x in s[j + 1..] ensures p(x) {
      BeforeTail(before, s, j, x);
    }
    SelectParts(p, s[..j + 1], s[j + 1..]);
    assert s == s[..j + 1] + s[j + 1..];
  }

  lemma SelectParts<T>(p: T -> bool, none: seq<T>, all: seq<T>)
    requires forall x :: x in none ==> !p(x)
    requires forall x :: x in all ==> p(x)
    ensures Select(p, none + all) == all
  {
    SelectConcat(p, none, all);
    SelectNone(p, none);
    SelectAll(p, all);
  }

  /** A query whose where clause adds "strictly after the j-th row" returns the rows behind that row. */
  lemma ContinueAfter<T(!new)>(before: (T, T) -> bool, scope: T -> bool, next: T -> bool, s: seq<T>, j: nat)
    requires StrictOrder(before) && Decides(before, s)
    requires j < |SortBy(before, Select(scope, s))|
    requires forall r :: r in s ==> next(r) == (scope(r) && before(SortBy(before, Select(scope, s))[j], r))
    ensures SortBy(before, Select(next, s)) == SortBy(before, Select(scope, s))[j + 1..]
  {
    var found := Select(scope, s);
    var rem := SortBy(before, found);
    var behind := r => before(rem[j], r);
    SelectSelect(behind, scope, s);
    SelectAgree(next, r => scope(r) && behind(r), s);
    SelectDecides(before, scope, s);
    SortSelect(before, behind, found);
    SortSorted(before, found);
    SelectSuffix(before, behind, rem, j);
  }
}
