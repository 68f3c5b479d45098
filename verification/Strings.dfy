/** Python string order, `sorted` and `sorted(set(...))`. */
module Strings {

  /** `str.__lt__`. */
  predicate Before(a: string, b: string) {
    b != [] && (a == [] || a[0] < b[0] || (a[0] == b[0] && Before(a[1..], b[1..])))
  }

  function InsertSorted(x: string, s: seq<string>): seq<string> {
    if s == [] then [x] else if Before(s[0], x) then [s[0]] + InsertSorted(x, s[1..]) else [x] + s
  }

  function Sorted(s: seq<string>): seq<string> {
    if s == [] then [] else InsertSorted(s[0], Sorted(s[1..]))
  }

  lemma {:induction false} BeforeIsIrreflexive(a: string)
    ensures !Before(a, a)
  {
    if a != [] { BeforeIsIrreflexive(a[1..]); }
  }

  lemma {:induction false} BeforeIsTransitive(a: string, b: string, c: string)
    requires Before(a, b) && Before(b, c)
    ensures Before(a, c)
  {
    if a != [] && a[0] == b[0] == c[0] { BeforeIsTransitive(a[1..], b[1..], c[1..]); }
  }

  lemma {:induction false} BeforeIsTotal(a: string, b: string)
    ensures Before(a, b) || Before(b, a) || a == b
  {
    if a != [] && b != [] && a[0] == b[0] {
      BeforeIsTotal(a[1..], b[1..]);
      assert a == [a[0]] + a[1..] && b == [b[0]] + b[1..];
    }
  }

  /** `sorted`: the same strings, none before an earlier one. */
  lemma {:induction false} SortedSorts(s: seq<string>)
    ensures multiset(Sorted(s)) == multiset(s) && InOrder(Sorted(s))
  {
    if s != [] {
      SortedSorts(s[1..]);
      InsertSortedKeeps(s[0], Sorted(s[1..]));
      assert s == [s[0]] + s[1..];
    }
  }

  predicate InOrder(s: seq<string>) {
    forall i, j :: 0 <= i < j < |s| ==> !Before(s[j], s[i])
  }

  lemma {:induction false} InsertSortedKeeps(x: string, s: seq<string>)
    requires InOrder(s)
    ensures multiset(InsertSorted(x, s)) == multiset(s) + multiset{x} && InOrder(InsertSorted(x, s))
  {
    hide Before;
    if s == [] {
      assert multiset([x]) == multiset{x};
    } else {
      var head, rest := s[0], s[1..];
      assert s == [head] + rest;
      ConsInOrder(head, rest);
      if Before(head, x) {
        InsertSortedKeeps(x, rest);
        var t := InsertSorted(x, rest);
        forall y | y in t ensures !Before(y, head) {
          assert y in multiset(t);
          NoneBefore(head, x, rest, y);
        }
        ConsInOrder(head, t);
      } else {
        forall y | y in s ensures !Before(y, x) {
          var j :| 0 <= j < |s| && s[j] == y;
          if Before(s[j], x) { AfterHead(s, j, x); }
        }
        ConsInOrder(x, s);
      }
    }
  }

  lemma ConsInOrder(head: string, rest: seq<string>)
    ensures InOrder([head] + rest) <==> InOrder(rest) && forall y :: y in rest ==> !Before(y, head)
  {
    hide Before;
    var s := [head] + rest;
    assert forall i :: 0 <= i < |rest| ==> s[i + 1] == rest[i];
    if InOrder(s) {
      forall y | y in rest ensures !Before(y, head) {
        var j :| 0 <= j < |rest| && rest[j] == y;
        assert !Before(s[j + 1], s[0]);
      }
      forall i, j | 0 <= i < j < |rest| ensures !Before(rest[j], rest[i]) { assert !Before(s[j + 1], s[i + 1]); }
    }
    if InOrder(rest) && forall y :: y in rest ==> !Before(y, head) {
      forall i, j | 0 <= i < j < |s| ensures !Before(s[j], s[i]) { if i == 0 { assert s[j] in rest; } }
    }
  }

  lemma NoneBefore(head: string, x: string, rest: seq<string>, y: string)
    requires Before(head, x) && InOrder([head] + rest) && (y == x || y in rest)
    ensures !Before(y, head)
  {
    hide Before;
    ConsInOrder(head, rest);
    BeforeIsIrreflexive(x);
    if y == x && Before(x, head) { BeforeIsTransitive(x, head, x); }
  }

  lemma AfterHead(s: seq<string>, j: nat, x: string)
    requires InOrder(s) && j < |s| && Before(s[j], x)
    ensures Before(s[0], x)
  {
    if j > 0 {
      BeforeIsTotal(s[0], s[j]);
      if s[0] != s[j] { BeforeIsTransitive(s[0], s[j], x); }
    }
  }

  // ---- sorted(set(...))

  function InsertNew(x: string, s: seq<string>): seq<string> {
    if s == [] then [x]
    else if s[0] == x then s
    else if Before(s[0], x) then [s[0]] + InsertNew(x, s[1..])
    else [x] + s
  }

  function SortedSet(s: seq<string>): seq<string> {
    if s == [] then [] else InsertNew(s[0], SortedSet(s[1..]))
  }

  predicate Ascending(s: seq<string>) {
    |s| <= 1 || (Before(s[0], s[1]) && Ascending(s[1..]))
  }

  lemma {:induction false} AscendingHead(s: seq<string>, x: string)
    requires s != [] && Ascending(s) && x in s[1..]
    ensures Before(s[0], x)
  {
    if x != s[1] {
      assert s[1..] == [s[1]] + s[1..][1..];
      AscendingHead(s[1..], x);
      BeforeIsTransitive(s[0], s[1], x);
    }
  }

  lemma {:induction false} InsertNewKeeps(x: string, s: seq<string>)
    requires Ascending(s)
    ensures Ascending(InsertNew(x, s))
    ensures forall y :: y in InsertNew(x, s) <==> y == x || y in s
  {
    if s != [] && s[0] != x {
      BeforeIsTotal(s[0], x);
      if Before(s[0], x) {
        InsertNewKeeps(x, s[1..]);
        InsertNewHead(x, s[1..]);
        assert s == [s[0]] + s[1..];
        assert ([s[0]] + InsertNew(x, s[1..]))[1..] == InsertNew(x, s[1..]);
      } else {
        assert ([x] + s)[1..] == s;
      }
    }
  }

  lemma InsertNewHead(x: string, s: seq<string>)
    ensures InsertNew(x, s) != [] && (InsertNew(x, s)[0] == x || (s != [] && InsertNew(x, s)[0] == s[0]))
  {
  }

  lemma {:induction false} SortedSetHolds(s: seq<string>)
    ensures Ascending(SortedSet(s))
    ensures forall y :: y in SortedSet(s) <==> y in s
  {
    if s != [] {
      SortedSetHolds(s[1..]);
      InsertNewKeeps(s[0], SortedSet(s[1..]));
      assert s == [s[0]] + s[1..];
    }
  }

  lemma {:induction false} AscendingIsUnique(s: seq<string>, t: seq<string>)
    requires Ascending(s) && Ascending(t) && forall y :: y in s <==> y in t
    ensures s == t
  {
    assert t != [] ==> t[0] in t;
    if s != [] {
      assert s[0] in t && t != [];
      assert t[0] in s;
      HeadsAgree(s, t);
      assert s == [s[0]] + s[1..] && t == [t[0]] + t[1..];
      TailsAgree(s, t);
      AscendingIsUnique(s[1..], t[1..]);
    }
  }

  lemma HeadsAgree(s: seq<string>, t: seq<string>)
    requires s != [] && t != [] && Ascending(s) && Ascending(t) && s[0] in t && t[0] in s
    ensures s[0] == t[0]
  {
    assert s == [s[0]] + s[1..] && t == [t[0]] + t[1..];
    if s[0] != t[0] {
      AscendingHead(t, s[0]);
      AscendingHead(s, t[0]);
      BeforeIsTransitive(s[0], t[0], s[0]);
      BeforeIsIrreflexive(s[0]);
    }
  }

  lemma TailsAgree(s: seq<string>, t: seq<string>)
    requires s != [] && t != [] && Ascending(s) && Ascending(t) && s[0] == t[0] && forall y :: y in s <==> y in t
    ensures forall y :: y in s[1..] <==> y in t[1..]
  {
    BeforeIsIrreflexive(s[0]);
    assert s == [s[0]] + s[1..] && t == [t[0]] + t[1..];
    forall y ensures y in s[1..] <==> y in t[1..] {
      if y in s[1..] { AscendingHead(s, y); assert y in t && y != t[0]; }
      if y in t[1..] { AscendingHead(t, y); assert y in s && y != s[0]; }
    }
  }

  /** `sorted(set(...))` depends on the set alone, and determines it. */
  lemma SortedSetIsCanonical(s: seq<string>, t: seq<string>)
    ensures SortedSet(s) == SortedSet(t) <==> forall y :: y in s <==> y in t
  {
    SortedSetHolds(s);
    SortedSetHolds(t);
    if forall y :: y in s <==> y in t { AscendingIsUnique(SortedSet(s), SortedSet(t)); }
  }
}
