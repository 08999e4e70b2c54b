/**
  The uncapped selection toggle shared by the repository page and the
  dashboard: a selected path is removed (every occurrence), any other path
  is appended at the end.
*/
module Selection {

  /** No path occurs twice. */
  ghost predicate NoDuplicates(s: seq<string>) {
    forall y :: multiset(s)[y] <= 1
  }

  /** `s.filter(f => f !== x)`. */
  function Without(s: seq<string>, x: string): (r: seq<string>)
    ensures forall y :: y in r <==> y in s && y != x
    ensures forall y :: y != x ==> multiset(r)[y] == multiset(s)[y]
    ensures x !in s ==> r == s
    ensures |r| <= |s|
  {
    if s == [] then []
    else
      var init := s[..|s| - 1];
      assert s == init + [s[|s| - 1]];
      if s[|s| - 1] == x then Without(init, x) else Without(init, x) + [s[|s| - 1]]
  }

  /** The last element is dropped when it is `x` and kept otherwise. */
  lemma WithoutLast(s: seq<string>, x: string)
    requires s != []
    ensures Without(s, x) == Without(s[..|s| - 1], x) + (if s[|s| - 1] == x then [] else [s[|s| - 1]])
  {
  }

  /** The filter keeps order and repeats: it distributes over concatenation. */
  lemma {:induction false} WithoutAppend(a: seq<string>, b: seq<string>, x: string)
    ensures Without(a + b, x) == Without(a, x) + Without(b, x)
    decreases |b|
  {
    if b == [] {
      assert a + b == a;
    } else {
      var n := |b| - 1;
      var last := if b[n] == x then [] else [b[n]];
      var u, v := Without(a, x), Without(b[..n], x);
      assert (a + b)[..|a + b| - 1] == a + b[..n] && (a + b)[|a + b| - 1] == b[n];
      calc {
        Without(a + b, x);
        { WithoutLast(a + b, x); }
        Without(a + b[..n], x) + last;
        { WithoutAppend(a, b[..n], x); }
        (u + v) + last;
        u + (v + last);
        { WithoutLast(b, x); }
        u + Without(b, x);
      }
    }
  }

  /** A single element is dropped exactly when it is `x`. */
  lemma WithoutSingle(y: string, x: string)
    ensures Without([y], x) == if y == x then [] else [y]
  {
    assert [y][..0] == [];
  }

  /** Removing a path that occurs once shortens the list by one. */
  lemma WithoutOnce(s: seq<string>, x: string)
    ensures NoDuplicates(s) && x in s ==> |Without(s, x)| == |s| - 1
  {
    if NoDuplicates(s) && x in s {
      var r := Without(s, x);
      assert multiset(s) == multiset(r) + multiset{x};
    }
  }

  /** The toggle of the repository page and the dashboard. */
  function Toggle(s: seq<string>, path: string): (r: seq<string>)
    ensures path in s ==> path !in r && forall y :: y != path ==> (y in r <==> y in s)
    ensures path in s ==> r == Without(s, path)
    ensures path !in s ==> r == s + [path]
    ensures NoDuplicates(s) ==> NoDuplicates(r)
    ensures NoDuplicates(s) ==> |r| == if path in s then |s| - 1 else |s| + 1
  {
    if path in s then WithoutOnce(s, path); Without(s, path)
    else s + [path]
  }

  /** Toggling an unselected path twice gives the selection back. */
  lemma ToggleTwice(s: seq<string>, path: string)
    requires path !in s
    ensures Toggle(Toggle(s, path), path) == s
  {
    var t := s + [path];
    assert t[..|t| - 1] == s;
  }
}
