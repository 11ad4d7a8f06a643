/** Rows of an append-only table: selecting, taking the newest, counting. */
module Tables {

  /** SELECT f(row) WHERE p(row), in row order. */
  function Pick<T, U>(p: T -> bool, f: T -> U, rows: seq<T>): seq<U> {
    if |rows| == 0 then [] else
      var n := |rows| - 1;
      Pick(p, f, rows[..n]) + if p(rows[n]) then [f(rows[n])] else []
  }

  lemma PickAppend<T, U>(p: T -> bool, f: T -> U, rows: seq<T>, row: T)
    ensures Pick(p, f, rows + [row]) == Pick(p, f, rows) + if p(row) then [f(row)] else []
  {
    assert (rows + [row])[..|rows|] == rows;
  }

  lemma {:induction false} PickConcat<T, U>(p: T -> bool, f: T -> U, xs: seq<T>, ys: seq<T>)
    ensures Pick(p, f, xs + ys) == Pick(p, f, xs) + Pick(p, f, ys)
    decreases |ys|
  {
    if ys == [] {
      assert xs + ys == xs;
    } else {
      var n := |ys| - 1;
      PickConcat(p, f, xs, ys[..n]);
      assert xs + ys == (xs + ys[..n]) + [ys[n]];
      PickAppend(p, f, xs + ys[..n], ys[n]);
    }
  }

  /** Tables that agree row by row on what a query looks at give the same answer. */
  lemma {:induction false} PickAgrees<S, T, U>(p: S -> bool, f: S -> U, xs: seq<S>, q: T -> bool, g: T -> U,
      ys: seq<T>)
    requires |xs| == |ys|
    requires forall i :: 0 <= i < |xs| ==> p(xs[i]) == q(ys[i]) && (p(xs[i]) ==> f(xs[i]) == g(ys[i]))
    ensures Pick(p, f, xs) == Pick(q, g, ys)
    decreases |xs|
  {
    if |xs| > 0 {
      PickAgrees(p, f, xs[..|xs| - 1], q, g, ys[..|ys| - 1]);
    }
  }

  lemma {:induction false} PickNone<T, U>(p: T -> bool, f: T -> U, rows: seq<T>)
    requires forall i :: 0 <= i < |rows| ==> !p(rows[i])
    ensures Pick(p, f, rows) == []
    decreases |rows|
  {
    if |rows| > 0 {
      PickNone(p, f, rows[..|rows| - 1]);
    }
  }

  lemma {:induction false} PickAll<T, U>(p: T -> bool, f: T -> U, rows: seq<T>)
    requires forall i :: 0 <= i < |rows| ==> p(rows[i])
    ensures |Pick(p, f, rows)| == |rows|
    ensures forall i :: 0 <= i < |rows| ==> Pick(p, f, rows)[i] == f(rows[i])
    decreases |rows|
  {
    if |rows| > 0 {
      PickAll(p, f, rows[..|rows| - 1]);
    }
  }

  /** These are the places, in order, of the rows that fit. */
  ghost predicate Places<T>(fits: T -> bool, rows: seq<T>, at: seq<int>) {
    && (forall j, k :: 0 <= j < k < |at| ==> at[j] < at[k])
    && (forall i :: i in at <==> 0 <= i < |rows| && fits(rows[i]))
  }

  /** A list or page shows the rows at these places. */
  ghost predicate Shows<T, U>(f: T -> U, rows: seq<T>, at: seq<int>, shown: seq<U>) {
    |shown| == |at| && forall j :: 0 <= j < |at| ==> 0 <= at[j] < |rows| && shown[j] == f(rows[at[j]])
  }

  lemma PlacesAlike<T>(p: T -> bool, q: T -> bool, rows: seq<T>, at: seq<int>)
    requires Places(p, rows, at) && forall i :: 0 <= i < |rows| ==> p(rows[i]) == q(rows[i])
    ensures Places(q, rows, at)
  {
  }

  lemma {:induction false} OneMorePlace<T>(fits: T -> bool, rows: seq<T>, rest: seq<int>, at: seq<int>)
    requires |rows| > 0 && Places(fits, rows[..|rows| - 1], rest)
    requires at == rest + if fits(rows[|rows| - 1]) then [|rows| - 1] else []
    ensures Places(fits, rows, at)
  {
    var n := |rows| - 1;
    assert forall i :: i in at <==> i in rest || (i == n && fits(rows[n]));
    assert forall j :: 0 <= j < |rest| ==> rest[j] in rest;
    assert forall i :: 0 <= i < n ==> rows[..n][i] == rows[i];
  }

  lemma {:induction false} PickPlaces<T, U>(p: T -> bool, f: T -> U, rows: seq<T>) returns (at: seq<int>)
    ensures Places(p, rows, at) && Shows(f, rows, at, Pick(p, f, rows))
    decreases |rows|
  {
    at := [];
    if |rows| > 0 {
      var rest := PickPlaces(p, f, rows[..|rows| - 1]);
      at := rest + if p(rows[|rows| - 1]) then [|rows| - 1] else [];
      OneMorePlace(p, rows, rest, at);
    }
  }

  /** Every answer comes from a matching row. */
  lemma {:induction false} PickSound<T, U>(p: T -> bool, f: T -> U, rows: seq<T>, u: U)
    requires u in Pick(p, f, rows)
    ensures exists row :: row in rows && p(row) && f(row) == u
    decreases |rows|
  {
    var n := |rows| - 1;
    if p(rows[n]) && f(rows[n]) == u {
      assert rows[n] in rows;
    } else {
      PickSound(p, f, rows[..n], u);
    }
  }

  /** Some answer has a property exactly when some matching row gives one that has it. */
  lemma {:induction false} PickHas<T, U>(p: T -> bool, f: T -> U, rows: seq<T>, bad: U -> bool)
    ensures (exists j :: 0 <= j < |Pick(p, f, rows)| && bad(Pick(p, f, rows)[j]))
      <==> (exists i :: 0 <= i < |rows| && p(rows[i]) && bad(f(rows[i])))
    decreases |rows|
  {
    if |rows| > 0 {
      var n, all := |rows| - 1, Pick(p, f, rows);
      PickHas(p, f, rows[..n], bad);
      if j :| 0 <= j < |all| && bad(all[j]) {
        if j < |Pick(p, f, rows[..n])| {
          assert Pick(p, f, rows[..n])[j] == all[j];
          var i :| 0 <= i < n && p(rows[..n][i]) && bad(f(rows[..n][i]));
          assert p(rows[i]) && bad(f(rows[i]));
        } else {
          assert p(rows[n]) && bad(f(rows[n]));
        }
      }
      if i :| 0 <= i < |rows| && p(rows[i]) && bad(f(rows[i])) {
        if i < n {
          assert p(rows[..n][i]) && bad(f(rows[..n][i]));
          var j :| 0 <= j < |Pick(p, f, rows[..n])| && bad(Pick(p, f, rows[..n])[j]);
          assert all[j] == Pick(p, f, rows[..n])[j];
        } else {
          assert all[|all| - 1] == f(rows[n]);
        }
      }
    }
  }

  lemma {:induction false} PickNonEmpty<T, U>(p: T -> bool, f: T -> U, rows: seq<T>)
    ensures Pick(p, f, rows) != [] <==> exists i :: 0 <= i < |rows| && p(rows[i])
  {
    PickHas(p, f, rows, (u: U) => true);
    if Pick(p, f, rows) != [] {
      assert ((u: U) => true)(Pick(p, f, rows)[0]);
    }
    if i :| 0 <= i < |rows| && p(rows[i]) {
      assert ((u: U) => true)(f(rows[i]));
    }
  }

  /** ORDER BY id DESC. */
  function Reversed<T>(rows: seq<T>): (r: seq<T>)
    ensures |r| == |rows|
    ensures forall i :: 0 <= i < |rows| ==> r[i] == rows[|rows| - 1 - i]
  {
    seq(|rows|, i requires 0 <= i < |rows| => rows[|rows| - 1 - i])
  }

  /** The limit the stores use: a positive one as given, otherwise 100. */
  function Limit(limit: int): nat {
    if limit <= 0 then 100 else limit
  }

  /** LIMIT n. */
  function First<T>(rows: seq<T>, n: nat): seq<T> {
    if |rows| <= n then rows else rows[..n]
  }

  /** The answers to a query that walks back from the newest row and stops after n. */
  function Newest<T, U>(p: T -> bool, f: T -> U, rows: seq<T>, n: nat): seq<U> {
    if |rows| == 0 || n == 0 then [] else
      var m := |rows| - 1;
      if p(rows[m]) then [f(rows[m])] + Newest(p, f, rows[..m], n - 1) else Newest(p, f, rows[..m], n)
  }

  lemma FirstOfMore<U>(s: seq<U>, u: U, n: nat)
    requires n > 0
    ensures First([u] + s, n) == [u] + First(s, n - 1)
  {
  }

  /** One more matching row: it comes first on the page. */
  lemma PageOfMore<U>(earlier: seq<U>, u: U, n: nat)
    requires n > 0
    ensures First(Reversed(earlier + [u]), n) == [u] + First(Reversed(earlier), n - 1)
  {
    ReversedAppend(earlier, u);
    FirstOfMore(Reversed(earlier), u, n);
  }

  /** Walking back gives the first n of all answers, newest first. */
  lemma {:induction false} NewestIsFirstReversed<T, U>(p: T -> bool, f: T -> U, rows: seq<T>, n: nat)
    ensures Newest(p, f, rows, n) == First(Reversed(Pick(p, f, rows)), n)
    decreases |rows|
  {
    if |rows| > 0 && n > 0 {
      var rest, row := rows[..|rows| - 1], rows[|rows| - 1];
      if p(row) {
        NewestIsFirstReversed(p, f, rest, n - 1);
        PageOfMore(Pick(p, f, rest), f(row), n);
      } else {
        NewestIsFirstReversed(p, f, rest, n);
        assert Pick(p, f, rows) == Pick(p, f, rest);
      }
    }
  }

  /** One more matching row: the page starts with it and loses its last place. */
  lemma {:induction false} PageGains<T, U>(p: T -> bool, f: T -> U, rows: seq<T>, row: T, n: nat)
    requires n > 0
    ensures var was, page := First(Reversed(Pick(p, f, rows)), n), First(Reversed(Pick(p, f, rows + [row])), n);
      if p(row) then |page| > 0 && page[0] == f(row) && page[1..] == First(was, n - 1) else page == was
  {
    PickAppend(p, f, rows, row);
    if p(row) {
      PageOfMore(Pick(p, f, rows), f(row), n);
    }
  }

  /** These places, newest first, are those of the newest n rows that fit: no row is out of order,
      and one that fits is left out only when the page is full of newer ones. */
  ghost predicate NewestFitting<T>(fits: T -> bool, rows: seq<T>, n: nat, at: seq<int>) {
    && |at| <= n
    && (forall j :: 0 <= j < |at| ==> 0 <= at[j] < |rows| && fits(rows[at[j]]))
    && (forall j, k :: 0 <= j < k < |at| ==> at[k] < at[j])
    && (forall i :: 0 <= i < |rows| && fits(rows[i]) && i !in at ==> PageIsFull(at, n, i))
  }

  /** The page is full of rows newer than row i. */
  ghost predicate PageIsFull(at: seq<int>, n: nat, i: int) {
    |at| == n && forall j :: 0 <= j < |at| ==> i < at[j]
  }

  lemma {:induction false} FittingSkips<T>(fits: T -> bool, rows: seq<T>, n: nat, at: seq<int>)
    requires |rows| > 0 && !fits(rows[|rows| - 1]) && NewestFitting(fits, rows[..|rows| - 1], n, at)
    ensures NewestFitting(fits, rows, n, at)
  {
    forall i | 0 <= i < |rows| && fits(rows[i]) && i !in at ensures PageIsFull(at, n, i) {
      assert rows[..|rows| - 1][i] == rows[i];
    }
  }

  lemma {:induction false} FittingGains<T>(fits: T -> bool, rows: seq<T>, n: nat, rest: seq<int>)
    requires n > 0 && |rows| > 0 && fits(rows[|rows| - 1]) && NewestFitting(fits, rows[..|rows| - 1], n - 1, rest)
    ensures NewestFitting(fits, rows, n, [|rows| - 1] + rest)
  {
    var at := [|rows| - 1] + rest;
    forall i | 0 <= i < |rows| && fits(rows[i]) && i !in at ensures PageIsFull(at, n, i) {
      assert i != |rows| - 1 && i !in rest by {
        assert at[0] == |rows| - 1;
        assert forall j :: 0 <= j < |rest| ==> at[j + 1] == rest[j];
      }
      assert rows[..|rows| - 1][i] == rows[i];
      assert PageIsFull(rest, n - 1, i);
    }
  }

  lemma ShowsAlso<T, U>(f: T -> U, rows: seq<T>, m: nat, at: seq<int>, shown: seq<U>)
    requires m <= |rows| && Shows(f, rows[..m], at, shown)
    ensures Shows(f, rows, at, shown)
    ensures m < |rows| ==> Shows(f, rows, [m] + at, [f(rows[m])] + shown)
  {
  }

  lemma {:induction false} NewestIsFitting<T, U>(p: T -> bool, f: T -> U, rows: seq<T>, n: nat) returns (at: seq<int>)
    ensures NewestFitting(p, rows, n, at) && Shows(f, rows, at, Newest(p, f, rows, n))
    decreases |rows|
  {
    if |rows| == 0 || n == 0 {
      return [];
    }
    var m := |rows| - 1;
    var left := if p(rows[m]) then n - 1 else n;
    var rest := NewestIsFitting(p, f, rows[..m], left);
    ShowsAlso(f, rows, m, rest, Newest(p, f, rows[..m], left));
    if p(rows[m]) {
      FittingGains(p, rows, n, rest);
      at := [m] + rest;
    } else {
      FittingSkips(p, rows, n, rest);
      at := rest;
    }
  }

  /** A page is the newest n fitting rows, newest first. */
  lemma {:induction false} PageIsFitting<T, U>(p: T -> bool, f: T -> U, rows: seq<T>, n: nat) returns (at: seq<int>)
    ensures NewestFitting(p, rows, n, at) && Shows(f, rows, at, First(Reversed(Pick(p, f, rows)), n))
  {
    NewestIsFirstReversed(p, f, rows, n);
    at := NewestIsFitting(p, f, rows, n);
  }

  lemma ReversedAppend<U>(s: seq<U>, u: U)
    ensures Reversed(s + [u]) == [u] + Reversed(s)
  {
  }

  lemma ReversedConcat<U>(xs: seq<U>, ys: seq<U>)
    ensures Reversed(xs + ys) == Reversed(ys) + Reversed(xs)
  {
  }

  /** All answers, newest first, around the place of one row. */
  lemma {:induction false} PickAround<T, U>(p: T -> bool, f: T -> U, older: seq<T>, row: T, newer: seq<T>)
    ensures Reversed(Pick(p, f, older + [row] + newer)) ==
      Reversed(Pick(p, f, newer)) + (if p(row) then [f(row)] else []) + Reversed(Pick(p, f, older))
  {
    PickConcat(p, f, older + [row], newer);
    PickAppend(p, f, older, row);
    ReversedConcat(Pick(p, f, older + [row]), Pick(p, f, newer));
    if p(row) {
      ReversedAppend(Pick(p, f, older), f(row));
    }
  }

  /** SELECT ... WHERE p ORDER BY id DESC LIMIT n, read row by row into a slice. */
  method Fetch<T, U>(p: T -> bool, f: T -> U, rows: seq<T>, n: nat) returns (out: seq<U>)
    ensures out == First(Reversed(Pick(p, f, rows)), n)
  {
    out := [];
    var i := |rows|;
    assert rows[..i] == rows;
    while i > 0 && |out| < n
      invariant 0 <= i <= |rows| && |out| <= n
      invariant out + Newest(p, f, rows[..i], n - |out|) == Newest(p, f, rows, n)
    {
      assert rows[..i][..i - 1] == rows[..i - 1];
      i := i - 1;
      if p(rows[i]) {
        out := out + [f(rows[i])];
      }
    }
    NewestIsFirstReversed(p, f, rows, n);
  }

  function Mapped<T, U>(f: T -> U, s: seq<T>): (r: seq<U>)
    ensures |r| == |s|
  {
    seq(|s|, i requires 0 <= i < |s| => f(s[i]))
  }

  /** SELECT COUNT(*) WHERE p. */
  function CountIf<T>(p: T -> bool, rows: seq<T>): nat {
    if |rows| == 0 then 0 else
      CountIf(p, rows[..|rows| - 1]) + if p(rows[|rows| - 1]) then 1 else 0
  }

  lemma {:induction false} CountNone<T>(p: T -> bool, rows: seq<T>)
    requires forall i :: 0 <= i < |rows| ==> !p(rows[i])
    ensures CountIf(p, rows) == 0
    decreases |rows|
  {
    if |rows| > 0 {
      CountNone(p, rows[..|rows| - 1]);
    }
  }

  lemma {:induction false} CountOne<T>(p: T -> bool, rows: seq<T>, at: nat)
    requires at < |rows| && p(rows[at])
    requires forall i :: 0 <= i < |rows| && p(rows[i]) ==> i == at
    ensures CountIf(p, rows) == 1
    decreases |rows|
  {
    var n := |rows| - 1;
    if at == n {
      CountNone(p, rows[..n]);
    } else {
      CountOne(p, rows[..n], at);
    }
  }

  lemma {:induction false} CountPositive<T>(p: T -> bool, rows: seq<T>)
    ensures CountIf(p, rows) > 0 <==> exists i :: 0 <= i < |rows| && p(rows[i])
    decreases |rows|
  {
    if |rows| > 0 {
      var n := |rows| - 1;
      CountPositive(p, rows[..n]);
      assert forall i :: 0 <= i < n ==> rows[..n][i] == rows[i];
    }
  }

  /** SELECT COUNT(*) WHERE p, counted row by row. */
  method CountRows<T>(p: T -> bool, rows: seq<T>) returns (n: nat)
    ensures n == CountIf(p, rows)
  {
    n := 0;
    var i := 0;
    while i < |rows|
      invariant 0 <= i <= |rows| && n == CountIf(p, rows[..i])
    {
      CountAppend(p, rows[..i], rows[i]);
      assert rows[..i + 1] == rows[..i] + [rows[i]];
      if p(rows[i]) {
        n := n + 1;
      }
      i := i + 1;
    }
    assert rows[..i] == rows;
  }

  lemma CountAppend<T>(p: T -> bool, rows: seq<T>, row: T)
    ensures CountIf(p, rows + [row]) == CountIf(p, rows) + if p(row) then 1 else 0
  {
    assert (rows + [row])[..|rows|] == rows;
  }

  lemma {:induction false} CountAgrees<T>(p: T -> bool, xs: seq<T>, ys: seq<T>)
    requires |xs| == |ys| && forall i :: 0 <= i < |xs| ==> p(xs[i]) == p(ys[i])
    ensures CountIf(p, xs) == CountIf(p, ys)
    decreases |xs|
  {
    if |xs| > 0 {
      CountAgrees(p, xs[..|xs| - 1], ys[..|ys| - 1]);
    }
  }

  lemma {:induction false} CountAlike<T>(p: T -> bool, q: T -> bool, rows: seq<T>)
    requires forall row :: p(row) == q(row)
    ensures CountIf(p, rows) == CountIf(q, rows)
    decreases |rows|
  {
    if |rows| > 0 {
      CountAlike(p, q, rows[..|rows| - 1]);
    }
  }

  lemma {:induction false} CountIsPick<T, U>(p: T -> bool, f: T -> U, rows: seq<T>)
    ensures CountIf(p, rows) == |Pick(p, f, rows)|
    decreases |rows|
  {
    if |rows| > 0 {
      CountIsPick(p, f, rows[..|rows| - 1]);
    }
  }
}
