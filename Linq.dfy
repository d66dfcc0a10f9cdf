/**
 * The shape of a LINQ `Where`/`Select` query over a sequence: each element either yields one
 * value or nothing, and the values come out in element order.
 */
module Linq {
  import opened Wrappers

  /** `from x in xs where pick(x) is not None select pick(x).value`. */
  function Choose<T, U>(xs: seq<T>, pick: T -> Option<U>): (ys: seq<U>)
    ensures |ys| <= |xs|
  {
    if xs == [] then []
    else (match pick(xs[0]) case Some(y) => [y] case None => []) + Choose(xs[1..], pick)
  }

  /** Element `i` is the only one that yields a value. */
  predicate OnlyPicked<T, U>(xs: seq<T>, pick: T -> Option<U>, i: int) {
    0 <= i < |xs| && pick(xs[i]).Some?
    && forall j :: 0 <= j < |xs| && pick(xs[j]).Some? ==> j == i
  }

  /** A query over two blocks is the two queries' results, in the same order. */
  lemma {:induction false} ChooseAppend<T, U>(a: seq<T>, b: seq<T>, pick: T -> Option<U>)
    ensures Choose(a + b, pick) == Choose(a, pick) + Choose(b, pick)
  {
    if a == [] {
      assert a + b == b;
    } else {
      assert (a + b)[1..] == a[1..] + b;
      ChooseAppend(a[1..], b, pick);
    }
  }

  /** A value is in the result exactly when some element yields it. */
  lemma {:induction false} ChooseMembership<T, U>(xs: seq<T>, pick: T -> Option<U>, y: U)
    ensures y in Choose(xs, pick) <==> exists i :: 0 <= i < |xs| && pick(xs[i]) == Some(y)
  {
    if xs != [] {
      ChooseMembership(xs[1..], pick, y);
      if y in Choose(xs[1..], pick) {
        var i :| 0 <= i < |xs[1..]| && pick(xs[1..][i]) == Some(y);
        assert xs[i + 1] == xs[1..][i];
      }
      if exists i :: 0 <= i < |xs| && pick(xs[i]) == Some(y) {
        var i :| 0 <= i < |xs| && pick(xs[i]) == Some(y);
        if i > 0 {
          assert xs[1..][i - 1] == xs[i];
        }
      }
    }
  }

  /** The result is empty exactly when no element yields a value. */
  lemma {:induction false} ChooseEmpty<T, U>(xs: seq<T>, pick: T -> Option<U>)
    ensures Choose(xs, pick) == [] <==> forall j :: 0 <= j < |xs| ==> pick(xs[j]).None?
  {
    if xs != [] {
      ChooseEmpty(xs[1..], pick);
      if Choose(xs, pick) == [] {
        forall j | 0 <= j < |xs| ensures pick(xs[j]).None? {
          if j > 0 { assert xs[1..][j - 1] == xs[j]; }
        }
      } else if pick(xs[0]).None? {
        var j :| 0 <= j < |xs[1..]| && pick(xs[1..][j]).Some?;
        assert xs[j + 1] == xs[1..][j];
      }
    }
  }

  /** The result has one value exactly when one element yields a value, and it is that element's. */
  lemma {:induction false} ChooseSingle<T, U>(xs: seq<T>, pick: T -> Option<U>)
    ensures |Choose(xs, pick)| == 1 <==> exists i :: OnlyPicked(xs, pick, i)
    ensures forall i :: OnlyPicked(xs, pick, i) ==> Choose(xs, pick) == [pick(xs[i]).value]
  {
    forall i | OnlyPicked(xs, pick, i) ensures Choose(xs, pick) == [pick(xs[i]).value] {
      var before, after := xs[..i], xs[i + 1..];
      assert xs == before + ([xs[i]] + after);
      ChooseAppend(before, [xs[i]] + after, pick);
      ChooseAppend([xs[i]], after, pick);
      assert Choose([xs[i]], pick) == [pick(xs[i]).value];
      ChooseEmpty(before, pick);
      ChooseEmpty(after, pick);
      forall j | 0 <= j < |before| ensures pick(before[j]).None? {
        assert before[j] == xs[j];
      }
      forall j | 0 <= j < |after| ensures pick(after[j]).None? {
        assert after[j] == xs[i + 1 + j];
      }
    }
    if |Choose(xs, pick)| == 1 {
      var rest := xs[1..];
      if pick(xs[0]).Some? {
        ChooseEmpty(rest, pick);
        assert OnlyPicked(xs, pick, 0);
      } else {
        ChooseSingle(rest, pick);
        var k :| OnlyPicked(rest, pick, k);
        assert rest[k] == xs[k + 1];
        forall j | 0 <= j < |xs| && pick(xs[j]).Some? ensures j == k + 1 {
          assert j > 0;
          assert rest[j - 1] == xs[j];
        }
        assert OnlyPicked(xs, pick, k + 1);
      }
    }
  }

  /** Removing an element that yields nothing leaves the result unchanged. */
  lemma ChooseSkips<T, U>(xs: seq<T>, pick: T -> Option<U>, i: nat)
    requires i < |xs| && pick(xs[i]).None?
    ensures Choose(xs, pick) == Choose(xs[..i] + xs[i + 1..], pick)
  {
    assert xs == xs[..i] + ([xs[i]] + xs[i + 1..]);
    ChooseAppend(xs[..i], [xs[i]] + xs[i + 1..], pick);
    ChooseAppend([xs[i]], xs[i + 1..], pick);
    ChooseAppend(xs[..i], xs[i + 1..], pick);
  }
}
