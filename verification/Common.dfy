/** Small vocabulary shared by every component of the model. */
module Common {

  datatype Option<+T> = None | Some(value: T)

  ghost predicate NoDup<T>(xs: seq<T>) {
    forall i, j :: 0 <= i < j < |xs| ==> xs[i] != xs[j]
  }

  lemma NoDupOfConcat<T>(xs: seq<T>, ys: seq<T>)
    ensures NoDup(xs + ys) <==> NoDup(xs) && NoDup(ys) && forall x :: x in xs ==> x !in ys
  {
    var all := xs + ys;
    assert forall i :: 0 <= i < |xs| ==> all[i] == xs[i];
    if NoDup(all) {
      forall i, j | 0 <= i < j < |ys|
        ensures ys[i] != ys[j]
      {
        assert all[|xs| + i] == ys[i] && all[|xs| + j] == ys[j];
      }
      forall x | x in xs
        ensures x !in ys
      {
        var i :| 0 <= i < |xs| && xs[i] == x;
        assert all[i] == x;
        assert forall j :: 0 <= j < |ys| ==> all[|xs| + j] == ys[j];
      }
    } else if NoDup(xs) && NoDup(ys) && forall x :: x in xs ==> x !in ys {
      forall i, j | 0 <= i < j < |all|
        ensures all[i] != all[j]
      {
        if i < |xs| <= j {
          assert xs[i] in xs && all[j] == ys[j - |xs|];
        }
      }
    }
  }

  /** `xs` can be obtained from `ys` by deleting elements: same order, nothing repeated or invented. */
  ghost predicate Subsequence<T>(xs: seq<T>, ys: seq<T>)
    decreases |ys|
  {
    if ys == [] then xs == []
    else
      var n := |ys| - 1;
      || Subsequence(xs, ys[..n])
      || (xs != [] && xs[|xs| - 1] == ys[n] && Subsequence(xs[..|xs| - 1], ys[..n]))
  }

  lemma {:induction false} SubsequenceEmpty<T>(ys: seq<T>)
    ensures Subsequence([], ys)
  {
    if ys != [] {
      SubsequenceEmpty(ys[..|ys| - 1]);
    }
  }

  lemma {:induction false} SubsequenceRefl<T>(ys: seq<T>)
    ensures Subsequence(ys, ys)
  {
    if ys != [] {
      SubsequenceRefl(ys[..|ys| - 1]);
    }
  }

  /** Subsequences of two pieces concatenate. */
  lemma {:induction false} SubsequenceConcat<T>(a: seq<T>, b: seq<T>, c: seq<T>, d: seq<T>)
    requires Subsequence(a, b) && Subsequence(c, d)
    ensures Subsequence(a + c, b + d)
    decreases |d|
  {
    if d == [] {
      assert a + c == a && b + d == b;
    } else {
      var n := |d| - 1;
      assert (b + d)[..|b + d| - 1] == b + d[..n];
      if Subsequence(c, d[..n]) {
        SubsequenceConcat(a, b, c, d[..n]);
      } else {
        var k := |c| - 1;
        SubsequenceConcat(a, b, c[..k], d[..n]);
        assert (a + c)[..|a + c| - 1] == a + c[..k];
      }
    }
  }

  lemma {:induction false} SubsequenceTransitive<T>(xs: seq<T>, ys: seq<T>, zs: seq<T>)
    requires Subsequence(xs, ys) && Subsequence(ys, zs)
    ensures Subsequence(xs, zs)
    decreases |zs|
  {
    if zs == [] {
    } else if Subsequence(ys, zs[..|zs| - 1]) {
      SubsequenceTransitive(xs, ys, zs[..|zs| - 1]);
    } else {
      var m := |ys| - 1;
      if Subsequence(xs, ys[..m]) {
        SubsequenceTransitive(xs, ys[..m], zs[..|zs| - 1]);
      } else {
        SubsequenceTransitive(xs[..|xs| - 1], ys[..m], zs[..|zs| - 1]);
      }
    }
  }

  /** Dropping a prefix of the shorter sequence keeps it a subsequence. */
  lemma {:induction false} SubsequenceDrop<T>(xs: seq<T>, ys: seq<T>, k: nat)
    requires Subsequence(xs, ys) && k <= |xs|
    ensures Subsequence(xs[k..], ys)
    decreases |ys|
  {
    if ys == [] {
    } else {
      var n := |ys| - 1;
      if Subsequence(xs, ys[..n]) {
        SubsequenceDrop(xs, ys[..n], k);
      } else if k == |xs| {
        SubsequenceEmpty(ys);
      } else {
        var m := |xs| - 1;
        SubsequenceDrop(xs[..m], ys[..n], k);
        assert xs[k..][..|xs[k..]| - 1] == xs[..m][k..];
      }
    }
  }

  lemma Associates<T>(a: seq<T>, b: seq<T>, c: seq<T>)
    ensures (a + b) + c == a + (b + c)
  {
  }

  /** A bounded buffer that drops its oldest entries and takes a new one stays in order behind what was sent. */
  lemma KeepNewest<T>(sent: seq<T>, buffer: seq<T>, k: nat, x: T, accepted: seq<T>)
    requires k <= |buffer| && Subsequence(sent + buffer, accepted)
    ensures Subsequence(sent + (buffer[k..] + [x]), accepted + [x])
  {
    SubsequenceRefl(sent);
    SubsequenceRefl(buffer);
    SubsequenceRefl([x]);
    SubsequenceDrop(buffer, buffer, k);
    SubsequenceConcat(sent, sent, buffer[k..], buffer);
    SubsequenceTransitive(sent + buffer[k..], sent + buffer, accepted);
    SubsequenceConcat(sent + buffer[k..], accepted, [x], [x]);
    assert (sent + buffer[k..]) + [x] == sent + (buffer[k..] + [x]);
  }

  function Min(a: nat, b: nat): nat {
    if a < b then a else b
  }

  function Pow2(k: nat): nat {
    if k == 0 then 1 else 2 * Pow2(k - 1)
  }

  /** The first `n` elements, or everything when there are fewer. */
  function Take<T>(xs: seq<T>, n: nat): seq<T> {
    if |xs| <= n then xs else xs[..n]
  }

  /** The last `n` elements, or everything when there are fewer. */
  function LastN<T>(xs: seq<T>, n: nat): seq<T> {
    if |xs| <= n then xs else xs[|xs| - n..]
  }

  /** Elements that satisfy `keep`, in order. */
  function Filter<T>(xs: seq<T>, keep: T -> bool): seq<T> {
    if xs == [] then []
    else
      var n := |xs| - 1;
      Filter(xs[..n], keep) + (if keep(xs[n]) then [xs[n]] else [])
  }

  lemma {:induction false} FilterMembers<T>(xs: seq<T>, keep: T -> bool)
    ensures forall x :: x in Filter(xs, keep) <==> x in xs && keep(x)
  {
    if xs != [] {
      var n := |xs| - 1;
      FilterMembers(xs[..n], keep);
      assert xs == xs[..n] + [xs[n]];
    }
  }

  lemma {:induction false} FilterNoDup<T>(xs: seq<T>, keep: T -> bool)
    requires NoDup(xs)
    ensures NoDup(Filter(xs, keep))
  {
    if xs != [] {
      var n := |xs| - 1;
      FilterNoDup(xs[..n], keep);
      FilterMembers(xs[..n], keep);
      assert xs[n] !in xs[..n];
    }
  }

  lemma {:induction false} FilterIsSubsequence<T>(xs: seq<T>, keep: T -> bool)
    ensures Subsequence(Filter(xs, keep), xs)
  {
    if xs != [] {
      var n := |xs| - 1;
      FilterIsSubsequence(xs[..n], keep);
      SubsequenceRefl([xs[n]]);
      SubsequenceEmpty([xs[n]]);
      SubsequenceConcat(Filter(xs[..n], keep), xs[..n], if keep(xs[n]) then [xs[n]] else [], [xs[n]]);
      assert xs == xs[..n] + [xs[n]];
    }
  }

  lemma {:induction false} FilterConcat<T>(a: seq<T>, b: seq<T>, keep: T -> bool)
    ensures Filter(a + b, keep) == Filter(a, keep) + Filter(b, keep)
    decreases |b|
  {
    if b == [] {
      assert a + b == a;
    } else {
      var n := |b| - 1;
      assert (a + b)[..|a + b| - 1] == a + b[..n];
      FilterConcat(a, b[..n], keep);
    }
  }

  /** Number of elements that satisfy `p`. */
  function Count<T>(xs: seq<T>, p: T -> bool): nat {
    if xs == [] then 0
    else
      var n := |xs| - 1;
      Count(xs[..n], p) + (if p(xs[n]) then 1 else 0)
  }

  lemma {:induction false} CountConcat<T>(a: seq<T>, b: seq<T>, p: T -> bool)
    ensures Count(a + b, p) == Count(a, p) + Count(b, p)
    decreases |b|
  {
    if b == [] {
      assert a + b == a;
    } else {
      var n := |b| - 1;
      assert (a + b)[..|a + b| - 1] == a + b[..n];
      CountConcat(a, b[..n], p);
    }
  }

  lemma CountOne<T>(x: T, p: T -> bool)
    ensures Count([x], p) == if p(x) then 1 else 0
  {
    assert [x][..0] == [];
    assert Count([x], p) == Count([x][..0], p) + (if p(x) then 1 else 0);
  }

  lemma NoMembersIsEmpty<T(!new)>(xs: seq<T>)
    ensures (forall x :: x !in xs) ==> xs == []
  {
    if xs != [] {
      assert xs[0] in xs;
    }
  }
}
