/** Facts about sequences that several components share. */
module Collections {

  datatype Option<+T> = None | Some(value: T)

  function Elements<T>(s: seq<T>): set<T> {
    set x | x in s
  }

  predicate Distinct<T(==)>(s: seq<T>) {
    forall i, j :: 0 <= i < j < |s| ==> s[i] != s[j]
  }

  lemma {:induction false} DistinctIffSize<T>(s: seq<T>)
    ensures |Elements(s)| <= |s|
    ensures Distinct(s) <==> |Elements(s)| == |s|
  {
    if s != [] {
      var n := |s| - 1;
      var init := s[..n];
      DistinctIffSize(init);
      assert s == init + [s[n]];
      assert Elements(s) == Elements(init) + {s[n]};
      assert forall i :: 0 <= i < n ==> init[i] == s[i];
      if s[n] in init {
        assert Elements(s) == Elements(init);
      } else {
        assert |Elements(s)| == |Elements(init)| + 1;
      }
    }
  }

  lemma SubsetSize<T>(a: set<T>, b: set<T>)
    ensures a <= b ==> |a| <= |b|
    ensures a < b ==> |a| < |b|
  {
    if a <= b {
      assert b == a + (b - a);
      assert |b| == |a| + |b - a|;
    }
  }

  /** A name that is not among these. */
  function FreshName(names: seq<string>): (m: string)
    ensures m !in names && m != ""
    ensures forall i :: 0 <= i < |names| ==> |names[i]| < |m|
  {
    if names == [] then "x"
    else
      var m := FreshName(names[1..]);
      var f := if |m| <= |names[0]| then names[0] + "x" else m;
      assert forall i :: 1 <= i < |names| ==> names[i] == names[1..][i - 1];
      f
  }

  /** Unlinks the first occurrence of `x`, as `list.Remove` does with the element of `x`. */
  function Without<T(==)>(s: seq<T>, x: T): seq<T> {
    if s == [] then []
    else if s[0] == x then s[1..]
    else [s[0]] + Without(s[1..], x)
  }

  lemma {:induction false} WithoutDistinct<T>(s: seq<T>, x: T)
    requires Distinct(s)
    ensures Distinct(Without(s, x))
    ensures Elements(Without(s, x)) == Elements(s) - {x}
  {
    if s != [] {
      assert Elements(s) == {s[0]} + Elements(s[1..]);
      WithoutDistinct(s[1..], x);
      if s[0] != x {
        var r := Without(s[1..], x);
        assert Elements([s[0]] + r) == {s[0]} + Elements(r);
        assert forall i :: 0 <= i < |r| ==> r[i] in Elements(r);
      } else {
        assert forall i :: 0 < i < |s| ==> s[i] != s[0];
        assert x !in Elements(s[1..]);
      }
    }
  }

  lemma {:induction false} WithoutElements<T>(s: seq<T>, x: T)
    ensures forall y :: y in Without(s, x) ==> y in s
    ensures |Without(s, x)| + (if x in s then 1 else 0) == |s|
  {
    if s != [] && s[0] != x {
      WithoutElements(s[1..], x);
      assert x in s <==> x in s[1..];
    }
  }

  function Count<T(==)>(s: seq<T>, x: T): nat {
    if s == [] then 0 else (if s[0] == x then 1 else 0) + Count(s[1..], x)
  }

  lemma {:induction false} CountConcat<T>(s: seq<T>, t: seq<T>, x: T)
    ensures Count(s + t, x) == Count(s, x) + Count(t, x)
  {
    if s == [] {
      assert s + t == t;
    } else {
      assert (s + t)[1..] == s[1..] + t;
      CountConcat(s[1..], t, x);
    }
  }

  lemma {:induction false} CountPositive<T>(s: seq<T>, x: T)
    ensures x in s <==> Count(s, x) > 0
  {
    if s != [] {
      CountPositive(s[1..], x);
      assert s == [s[0]] + s[1..];
    }
  }

  function Sum(s: seq<int>): int {
    if s == [] then 0 else s[0] + Sum(s[1..])
  }

  lemma {:induction false} SumConcat(s: seq<int>, t: seq<int>)
    ensures Sum(s + t) == Sum(s) + Sum(t)
  {
    if s == [] {
      assert s + t == t;
    } else {
      assert (s + t)[1..] == s[1..] + t;
      SumConcat(s[1..], t);
    }
  }

  lemma {:induction false} SumUpdate(s: seq<int>, i: nat, x: int)
    requires i < |s|
    ensures Sum(s[i := x]) == Sum(s) - s[i] + x
  {
    if i > 0 {
      assert s[i := x][1..] == s[1..][i - 1 := x];
      SumUpdate(s[1..], i - 1, x);
    }
  }
}
