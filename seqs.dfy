/** Mapping a function over a sequence, the accumulator form a loop that
    appends one result per element builds, and collecting the values a
    partial function yields. */
module Seqs {
  import opened Wrappers

  /** `f` applied to each element, in order. */
  function Map<A, B>(f: A -> B, s: seq<A>): (r: seq<B>)
    ensures |r| == |s|
  {
    if s == [] then [] else Map(f, s[..|s| - 1]) + [f(s[|s| - 1])]
  }

  lemma {:induction false} MapAt<A, B>(f: A -> B, s: seq<A>, k: nat)
    requires k < |s|
    ensures Map(f, s)[k] == f(s[k])
  {
    if k < |s| - 1 {
      MapAt(f, s[..|s| - 1], k);
    }
  }

  /** `acc` followed by `f` of each element, as a loop appends them. */
  function MapFrom<A, B>(acc: seq<B>, f: A -> B, s: seq<A>): seq<B> {
    if s == [] then acc else MapFrom(acc, f, s[..|s| - 1]) + [f(s[|s| - 1])]
  }

  lemma MapFromSnoc<A, B>(acc: seq<B>, f: A -> B, s: seq<A>, x: A)
    ensures MapFrom(acc, f, s + [x]) == MapFrom(acc, f, s) + [f(x)]
  {
    assert (s + [x])[..|s|] == s;
  }

  lemma {:induction false} MapFromIsAppend<A, B>(acc: seq<B>, f: A -> B, s: seq<A>)
    ensures MapFrom(acc, f, s) == acc + Map(f, s)
  {
    if s != [] {
      MapFromIsAppend(acc, f, s[..|s| - 1]);
    } else {
      assert acc + [] == acc;
    }
  }

  lemma {:induction false} MapFromAppend<A, B>(acc: seq<B>, f: A -> B, a: seq<A>, b: seq<A>)
    ensures MapFrom(MapFrom(acc, f, a), f, b) == MapFrom(acc, f, a + b)
    decreases |b|
  {
    if b != [] {
      var init, last := b[..|b| - 1], b[|b| - 1];
      assert a + b == (a + init) + [last];
      MapFromAppend(acc, f, a, init);
      MapFromSnoc(acc, f, a + init, last);
    } else {
      assert a + b == a;
    }
  }

  /** The values `f` yields over `s`, in order, skipping the elements it
      yields nothing for. */
  function SomeValues<A, B>(f: A -> Option<B>, s: seq<A>): (r: seq<B>)
    ensures |r| <= |s|
  {
    if s == [] then []
    else SomeValues(f, s[..|s| - 1]) + (if f(s[|s| - 1]).Some? then [f(s[|s| - 1]).value] else [])
  }

  lemma SomeValuesStep<A, B>(f: A -> Option<B>, s: seq<A>, i: nat)
    requires i < |s|
    ensures SomeValues(f, s[..i + 1]) ==
              SomeValues(f, s[..i]) + (if f(s[i]).Some? then [f(s[i]).value] else [])
  {
    assert s[..i + 1][..i] == s[..i];
  }

  /** Every value `f` yields is collected. */
  lemma {:induction false} SomeValuesHolds<A, B>(f: A -> Option<B>, s: seq<A>, j: nat)
    requires j < |s| && f(s[j]).Some?
    ensures f(s[j]).value in SomeValues(f, s)
  {
    var init := s[..|s| - 1];
    if j < |s| - 1 {
      assert init[j] == s[j];
      SomeValuesHolds(f, init, j);
    }
  }

  /** Every collected value is yielded by some element. */
  lemma {:induction false} SomeValuesComes<A, B>(f: A -> Option<B>, s: seq<A>, k: nat)
    requires k < |SomeValues(f, s)|
    ensures exists j :: 0 <= j < |s| && f(s[j]) == Some(SomeValues(f, s)[k])
  {
    var init := s[..|s| - 1];
    if k < |SomeValues(f, init)| {
      SomeValuesComes(f, init, k);
      var j :| 0 <= j < |init| && f(init[j]) == Some(SomeValues(f, init)[k]);
      assert f(s[j]) == Some(SomeValues(f, s)[k]);
    } else {
      assert f(s[|s| - 1]) == Some(SomeValues(f, s)[k]);
    }
  }

  /** Nothing is collected exactly when `f` yields nothing anywhere. */
  lemma SomeValuesEmpty<A, B>(f: A -> Option<B>, s: seq<A>)
    ensures SomeValues(f, s) == [] <==> forall j :: 0 <= j < |s| ==> f(s[j]).None?
  {
    if SomeValues(f, s) == [] {
      forall j | 0 <= j < |s|
        ensures f(s[j]).None?
      {
        if f(s[j]).Some? {
          SomeValuesHolds(f, s, j);
        }
      }
    } else {
      SomeValuesComes(f, s, 0);
    }
  }

  lemma AppendAssoc<T>(a: seq<T>, b: seq<T>, c: seq<T>)
    ensures a + b + c == a + (b + c)
  {
  }
}
