/** The array methods the modelled code uses on lists: `find`, `filter` by
    element and `filter` by index. */
module Lists {
  import opened Js

  /** `s.find(p)`: the first element satisfying `p`, if any. */
  function Find<T>(s: seq<T>, p: T -> bool): (r: Option<T>)
    ensures r.None? <==> forall i :: 0 <= i < |s| ==> !p(s[i])
    ensures r.Some? ==> exists i :: 0 <= i < |s| && s[i] == r.value && p(s[i]) &&
                                    forall j :: 0 <= j < i ==> !p(s[j])
  {
    if s == [] then None
    else if p(s[0]) then Some(s[0])
    else
      var r := Find(s[1..], p);
      assert forall i :: 1 <= i < |s| ==> s[i] == s[1..][i - 1];
      r
  }

  /** `s.filter(p)` */
  function Filter<T>(s: seq<T>, p: T -> bool): seq<T> {
    if s == [] then [] else (if p(s[0]) then [s[0]] else []) + Filter(s[1..], p)
  }

  /** Filtering keeps exactly the elements that satisfy the predicate. */
  lemma {:induction false} FilterMembers<T>(s: seq<T>, p: T -> bool)
    ensures forall x :: x in Filter(s, p) <==> x in s && p(x)
    ensures |Filter(s, p)| <= |s|
    decreases |s|
  {
    if s != [] {
      FilterMembers(s[1..], p);
      assert s == [s[0]] + s[1..];
    }
  }

  lemma AppendAssoc<T>(a: seq<T>, b: seq<T>, c: seq<T>)
    ensures a + b + c == a + (b + c)
  {
  }

  /** Filtering distributes over concatenation, so it keeps the relative order
      of the elements it keeps. */
  lemma {:induction false} FilterAppend<T>(s: seq<T>, t: seq<T>, p: T -> bool)
    ensures Filter(s + t, p) == Filter(s, p) + Filter(t, p)
    decreases |s|
  {
    if s == [] {
      assert s + t == t;
    } else {
      var head := if p(s[0]) then [s[0]] else [];
      assert (s + t)[0] == s[0];
      assert (s + t)[1..] == s[1..] + t;
      FilterAppend(s[1..], t, p);
      assert Filter(s + t, p) == head + (Filter(s[1..], p) + Filter(t, p));
      AppendAssoc(head, Filter(s[1..], p), Filter(t, p));
    }
  }

  lemma FilterSingle<T>(x: T, p: T -> bool)
    ensures Filter([x], p) == if p(x) then [x] else []
  {
    assert [x][1..] == [];
    assert Filter([x][1..], p) == [];
  }

  /** A filter that every element passes keeps the list as it is. */
  lemma {:induction false} FilterAllKept<T>(s: seq<T>, p: T -> bool)
    requires forall i :: 0 <= i < |s| ==> p(s[i])
    ensures Filter(s, p) == s
    decreases |s|
  {
    if s != [] {
      FilterAllKept(s[1..], p);
      assert [s[0]] + s[1..] == s;
    }
  }

  /** `s.filter((_, index) => index !== i)` */
  function RemoveIndex<T>(s: seq<T>, i: int): seq<T>
    decreases |s|
  {
    if s == [] then []
    else (if i == 0 then [] else [s[0]]) + RemoveIndex(s[1..], i - 1)
  }

  /** Removing an index inside the list drops exactly that element and keeps
      the others in order; an index outside the list changes nothing. */
  lemma {:induction false} RemoveIndexSpec<T>(s: seq<T>, i: int)
    ensures 0 <= i < |s| ==> RemoveIndex(s, i) == s[..i] + s[i + 1..]
    ensures !(0 <= i < |s|) ==> RemoveIndex(s, i) == s
    decreases |s|
  {
    if s != [] {
      RemoveIndexSpec(s[1..], i - 1);
      if 0 < i < |s| {
        assert [s[0]] + s[1..][..i - 1] == s[..i];
      } else if i != 0 {
        assert [s[0]] + s[1..] == s;
      }
    }
  }
}
