/** Optional values, used wherever the source yields `undefined`, `null` or a failed match. */
module Wrappers {

  datatype Option<+T> = None | Some(value: T)

  /** The value of an optional, as a list of zero or one elements. */
  function AsList<T>(o: Option<T>): (r: seq<T>)
    ensures |r| <= 1 && (o.Some? ==> r == [o.value]) && (o.None? ==> r == [])
  {
    match o
    case Some(x) => [x]
    case None => []
  }

  /** The values present in `os`, in order. */
  function Somes<T>(os: seq<Option<T>>): (r: seq<T>)
    ensures |r| <= |os|
    decreases |os|
  {
    if os == [] then []
    else Somes(os[..|os| - 1]) + AsList(os[|os| - 1])
  }

  /** Extending a prefix of `os` by one element extends its values by that element's value. */
  lemma SomesStep<T>(os: seq<Option<T>>, i: nat)
    requires i < |os|
    ensures Somes(os[..i + 1]) == Somes(os[..i]) + AsList(os[i])
  {
    assert os[..i + 1][..i] == os[..i];
  }

  /** Where in `os` each of `Somes(os)` comes from. */
  function Origins<T>(os: seq<Option<T>>): (ix: seq<nat>)
    ensures |ix| == |Somes(os)|
    decreases |os|
  {
    if os == [] then []
    else
      var n := |os| - 1;
      Origins(os[..n]) + (if os[n].Some? then [n] else [])
  }

  /** Each value kept comes from the position its origin names. */
  lemma {:induction false} OriginsSound<T>(os: seq<Option<T>>, j: nat)
    requires j < |Somes(os)|
    ensures Origins(os)[j] < |os| && os[Origins(os)[j]] == Some(Somes(os)[j])
    decreases |os|
  {
    var n := |os| - 1;
    var prefix := Origins(os[..n]);
    assert Somes(os) == Somes(os[..n]) + AsList(os[n]);
    assert Origins(os) == prefix + (if os[n].Some? then [n] else []);
    if j < |prefix| {
      OriginsSound(os[..n], j);
      assert Origins(os)[j] == prefix[j];
      assert Somes(os)[j] == Somes(os[..n])[j];
    }
  }

  /** The origins are strictly increasing: the values keep the order of `os`. */
  lemma {:induction false} OriginsIncreasing<T>(os: seq<Option<T>>, j: nat, l: nat)
    requires j < l < |Somes(os)|
    ensures Origins(os)[j] < Origins(os)[l]
    decreases |os|
  {
    var n := |os| - 1;
    var prefix := Origins(os[..n]);
    assert Origins(os) == prefix + (if os[n].Some? then [n] else []);
    if l < |prefix| {
      OriginsIncreasing(os[..n], j, l);
    } else {
      OriginsSound(os[..n], j);
    }
  }

  /** Every present value is kept. */
  lemma {:induction false} OriginsComplete<T>(os: seq<Option<T>>, i: nat)
    requires i < |os| && os[i].Some?
    ensures i in Origins(os)
    decreases |os|
  {
    var n := |os| - 1;
    assert Origins(os) == Origins(os[..n]) + (if os[n].Some? then [n] else []);
    if i < n {
      assert os[..n][i] == os[i];
      OriginsComplete(os[..n], i);
    }
  }
}
