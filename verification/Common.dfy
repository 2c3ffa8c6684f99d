/** Optional values, results, the two workspaces and a few facts about
    sequences, shared by every module of the model. */
module Common {

  datatype Option<+T> = None | Some(value: T)

  datatype Result<+T, +E> = Ok(value: T) | Err(error: E)

  datatype Workspace = Containers | Kubernetes

  lemma Associate<T>(a: seq<T>, b: seq<T>, c: seq<T>)
    ensures a + b + c == a + (b + c)
  {}

  predicate Distinct<T(==)>(list: seq<T>) {
    forall i, j :: 0 <= i < j < |list| ==> list[i] != list[j]
  }

  /** The list with every occurrence of one element taken out. */
  function Without<T(==,!new)>(list: seq<T>, element: T): (rest: seq<T>)
    ensures forall t :: t in rest <==> t in list && t != element
    ensures |rest| <= |list|
  {
    if list == [] then []
    else if list[0] == element then Without(list[1..], element)
    else [list[0]] + Without(list[1..], element)
  }

  lemma {:induction false} WithoutAbsent<T(!new)>(list: seq<T>, element: T)
    requires element !in list
    ensures Without(list, element) == list
  {
    if list != [] { WithoutAbsent(list[1..], element); }
  }

  lemma {:induction false} WithoutAppends<T(!new)>(a: seq<T>, b: seq<T>, element: T)
    ensures Without(a + b, element) == Without(a, element) + Without(b, element)
  {
    if a == [] {
      assert a + b == b;
    } else {
      var all := a + b;
      WithoutAppends(a[1..], b, element);
      assert all[1..] == a[1..] + b && all[0] == a[0];
      Associate([a[0]], Without(a[1..], element), Without(b, element));
    }
  }
}
