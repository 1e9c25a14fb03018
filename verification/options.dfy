/** The optional value used wherever the Python code reads `dict.get(k)` or a conversion may fail. */
module Options {

  datatype Option<+T> = None | Some(value: T) {

    /** The value, or `default` when there is none (Python's `d.get(k, default)`). */
    function GetOr(default: T): T {
      match this
      case Some(v) => v
      case None => default
    }
  }

  /** `f` applied to every pair of elements at the same index, or `None` as soon as one application gives none. */
  function AllSome<A, B, C>(xs: seq<A>, ys: seq<B>, f: (A, B) -> Option<C>): (r: Option<seq<C>>)
    requires |xs| == |ys|
    ensures r.Some? <==> forall i :: 0 <= i < |xs| ==> f(xs[i], ys[i]).Some?
    ensures r.Some? ==> |r.value| == |xs| && forall i :: 0 <= i < |xs| ==> f(xs[i], ys[i]) == Some(r.value[i])
  {
    if |xs| == 0 then Some([])
    else
      var rest := AllSome(xs[1..], ys[1..], f);
      assert forall i :: 1 <= i < |xs| ==> xs[i] == xs[1..][i - 1] && ys[i] == ys[1..][i - 1];
      if f(xs[0], ys[0]).Some? && rest.Some? then Some([f(xs[0], ys[0]).value] + rest.value) else None
  }
}
