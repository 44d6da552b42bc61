/** Optional values. `None` stands for Python's `None` and, in a result, for an
    evaluation that raised and was caught. */
module Options {

  datatype Option<+T> = None | Some(value: T) {

    predicate IsFailure() {
      None?
    }

    function PropagateFailure<U>(): Option<U>
      requires None?
    {
      None
    }

    function Extract(): T
      requires Some?
    {
      value
    }

    /** Python's `d.get(key, default)` once the lookup has been made. */
    function GetOr(default: T): T {
      if Some? then value else default
    }
  }

  /** A list comprehension whose element expression may raise: the values of
      `s` when every one of them is present, and None (the comprehension
      raised) as soon as one is missing. */
  function AllPresent<T>(s: seq<Option<T>>): (r: Option<seq<T>>)
    ensures r.Some? <==> forall i :: 0 <= i < |s| ==> s[i].Some?
    ensures r.Some? ==> |r.value| == |s| && forall i :: 0 <= i < |s| ==> r.value[i] == s[i].value
  {
    if s == [] then Some([])
    else
      var head :- s[0];
      var tail :- AllPresent(s[1..]);
      Some([head] + tail)
  }
}
