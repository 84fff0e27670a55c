/** Swift's `Optional`: `None` stands for `nil`. */
module Wrappers {

  datatype Option<+T> = None | Some(value: T) {

    /** The wrapped value, or `default` for `nil` (Swift's `??`). */
    function GetOr(default: T): T {
      match this
      case Some(v) => v
      case None => default
    }
  }

  /** A call that either returns a value or throws an error. */
  datatype Result<+T, +E> = Success(value: T) | Failure(error: E)

  /** `compactMap`'s filtering step: the present values of `s`, in order. */
  function Somes<T>(s: seq<Option<T>>): (r: seq<T>)
    ensures |r| <= |s|
  {
    if s == [] then []
    else if s[0].Some? then [s[0].value] + Somes(s[1..])
    else Somes(s[1..])
  }

  /** Nothing is dropped exactly when every element is present. */
  lemma {:induction false} SomesKeepsAll<T>(s: seq<Option<T>>)
    ensures |Somes(s)| == |s| <==> forall i :: 0 <= i < |s| ==> s[i].Some?
    ensures (forall i :: 0 <= i < |s| ==> s[i].Some?) ==>
              Somes(s) == seq(|s|, i requires 0 <= i < |s| => s[i].value)
  {
    if s != [] {
      SomesKeepsAll(s[1..]);
      if s[0].None? {
        assert |Somes(s)| == |Somes(s[1..])| <= |s| - 1;
      } else if forall i :: 0 <= i < |s| ==> s[i].Some? {
        assert forall i :: 0 <= i < |s[1..]| ==> s[1..][i].Some? by {
          forall i | 0 <= i < |s[1..]| ensures s[1..][i].Some? { assert s[1..][i] == s[i + 1]; }
        }
      } else {
        var j :| 0 <= j < |s| && s[j].None?;
        assert s[1..][j - 1] == s[j];
      }
    }
  }

  /** Appending one element extends the filtered sequence by that element when it is present. */
  lemma {:induction false} SomesSnoc<T>(s: seq<Option<T>>, x: Option<T>)
    ensures Somes(s + [x]) == if x.Some? then Somes(s) + [x.value] else Somes(s)
  {
    if s == [] {
      assert s + [x] == [x];
      assert [x][1..] == [];
    } else {
      assert (s + [x])[1..] == s[1..] + [x];
      SomesSnoc(s[1..], x);
    }
  }
}
