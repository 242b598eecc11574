/** Declarations shared by the other modules. */
module Common {

  datatype Option<T> = None | Some(value: T)

  ghost predicate Distinct(s: seq<nat>) { forall i, j :: 0 <= i < j < |s| ==> s[i] != s[j] }
}
