/** The stock result types, and two facts about finite sets. */
module Wrappers {
  datatype Option<+T> = None | Some(value: T)

  datatype Result<+T, +E> = Ok(value: T) | Err(error: E)

  lemma SubsetIsSmaller<T>(a: set<T>, b: set<T>)
    requires a <= b
    ensures |a| <= |b|
  {
    assert b == a + (b - a);
  }

  /** A fresh number can always be drawn: the ones in use are finitely many. */
  lemma AboveAll(used: set<nat>) returns (above: nat)
    ensures forall u :: u in used ==> u < above
  {
    above := 0;
    var rest := used;
    while rest != {}
      invariant rest <= used
      invariant forall u :: u in used && u !in rest ==> u < above
    {
      var u :| u in rest;
      rest := rest - {u};
      above := if u < above then above else u + 1;
    }
  }
}
