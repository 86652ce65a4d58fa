/** A fact about finite sets that the enumeration proofs rely on. */
module Collections {

  /** A non-empty set of ids has a member, so an element can be picked from it. */
  lemma NonEmptyHasMember(s: set<int>)
    requires s != {}
    ensures exists x :: x in s
  {
    if forall x :: x !in s {
      assert false;
    }
  }
}
