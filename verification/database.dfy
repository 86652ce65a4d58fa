/** The relational store behind both persistent services: the sector table,
    the class table, and one identity counter per table. Every service method
    is one atomic step on this state. */
module Database {
  import opened Entities
  import Collections

  class Database {
    var sectors: map<int, SectorsEntity>
    var classes: map<int, ClassesEntity>
    var nextSectorId: int
    var nextClassId: int
    /** Every id each identity column has ever handed out, deleted rows included. */
    ghost var issuedSectorIds: set<int>
    ghost var issuedClassIds: set<int>

    /** Ids are positive, stored under their own key, issued by the counter,
        and every class refers to a stored sector. */
    ghost predicate Valid()
      reads this
    {
      && 1 <= nextSectorId
      && 1 <= nextClassId
      && (forall k :: k in issuedSectorIds ==> 1 <= k < nextSectorId)
      && (forall k :: k in issuedClassIds ==> 1 <= k < nextClassId)
      && (forall k :: k in sectors ==> k in issuedSectorIds && sectors[k].id == k)
      && (forall k :: k in classes ==> k in issuedClassIds && classes[k].id == k)
      && NoOrphans(sectors, classes)
    }

    /** An empty schema. */
    constructor ()
      ensures Valid()
      ensures sectors == map[] && classes == map[]
      ensures nextSectorId == 1 && nextClassId == 1
      ensures issuedSectorIds == {} && issuedClassIds == {}
    {
      sectors, classes := map[], map[];
      nextSectorId, nextClassId := 1, 1;
      issuedSectorIds, issuedClassIds := {}, {};
    }
  }

  /** The keys of `m`, each once, in an order the store chooses: the rows a
      repository query returns. */
  method Keys<V>(m: map<int, V>) returns (ks: seq<int>)
    ensures |ks| == |m|
    ensures forall i :: 0 <= i < |ks| ==> ks[i] in m
    ensures forall k :: k in m ==> k in ks
    ensures forall i, j :: 0 <= i < j < |ks| ==> ks[i] != ks[j]
  {
    ks := [];
    var rest := m.Keys;
    while rest != {}
      invariant rest <= m.Keys
      invariant forall i :: 0 <= i < |ks| ==> ks[i] in m && ks[i] !in rest
      invariant forall k :: k in m ==> k in rest || k in ks
      invariant forall i, j :: 0 <= i < j < |ks| ==> ks[i] != ks[j]
      invariant |ks| + |rest| == |m|
      decreases rest
    {
      Collections.NonEmptyHasMember(rest);
      var k :| k in rest;
      ks := ks + [k];
      rest := rest - {k};
    }
  }
}
