/** The two persisted record kinds and the relationship between them.
    A class refers to its sector by id; the sector's `classes` collection is
    the inverse side of that reference (`mappedBy`), so it is not stored but
    computed from the class table. */
module Entities {
  import opened Errors
  import Collections

  /** A sector row: a store-assigned id and a name that may be null. */
  datatype SectorsEntity = SectorsEntity(id: int, name: Option<string>)

  /** A class row: className and description are NOT NULL columns, and the
      sector reference is a NOT NULL join column. */
  datatype ClassesEntity = ClassesEntity(id: int, className: string, description: string, sectorId: int)

  /** The sector's `classes` collection: every stored class whose sector
      reference is `sectorId`. */
  function ClassesOf(classes: map<int, ClassesEntity>, sectorId: int): (r: map<int, ClassesEntity>)
    ensures forall k :: k in r <==> k in classes && classes[k].sectorId == sectorId
    ensures forall k :: k in r ==> r[k] == classes[k]
  {
    map k | k in classes && classes[k].sectorId == sectorId :: classes[k]
  }

  /** The class table after the cascade of deleting sector `sectorId`. */
  function WithoutSector(classes: map<int, ClassesEntity>, sectorId: int): (r: map<int, ClassesEntity>)
    ensures forall k :: k in r <==> k in classes && classes[k].sectorId != sectorId
    ensures forall k :: k in r ==> r[k] == classes[k]
  {
    classes - ClassesOf(classes, sectorId).Keys
  }

  /** Referential integrity: no stored class refers to a missing sector. */
  ghost predicate NoOrphans(sectors: map<int, SectorsEntity>, classes: map<int, ClassesEntity>)
  {
    forall k :: k in classes ==> classes[k].sectorId in sectors
  }

  /** Removing a sector without its classes would leave an orphan exactly when
      its collection is non-empty; this is what the cascade is for. */
  lemma RemovingSectorOrphansIffItHasClasses(
    sectors: map<int, SectorsEntity>, classes: map<int, ClassesEntity>, sectorId: int)
    requires NoOrphans(sectors, classes)
    ensures NoOrphans(sectors - {sectorId}, classes) <==> ClassesOf(classes, sectorId) == map[]
  {
    var owned := ClassesOf(classes, sectorId);
    if owned != map[] {
      assert owned.Keys != {};
      Collections.NonEmptyHasMember(owned.Keys);
      var k :| k in owned;
      assert classes[k].sectorId !in sectors - {sectorId};
    } else {
      forall k | k in classes
        ensures classes[k].sectorId in sectors - {sectorId}
      {
        assert k !in owned;
      }
    }
  }

  /** The cascade removes exactly the sector's classes, keeps every other class
      as it was, leaves no orphan, and empties the sector's collection. */
  lemma CascadeLeavesNoOrphans(
    sectors: map<int, SectorsEntity>, classes: map<int, ClassesEntity>, sectorId: int)
    requires NoOrphans(sectors, classes)
    ensures NoOrphans(sectors - {sectorId}, WithoutSector(classes, sectorId))
    ensures ClassesOf(WithoutSector(classes, sectorId), sectorId) == map[]
    ensures forall k :: k in classes ==>
      (k in WithoutSector(classes, sectorId) <==> classes[k].sectorId != sectorId)
    ensures forall k :: k in WithoutSector(classes, sectorId) ==> WithoutSector(classes, sectorId)[k] == classes[k]
  {
  }

  /** The cascade deletes as many classes as the sector's collection holds. */
  lemma CascadeCount(classes: map<int, ClassesEntity>, sectorId: int)
    ensures |WithoutSector(classes, sectorId)| == |classes| - |ClassesOf(classes, sectorId)|
  {
  }

  /** A sector id that no stored sector has owns no class; in particular a
      freshly created sector starts with an empty collection. */
  lemma AbsentSectorHasNoClasses(
    sectors: map<int, SectorsEntity>, classes: map<int, ClassesEntity>, sectorId: int)
    requires NoOrphans(sectors, classes)
    requires sectorId !in sectors
    ensures ClassesOf(classes, sectorId) == map[]
  {
    forall k | k in classes
      ensures classes[k].sectorId != sectorId
    {
      assert classes[k].sectorId in sectors;
    }
    assert ClassesOf(classes, sectorId).Keys == {};
  }
}
