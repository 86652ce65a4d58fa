/** The persistent sector service. Deleting a sector cascades to its classes
    (the `CascadeType.ALL` relationship); updating forces the id so that the
    save overwrites the stored sector instead of inserting one. Every failure
    of a write is reported, and a failed write changes nothing. */
module SectorsServiceImpl {
  import opened Errors
  import opened Entities
  import opened Dtos
  import opened Database

  class SectorsService {
    const db: Database

    constructor (db: Database)
      ensures this.db == db
    {
      this.db := db;
    }

    /** The sector stored under `id`, or NotFound when there is none. */
    method GetSectorById(id: int) returns (r: Result<SectorsDto>)
      requires db.Valid()
      ensures r.Err? <==> id !in db.sectors
      ensures r.Err? ==> r.error == NotFound
      ensures r.Ok? ==> r.value == ToSectorsDto(db.sectors[id]) && r.value.id == Some(id)
    {
      if id in db.sectors {
        r := Ok(ToSectorsDto(db.sectors[id]));
      } else {
        r := Err(NotFound);
      }
    }

    /** Inserts one sector with a never-issued id and the given name, whatever
        that name is (null and blank included), and returns it; the new
        sector owns no class. A failing store changes nothing. */
    method CreateSectors(dto: SectorsDto, storeFails: bool) returns (r: Result<SectorsDto>)
      requires db.Valid()
      modifies db
      ensures db.Valid()
      ensures storeFails ==> r == Err(StorageFailure) && unchanged(db)
      ensures !storeFails ==>
        var id := old(db.nextSectorId);
        && id !in old(db.issuedSectorIds)
        && id !in old(db.sectors)
        && db.sectors == old(db.sectors)[id := SectorsEntity(id, dto.name)]
        && r == Ok(SectorsDto(Some(id), dto.name))
        && ClassesOf(db.classes, id) == map[]
        && db.classes == old(db.classes)
        && db.nextSectorId == id + 1 && db.nextClassId == old(db.nextClassId)
        && db.issuedSectorIds == old(db.issuedSectorIds) + {id}
        && db.issuedClassIds == old(db.issuedClassIds)
    {
      if storeFails {
        return Err(StorageFailure);
      }
      var id := db.nextSectorId;
      AbsentSectorHasNoClasses(db.sectors, db.classes, id);
      var e := ToSectorsEntity(dto.(id := Some(id)));
      db.sectors := db.sectors[id := e];
      db.nextSectorId := id + 1;
      db.issuedSectorIds := db.issuedSectorIds + {id};
      r := Ok(ToSectorsDto(e));
    }

    /** One DTO per stored sector, each sector exactly once. */
    method GetAllSectors() returns (r: seq<SectorsDto>)
      requires db.Valid()
      ensures |r| == |db.sectors|
      ensures forall k :: k in db.sectors ==> ToSectorsDto(db.sectors[k]) in r
      ensures forall i :: 0 <= i < |r| ==>
        r[i].id.Some? && r[i].id.value in db.sectors && r[i] == ToSectorsDto(db.sectors[r[i].id.value])
      ensures forall i, j :: 0 <= i < j < |r| ==> r[i].id != r[j].id
    {
      var ss := db.sectors;
      var ks := Keys(ss);
      r := seq(|ks|, i requires 0 <= i < |ks| => ToSectorsDto(ss[ks[i]]));
      forall k | k in ss
        ensures ToSectorsDto(ss[k]) in r
      {
        var i :| 0 <= i < |ks| && ks[i] == k;
        assert r[i] == ToSectorsDto(ss[k]);
      }
    }

    /** Fails with NotFound on a missing sector. Otherwise removes the sector
        and, through the cascade, exactly the classes in its collection; every
        other sector and class is untouched and no class is left orphaned. */
    method DeleteSectors(id: int, storeFails: bool) returns (r: Outcome)
      requires db.Valid()
      modifies db
      ensures db.Valid()
      ensures r.Failed? ==> unchanged(db)
      ensures id !in old(db.sectors) ==> r == Failed(NotFound)
      ensures id in old(db.sectors) && storeFails ==> r == Failed(StorageFailure)
      ensures r == Done <==> id in old(db.sectors) && !storeFails
      ensures r == Done ==>
        && db.sectors == old(db.sectors) - {id}
        && db.classes == WithoutSector(old(db.classes), id)
        && ClassesOf(db.classes, id) == map[]
        && (forall k :: k in old(db.classes) ==> (k in db.classes <==> old(db.classes[k].sectorId) != id))
        && |db.classes| == |old(db.classes)| - |ClassesOf(old(db.classes), id)|
        && db.nextSectorId == old(db.nextSectorId) && db.nextClassId == old(db.nextClassId)
        && db.issuedSectorIds == old(db.issuedSectorIds)
        && db.issuedClassIds == old(db.issuedClassIds)
    {
      if id !in db.sectors {
        return Failed(NotFound);
      }
      if storeFails {
        return Failed(StorageFailure);
      }
      CascadeLeavesNoOrphans(db.sectors, db.classes, id);
      CascadeCount(db.classes, id);
      db.classes := WithoutSector(db.classes, id);
      db.sectors := db.sectors - {id};
      r := Done;
    }

    /** Fails with NotFound on a missing sector. Otherwise the DTO's id is
        forced to `id`, so the save overwrites that sector: the set of sector
        ids stays the same, only that sector's name changes, and its classes
        stay where they are. */
    method UpdateSectors(id: int, dto: SectorsDto, storeFails: bool) returns (r: Result<SectorsDto>)
      requires db.Valid()
      modifies db
      ensures db.Valid()
      ensures r.Err? ==> unchanged(db)
      ensures id !in old(db.sectors) ==> r == Err(NotFound)
      ensures id in old(db.sectors) && storeFails ==> r == Err(StorageFailure)
      ensures r.Ok? <==> id in old(db.sectors) && !storeFails
      ensures r.Ok? ==>
        && db.sectors == old(db.sectors)[id := SectorsEntity(id, dto.name)]
        && db.sectors.Keys == old(db.sectors.Keys)
        && |db.sectors| == |old(db.sectors)|
        && r.value == SectorsDto(Some(id), dto.name)
        && db.classes == old(db.classes)
        && db.nextSectorId == old(db.nextSectorId) && db.nextClassId == old(db.nextClassId)
        && db.issuedSectorIds == old(db.issuedSectorIds)
        && db.issuedClassIds == old(db.issuedClassIds)
    {
      if id !in db.sectors {
        return Err(NotFound);
      }
      if storeFails {
        return Err(StorageFailure);
      }
      var forced := dto.(id := Some(id));
      var e := ToSectorsEntity(forced);
      db.sectors := db.sectors[id := e];
      assert db.sectors.Keys == old(db.sectors.Keys);
      r := Ok(ToSectorsDto(e));
    }
  }
}
