/** The persistent class service: queries over the class table, and the
    writes that keep every class pointing at a stored sector. */
module ClassesServiceImpl {
  import opened Errors
  import opened Entities
  import opened Dtos
  import opened Database

  class ClassesService {
    const db: Database

    constructor (db: Database)
      ensures this.db == db
    {
      this.db := db;
    }

    /** One DTO per stored class, each class exactly once. */
    method GetAllClasses() returns (r: seq<ClassesDto>)
      requires db.Valid()
      ensures |r| == |db.classes|
      ensures forall k :: k in db.classes ==> ToClassesDto(db.classes[k]) in r
      ensures forall i :: 0 <= i < |r| ==>
        r[i].id.Some? && r[i].id.value in db.classes && r[i] == ToClassesDto(db.classes[r[i].id.value])
      ensures forall i, j :: 0 <= i < j < |r| ==> r[i].id != r[j].id
    {
      var cs := db.classes;
      var ks := Keys(cs);
      r := seq(|ks|, i requires 0 <= i < |ks| => ToClassesDto(cs[ks[i]]));
      forall k | k in cs
        ensures ToClassesDto(cs[k]) in r
      {
        var i :| 0 <= i < |ks| && ks[i] == k;
        assert r[i] == ToClassesDto(cs[k]);
      }
    }

    /** The class stored under `id`, or NotFound when there is none. */
    method GetClasseById(id: int) returns (r: Result<ClassesDto>)
      requires db.Valid()
      ensures r.Err? <==> id !in db.classes
      ensures r.Err? ==> r.error == NotFound
      ensures r.Ok? ==> r.value == ToClassesDto(db.classes[id]) && r.value.id == Some(id)
    {
      if id in db.classes {
        r := Ok(ToClassesDto(db.classes[id]));
      } else {
        r := Err(NotFound);
      }
    }

    /** Exactly the stored classes whose sector is `sectorId`; empty when
        there are none. Whether the sector itself exists is not checked. */
    method GetClassesBySector(sectorId: int) returns (r: seq<ClassesDto>)
      requires db.Valid()
      ensures |r| == |ClassesOf(db.classes, sectorId)|
      ensures forall k :: k in db.classes && db.classes[k].sectorId == sectorId ==> ToClassesDto(db.classes[k]) in r
      ensures forall i :: 0 <= i < |r| ==>
        && r[i].id.Some? && r[i].id.value in db.classes
        && db.classes[r[i].id.value].sectorId == sectorId
        && r[i] == ToClassesDto(db.classes[r[i].id.value])
      ensures forall i, j :: 0 <= i < j < |r| ==> r[i].id != r[j].id
      ensures r == [] <==> forall k :: k in db.classes ==> db.classes[k].sectorId != sectorId
    {
      var owned := ClassesOf(db.classes, sectorId);
      var ks := Keys(owned);
      r := seq(|ks|, i requires 0 <= i < |ks| => ToClassesDto(owned[ks[i]]));
      forall k | k in db.classes && db.classes[k].sectorId == sectorId
        ensures ToClassesDto(db.classes[k]) in r
      {
        assert k in owned;
        var i :| 0 <= i < |ks| && ks[i] == k;
        assert r[i] == ToClassesDto(owned[k]);
      }
    }

    /** Looks the sector up first; on success inserts exactly one class with
        a never-issued id, the looked-up sector, and the DTO's name and
        description, and changes nothing else. Any failure changes nothing. */
    method CreateClasse(dto: ClassesDto, storeFails: bool) returns (r: Result<ClassesDto>)
      requires db.Valid()
      modifies db
      ensures db.Valid()
      ensures dto.sectorId.None? ==> r == Err(InvalidArgument)
      ensures dto.sectorId.Some? && dto.sectorId.value !in old(db.sectors) ==> r == Err(DanglingSector)
      ensures (&& dto.sectorId.Some? && dto.sectorId.value in old(db.sectors)
               && (dto.className.None? || dto.description.None? || storeFails))
        ==> r == Err(StorageFailure)
      ensures r.Err? ==> unchanged(db)
      ensures r.Ok? <==>
        dto.sectorId.Some? && dto.sectorId.value in old(db.sectors)
        && dto.className.Some? && dto.description.Some? && !storeFails
      ensures r.Ok? ==>
        var id := old(db.nextClassId);
        var e := ClassesEntity(id, dto.className.value, dto.description.value, dto.sectorId.value);
        && id !in old(db.issuedClassIds)
        && id !in old(db.classes)
        && db.classes == old(db.classes)[id := e]
        && r.value == ToClassesDto(e)
        && db.sectors == old(db.sectors)
        && db.nextSectorId == old(db.nextSectorId)
        && db.issuedSectorIds == old(db.issuedSectorIds)
        && db.nextClassId == id + 1
        && db.issuedClassIds == old(db.issuedClassIds) + {id}
    {
      if dto.sectorId.None? {
        return Err(InvalidArgument);
      }
      var sectorId := dto.sectorId.value;
      if sectorId !in db.sectors {
        return Err(DanglingSector);
      }
      if dto.className.None? || dto.description.None? || storeFails {
        return Err(StorageFailure);
      }
      var id := db.nextClassId;
      var e := ClassesEntity(id, dto.className.value, dto.description.value, sectorId);
      db.classes := db.classes[id := e];
      db.nextClassId := id + 1;
      db.issuedClassIds := db.issuedClassIds + {id};
      r := Ok(ToClassesDto(e));
    }

    /** Fails with NotFound on a missing class. The sector is looked up only
        when the requested sector differs from the current one, and that
        lookup can fail; when it is the same, no sector error can arise. On
        success the class keeps its id, takes the new name and description
        (and the new sector when it moved), and no other record changes. */
    method UpdateClasse(id: int, dto: ClassesDto, storeFails: bool) returns (r: Result<ClassesDto>)
      requires db.Valid()
      modifies db
      ensures db.Valid()
      ensures r.Err? ==> unchanged(db)
      ensures id !in old(db.classes) ==> r == Err(NotFound)
      ensures id in old(db.classes) ==>
        var current := old(db.classes[id]);
        var moves := dto.sectorId != Some(current.sectorId);
        && (moves && dto.sectorId.None? ==> r == Err(InvalidArgument))
        && (moves && dto.sectorId.Some? && dto.sectorId.value !in old(db.sectors) ==> r == Err(DanglingSector))
        && (!moves ==> r != Err(DanglingSector) && r != Err(InvalidArgument))
        && ((&& (!moves || (dto.sectorId.Some? && dto.sectorId.value in old(db.sectors)))
             && (dto.className.None? || dto.description.None? || storeFails))
            ==> r == Err(StorageFailure))
        && (r.Ok? <==>
              (!moves || (dto.sectorId.Some? && dto.sectorId.value in old(db.sectors)))
              && dto.className.Some? && dto.description.Some? && !storeFails)
        && (r.Ok? ==>
              var e := ClassesEntity(id, dto.className.value, dto.description.value,
                                     if moves then dto.sectorId.value else current.sectorId);
              && db.classes == old(db.classes)[id := e]
              && r.value == ToClassesDto(e)
              && db.sectors == old(db.sectors)
              && db.nextSectorId == old(db.nextSectorId) && db.nextClassId == old(db.nextClassId)
              && db.issuedSectorIds == old(db.issuedSectorIds)
              && db.issuedClassIds == old(db.issuedClassIds))
    {
      if id !in db.classes {
        return Err(NotFound);
      }
      var existing := db.classes[id];
      if dto.sectorId != Some(existing.sectorId) {
        if dto.sectorId.None? {
          return Err(InvalidArgument);
        }
        if dto.sectorId.value !in db.sectors {
          return Err(DanglingSector);
        }
        existing := existing.(sectorId := dto.sectorId.value);
      }
      // The NOT NULL columns are checked when the change is flushed.
      if dto.className.None? || dto.description.None? || storeFails {
        return Err(StorageFailure);
      }
      existing := existing.(className := dto.className.value, description := dto.description.value);
      db.classes := db.classes[id := existing];
      r := Ok(ToClassesDto(existing));
    }

    /** Fails with NotFound on a missing class; otherwise removes exactly that
        class. */
    method DeleteClasse(id: int, storeFails: bool) returns (r: Outcome)
      requires db.Valid()
      modifies db
      ensures db.Valid()
      ensures r.Failed? ==> unchanged(db)
      ensures id !in old(db.classes) ==> r == Failed(NotFound)
      ensures id in old(db.classes) && storeFails ==> r == Failed(StorageFailure)
      ensures r == Done <==> id in old(db.classes) && !storeFails
      ensures r == Done ==>
        && db.classes == old(db.classes) - {id}
        && db.sectors == old(db.sectors)
        && db.nextSectorId == old(db.nextSectorId) && db.nextClassId == old(db.nextClassId)
        && db.issuedSectorIds == old(db.issuedSectorIds)
        && db.issuedClassIds == old(db.issuedClassIds)
    {
      if id !in db.classes {
        return Failed(NotFound);
      }
      if storeFails {
        return Failed(StorageFailure);
      }
      db.classes := db.classes - {id};
      r := Done;
    }
  }
}
