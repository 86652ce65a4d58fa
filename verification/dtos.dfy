/** The exchange values and the mapper between them and the entities. The
    mappers copy the fields whose names match; a class's `sectors` reference
    has no same-named field in the DTO, so `sectorId` is left null on the way
    out. */
module Dtos {
  import opened Errors
  import opened Entities

  datatype SectorsDto = SectorsDto(id: Option<int>, name: Option<string>)

  datatype ClassesDto = ClassesDto(
    id: Option<int>, className: Option<string>, description: Option<string>, sectorId: Option<int>)

  /** Entity to DTO: the id and the name, both carried over. */
  function ToSectorsDto(e: SectorsEntity): (r: SectorsDto)
    ensures r.id == Some(e.id) && r.name == e.name
  {
    SectorsDto(Some(e.id), e.name)
  }

  /** DTO to entity, once the DTO carries an id (assigned by the store on
      insert, or forced by an update). */
  function ToSectorsEntity(dto: SectorsDto): (e: SectorsEntity)
    requires dto.id.Some?
    ensures Some(e.id) == dto.id && e.name == dto.name
  {
    SectorsEntity(dto.id.value, dto.name)
  }

  /** Entity to DTO: id, name and description carried over; the sector
      reference has no same-named field and is not carried. */
  function ToClassesDto(e: ClassesEntity): (r: ClassesDto)
    ensures r.id == Some(e.id) && r.className == Some(e.className) && r.description == Some(e.description)
    ensures r.sectorId.None?
  {
    ClassesDto(Some(e.id), Some(e.className), Some(e.description), None)
  }

  /** The sector mapping loses nothing in either direction. */
  lemma SectorsMapperRoundTrip(e: SectorsEntity, dto: SectorsDto)
    ensures ToSectorsEntity(ToSectorsDto(e)) == e
    ensures dto.id.Some? ==> ToSectorsDto(ToSectorsEntity(dto)) == dto
  {
  }

  /** Two class rows give the same DTO exactly when they differ at most in
      their sector: the sector reference is the only thing the mapping loses. */
  lemma ClassesDtoLosesOnlySector(a: ClassesEntity, b: ClassesEntity)
    ensures ToClassesDto(a) == ToClassesDto(b) <==> a == b.(sectorId := a.sectorId)
  {
  }
}
