# Sector/Class catalogue store — Dafny model

This project models the core of a small catalogue service with two record kinds: a **Sector**, and a
**Class** that belongs to exactly one sector. The model covers three parts:

- **The persistent store.** `Database.Database` holds the sector table, the class table and one identity
  counter per table (`GenerationType.IDENTITY` numbers each table separately). It also keeps a ghost
  record of every id each counter has handed out. Its invariant `Valid()` says three things: each row
  sits under its own id, every id lies below its counter, and no class refers to a missing sector
  (`Entities.NoOrphans`).
- **The persistent services.** `ClassesServiceImpl.ClassesService` and `SectorsServiceImpl.SectorsService`
  share one `Database`, as the two Spring services share one database. Each method is one atomic step
  and returns a `Result`/`Outcome` value (`Ok`, `NotFound`, `DanglingSector`, `InvalidArgument`,
  `StorageFailure`) instead of throwing a `ServiceException`.
- **The in-memory class store.** `InMemoryClassesService.ClassesService` is a map from id to class plus
  an id generator. It is seeded by `init` and never checks sectors.

The entities are datatypes. A class's `className` and `description` are plain strings because those
columns are NOT NULL. The sector reference is a plain id because the join column is NOT NULL. A sector's
name may be null (`Option`). A sector's `classes` collection is the inverse side of the class's sector
reference, so it is computed rather than stored: `Entities.ClassesOf`. Deleting a sector cascades to that
collection: `Entities.WithoutSector`.

The mappers copy the same-named fields. A class entity's `sectors` reference has no same-named DTO
field, so `Dtos.ToClassesDto` leaves `sectorId` null. `Database.Keys` stands for a repository query that
returns rows in an order the store chooses. `Scenarios.CascadeScenario` is a client whose assertions
follow from the contracts alone: it creates a sector, then a class, is refused a class under a missing
sector, and deletes the sector together with its class.

Facts about the code that shape the model:

- No service validates names; trimming `className` happens in the SOAP handler, outside the services.
- `description` is a NOT NULL column. A null name or description sent to `createClasse`/`updateClasse`
  fails when the row is written (`StorageFailure`), after the sector checks.
- Sector and class ids come from separate identity counters, so the first class in a fresh database gets
  id 1. The shared numbering (sector 1, classes 2 and 3) belongs to the in-memory store's single generator.
- Updating a sector does not validate the new name.

## Model

| member | source | states |
|---|---|---|
| `ClassesServiceImpl.ClassesService.GetAllClasses` | src/main/java/com/examensoap/service/impl/ClassesService.java:32-36 | one DTO per stored class: same count, every class present, each entry equal to its stored class, ids distinct; reads only |
| `ClassesServiceImpl.ClassesService.GetClasseById` | src/main/java/com/examensoap/service/impl/ClassesService.java:40-44 | fails with NotFound exactly when no class has the id; otherwise returns that class's id, name and description; reads only |
| `ClassesServiceImpl.ClassesService.GetClassesBySector` | src/main/java/com/examensoap/service/impl/ClassesService.java:48-52 | exactly the classes whose sector is the argument, as many as the sector's collection holds, ids distinct; empty exactly when there are none; the sector's own existence is not checked |
| `ClassesServiceImpl.ClassesService.CreateClasse` | src/main/java/com/examensoap/service/impl/ClassesService.java:55-67 | a null sector id or a sector that is not stored fails and nothing changes; a null name or description or a store failure also fails and nothing changes; on success exactly one class is added under a never-issued id, with the looked-up sector, and every other record is unchanged |
| `ClassesServiceImpl.ClassesService.UpdateClasse` | src/main/java/com/examensoap/service/impl/ClassesService.java:71-90 | a missing id fails with NotFound and nothing changes; a changed sector id is validated before any write (null: InvalidArgument, missing: DanglingSector); an unchanged sector id cannot fail on the sector; once the sector checks pass, a null name or description or a store failure fails with StorageFailure and nothing changes; on success the class keeps its id, takes the new name and description, and no other class changes |
| `ClassesServiceImpl.ClassesService.DeleteClasse` | src/main/java/com/examensoap/service/impl/ClassesService.java:94-99 | a missing id fails with NotFound and nothing changes; otherwise exactly that class is removed, and sectors and counters are unchanged |
| `SectorsServiceImpl.SectorsService.GetSectorById` | src/main/java/com/examensoap/service/impl/SectorsService.java:26-31 | fails with NotFound exactly when no sector has the id; otherwise returns that sector; reads only |
| `SectorsServiceImpl.SectorsService.CreateSectors` | src/main/java/com/examensoap/service/impl/SectorsService.java:34-41 | adds exactly one sector with a never-issued id and the given name, whatever it is, and returns it; the new sector owns no class; a store failure surfaces as StorageFailure and nothing changes |
| `SectorsServiceImpl.SectorsService.GetAllSectors` | src/main/java/com/examensoap/service/impl/SectorsService.java:44-48 | every stored sector exactly once and nothing else; reads only |
| `SectorsServiceImpl.SectorsService.DeleteSectors` | src/main/java/com/examensoap/service/impl/SectorsService.java:52-61 | a missing id fails with NotFound and nothing is removed; otherwise the sector and exactly the classes in its collection are removed, all other records are untouched, and its collection is empty afterwards; a store failure surfaces and nothing changes |
| `SectorsServiceImpl.SectorsService.UpdateSectors` | src/main/java/com/examensoap/service/impl/SectorsService.java:64-75 | a missing id fails with NotFound and nothing changes; otherwise the id is forced, so the set of sector ids and the count stay the same, only that sector's name changes, and classes stay put; a store failure surfaces and nothing changes |
| `InMemoryClassesService.ClassesService.constructor` | src/main/java/com/examensoap/service/ClassesService.java:16-38 | after construction and `init`: exactly classes 2 and 3 ("Classe A", "Classe B"), both in sector 1, and the generator at 4, since id 1 went to a sector that is never stored |
| `InMemoryClassesService.ClassesService.Init` | src/main/java/com/examensoap/service/ClassesService.java:20-38 | spends one id, then stores two sector-1 classes under the next two ids; keeps the store invariant |
| `InMemoryClassesService.ClassesService.NextId` | src/main/java/com/examensoap/service/ClassesService.java:17 | get-and-increment: returns the current value, which was never issued before, and advances the generator by one |
| `InMemoryClassesService.ClassesService.GetClassById` | src/main/java/com/examensoap/service/ClassesService.java:41-47 | fails exactly when the key is absent; otherwise returns the stored class unchanged, whose id is the key |
| `InMemoryClassesService.ClassesService.CreateClass` | src/main/java/com/examensoap/service/ClassesService.java:50-55 | overwrites the caller's id with the generator's value, which was never issued; stores the class under it with its sector unchecked; advances the generator |
| `InMemoryClassesService.ClassesService.ListAllClasses` | src/main/java/com/examensoap/service/ClassesService.java:58-60 | returns a map equal to the store, each entry under its own id below the generator; reads only |
| `InMemoryClassesService.ClassesService.DeleteClass` | src/main/java/com/examensoap/service/ClassesService.java:63-68 | fails when the key is absent and changes nothing; otherwise removes only that key; the generator never moves back |
| `Entities.ClassesOf` | src/main/java/com/examensoap/entity/SectorsEntity.java:16 | the sector's inverse `classes` collection: a class is in it exactly when it is stored and refers to that sector, and it is held as stored |
| `Entities.WithoutSector` | src/main/java/com/examensoap/service/impl/SectorsService.java:57 | the class table after the `CascadeType.ALL` removal of a sector: exactly the classes of other sectors remain, unchanged |
| `Dtos.ToSectorsDto` | src/main/java/com/examensoap/mapper/SectorsMapper.java:9 | entity to DTO carries the id and the name |
| `Dtos.ToSectorsEntity` | src/main/java/com/examensoap/mapper/SectorsMapper.java:11 | DTO with an id to entity carries the id and the name |
| `Dtos.SectorsMapperRoundTrip` | src/main/java/com/examensoap/mapper/SectorsMapper.java:9-11 | the two sector mappings are inverse: entity to DTO and back, and DTO (with an id) to entity and back, give the original |
| `Dtos.ToClassesDto` | src/main/java/com/examensoap/mapper/ClassesMapper.java:11 | entity to DTO carries id, className and description; the sector reference has no same-named DTO field and comes out null |
| `Dtos.ClassesDtoLosesOnlySector` | src/main/java/com/examensoap/mapper/ClassesMapper.java:11 | two class rows map to the same DTO exactly when they differ at most in their sector |
| `Database.Keys` | src/main/java/com/examensoap/service/impl/SectorsService.java:45 | a repository listing: every key of the table exactly once, in the store's order |
| `Entities.RemovingSectorOrphansIffItHasClasses` | src/main/java/com/examensoap/entity/SectorsEntity.java:16 | removing a sector alone leaves the class table consistent exactly when its collection is empty, which is why deletion must cascade |
| `Entities.CascadeLeavesNoOrphans` | src/main/java/com/examensoap/entity/SectorsEntity.java:16 | the cascade keeps exactly the classes of other sectors, unchanged, leaves no orphan, and empties the deleted sector's collection |
| `Entities.CascadeCount` | src/main/java/com/examensoap/entity/SectorsEntity.java:16 | the cascade removes as many classes as the sector's collection holds |
| `Entities.AbsentSectorHasNoClasses` | src/main/java/com/examensoap/entity/SectorsEntity.java:17 | under referential integrity, a sector id that is not stored owns no class, so a newly created sector starts with an empty collection |

## Left out

- The SOAP endpoints, the web-service configuration, the DTO validation annotations (never enforced), the
  dead `com.examensaop` sector service, logging and exception messages are not part of this model.
- The generated MapStruct mappers are not visible. They are modelled as copies of the same-named fields.
- The Spring Data repositories are replaced by the `Database` class. `findAllWithClasses` and
  `findByIdWithSectors` are not used by the modelled services.
- Transactions and concurrent requests are not modelled: each service method is one atomic step. A
  failed write therefore leaves no partial state.
- I/O failures of the store are not computed. They arrive as the `storeFails` parameter of each write.
  Errors are values, so the difference between a wrapped `ServiceException` and a raw exception is not
  modelled.
- Ids are unbounded integers. The 64-bit overflow of `Long` and `AtomicLong` is not modelled, and neither
  are null id arguments (`findById(null)`).
- A caller-supplied id in the DTO given to `createClasse` or `createSectors` is ignored. JPA would merge
  instead of insert in that case, and the handlers never supply one.
- Identity values that a failed insert may consume in a real database are not modelled.
- `ClassesServiceImpl.ClassesService.UpdateClasse`: "no sector lookup when the sector is unchanged" is
  stated only as "no sector error can arise". The lookup itself is not observable in an atomic model.
  The in-place edit of the managed entity, flushed at commit, is modelled as one write of the updated row.
- `SectorsServiceImpl.SectorsService.UpdateSectors`: the side effect on the caller's DTO (`setId`) is not
  modelled. The returned DTO carries the forced id.
- `InMemoryClassesService.ClassesService.CreateClass`: classes are values here. Java's aliasing is lost:
  the stored object is the caller's object, and the listing is a shallow copy. A null argument, which
  advances the generator before failing, is not modelled.
- `com.examensoap.model.Classes` and `com.examensoap.model.Sectors` are not part of this model. The
  in-memory class's fields are inferred from the setters the store calls.
