/** A client of the persistent services, showing what a caller can conclude
    from their contracts alone: a class created under a sector disappears
    with it, and a class cannot be created under a missing sector. */
module Scenarios {
  import opened Errors
  import opened Entities
  import opened Dtos
  import opened Database
  import ClassesServiceImpl
  import SectorsServiceImpl

  method CascadeScenario()
  {
    var db := new Database();
    var sectors := new SectorsServiceImpl.SectorsService(db);
    var classes := new ClassesServiceImpl.ClassesService(db);

    var s := sectors.CreateSectors(SectorsDto(None, Some("Informatique")), false);
    assert s == Ok(SectorsDto(Some(1), Some("Informatique")));

    var a := classes.CreateClasse(ClassesDto(None, Some("Classe A"), Some("intro"), Some(1)), false);
    assert a == Ok(ClassesDto(Some(1), Some("Classe A"), Some("intro"), None));

    var b := classes.CreateClasse(ClassesDto(None, Some("Classe B"), Some(""), Some(99)), false);
    assert b == Err(DanglingSector);
    assert db.classes.Keys == {1};

    var same := classes.UpdateClasse(1, ClassesDto(None, Some("New Name"), Some("desc"), Some(1)), false);
    assert same.Ok? && db.classes[1] == ClassesEntity(1, "New Name", "desc", 1);

    var d := sectors.DeleteSectors(1, false);
    assert d == Done;
    var gone := classes.GetClasseById(1);
    assert gone == Err(NotFound);
    var none := classes.GetClassesBySector(1);
    assert none == [];
    var noSector := sectors.GetSectorById(1);
    assert noSector == Err(NotFound);

    var again := sectors.CreateSectors(SectorsDto(None, Some("Gestion")), false);
    assert again == Ok(SectorsDto(Some(2), Some("Gestion")));
  }
}
