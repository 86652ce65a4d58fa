/** The earlier in-memory class store: a hash map from id to class and an
    atomic id generator starting at 1. It does not look at sectors at all. */
module InMemoryClassesService {
  import opened Errors

  /** The exchanged class value: an id, a name and a description that may be
      null, and the id of its sector. */
  datatype Classes = Classes(id: int, className: Option<string>, description: Option<string>, sectors: int)

  class ClassesService {
    var students: map<int, Classes>
    var idGenerator: int
    /** Every id the generator has handed out, including ones never stored. */
    ghost var issued: set<int>

    /** Every stored class sits under its own id, and every issued id is below
        the generator, so the generator's next value is fresh. */
    ghost predicate Valid()
      reads this
    {
      && 1 <= idGenerator
      && (forall k :: k in issued ==> 1 <= k < idGenerator)
      && (forall k :: k in students ==> k in issued && students[k].id == k)
    }

    /** Construction followed by the post-construction `Init`: two classes,
        ids 2 and 3, both in sector 1; id 1 went to a sector that is built
        and dropped, so the generator stands at 4. */
    constructor ()
      ensures Valid()
      ensures students == map[
        2 := Classes(2, Some("Classe A"), None, 1),
        3 := Classes(3, Some("Classe B"), None, 1)]
      ensures idGenerator == 4
      ensures issued == {1, 2, 3}
    {
      students := map[];
      idGenerator := 1;
      issued := {};
      new;
      Init();
    }

    /** Spends one id on a throw-away sector, then stores two classes of
        sector 1 under the next two ids. */
    method Init()
      requires Valid()
      modifies this
      ensures Valid()
      ensures var a := old(idGenerator) + 1; var b := old(idGenerator) + 2;
        && students == old(students)[a := Classes(a, Some("Classe A"), None, 1)]
                                    [b := Classes(b, Some("Classe B"), None, 1)]
        && idGenerator == old(idGenerator) + 3
        && issued == old(issued) + {old(idGenerator), a, b}
    {
      var sectorId := NextId();  // the "Informatique" sector, never stored
      var id1 := NextId();
      students := students[id1 := Classes(id1, Some("Classe A"), None, 1)];
      var id2 := NextId();
      students := students[id2 := Classes(id2, Some("Classe B"), None, 1)];
    }

    /** The generator's get-and-increment. */
    method NextId() returns (id: int)
      requires Valid()
      modifies this`idGenerator, this`issued
      ensures Valid()
      ensures id == old(idGenerator) && id !in old(issued)
      ensures idGenerator == id + 1 && issued == old(issued) + {id}
    {
      id := idGenerator;
      idGenerator := idGenerator + 1;
      issued := issued + {id};
    }

    /** The stored class under `id`, as stored, or NotFound when the key is
        absent. */
    method GetClassById(id: int) returns (r: Result<Classes>)
      requires Valid()
      ensures r.Err? <==> id !in students
      ensures r.Err? ==> r.error == NotFound
      ensures r.Ok? ==> r.value == students[id] && r.value.id == id
    {
      if id !in students {
        return Err(NotFound);
      }
      r := Ok(students[id]);
    }

    /** Stores the class under the generator's next value, overwriting the
        caller's id; that id was never handed out before. The sector is taken
        as given, unchecked. */
    method CreateClass(classe: Classes) returns (r: Classes)
      requires Valid()
      modifies this
      ensures Valid()
      ensures r == classe.(id := old(idGenerator))
      ensures r.id !in old(issued) && r.id !in old(students)
      ensures students == old(students)[r.id := r]
      ensures idGenerator == old(idGenerator) + 1
      ensures issued == old(issued) + {r.id}
    {
      var id := NextId();
      r := classe.(id := id);
      students := students[id := r];
    }

    /** A copy of the whole map. */
    method ListAllClasses() returns (r: map<int, Classes>)
      requires Valid()
      ensures r == students
      ensures forall k :: k in r ==> r[k].id == k && k < idGenerator
    {
      r := students;
    }

    /** Fails with NotFound when the key is absent; otherwise removes only
        that key. The generator never goes back, so the id is not reused. */
    method DeleteClass(id: int) returns (r: Outcome)
      requires Valid()
      modifies this
      ensures Valid()
      ensures id !in old(students) ==> r == Failed(NotFound) && unchanged(this)
      ensures id in old(students) ==> r == Done && students == old(students) - {id}
      ensures idGenerator == old(idGenerator) && issued == old(issued)
    {
      if id !in students {
        return Failed(NotFound);
      }
      students := students - {id};
      r := Done;
    }
  }
}
