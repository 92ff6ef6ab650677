/** The patient registry (`PatientProvider`): a list of patients with add,
    replace-by-id and remove-by-id, a "current patient" selection, and the
    `"pacientes"` key of `localStorage`, which holds the records in the
    stored shape (`nome`, `genero`). */
module PatientContext {
  import opened JsValues

  /** A patient as the application handles it. */
  datatype Patient = Patient(
    id: string,
    name: string,
    birthdate: Option<string>,
    gender: Option<string>,
    prontuario: Option<string>,
    idade: Option<string>)

  /** A patient as stored under `"pacientes"`. */
  datatype StoredPatient = StoredPatient(
    id: string,
    nome: string,
    genero: Option<string>,
    prontuario: Option<string>,
    idade: Option<string>)

  const PatientsKey: string := "pacientes"

  /** The save conversion: `name` becomes `nome`, `gender` becomes `genero`,
      a missing (or empty) `gender`, `prontuario` or `idade` is written as
      `""`, and `birthdate` is not written at all. */
  function ToStored(p: Patient): (s: StoredPatient)
    ensures s.id == p.id && s.nome == p.name
    ensures Truthy(p.gender) ==> s.genero == p.gender
    ensures !Truthy(p.gender) ==> s.genero == Some("")
    ensures Truthy(p.prontuario) ==> s.prontuario == p.prontuario
    ensures !Truthy(p.prontuario) ==> s.prontuario == Some("")
    ensures Truthy(p.idade) ==> s.idade == p.idade
    ensures !Truthy(p.idade) ==> s.idade == Some("")
  {
    StoredPatient(p.id, p.name, Some(OrElse(p.gender, "")),
                  Some(OrElse(p.prontuario, "")), Some(OrElse(p.idade, "")))
  }

  /** The load conversion: `nome` becomes `name`, `genero` becomes `gender`;
      there is no `birthdate` to read back. */
  function FromStored(s: StoredPatient): (p: Patient)
    ensures p.id == s.id && p.name == s.nome && p.birthdate == None
    ensures p.gender == s.genero && p.prontuario == s.prontuario && p.idade == s.idade
  {
    Patient(s.id, s.nome, None, s.genero, s.prontuario, s.idade)
  }

  function ToStoredAll(ps: seq<Patient>): (r: seq<StoredPatient>)
    ensures |r| == |ps|
    ensures forall k :: 0 <= k < |ps| ==> r[k] == ToStored(ps[k])
  {
    seq(|ps|, k requires 0 <= k < |ps| => ToStored(ps[k]))
  }

  function FromStoredAll(rs: seq<StoredPatient>): (r: seq<Patient>)
    ensures |r| == |rs|
    ensures forall k :: 0 <= k < |rs| ==> r[k] == FromStored(rs[k])
  {
    seq(|rs|, k requires 0 <= k < |rs| => FromStored(rs[k]))
  }

  /** What a save followed by a load makes of a patient: the same `id`,
      `name` and values, with missing optional fields as `""` and no
      `birthdate`. */
  function Normalised(p: Patient): (q: Patient)
    ensures q.id == p.id && q.name == p.name && q.birthdate == None
    ensures Truthy(p.gender) ==> q.gender == p.gender
    ensures Truthy(p.prontuario) ==> q.prontuario == p.prontuario
    ensures Truthy(p.idade) ==> q.idade == p.idade
    ensures !Truthy(p.gender) ==> q.gender == Some("")
    ensures !Truthy(p.prontuario) ==> q.prontuario == Some("")
    ensures !Truthy(p.idade) ==> q.idade == Some("")
  {
    Patient(p.id, p.name, None, Some(OrElse(p.gender, "")),
            Some(OrElse(p.prontuario, "")), Some(OrElse(p.idade, "")))
  }

  /** Loading what was saved gives every patient back normalised, in the
      same order. */
  lemma LoadAfterSave(ps: seq<Patient>)
    ensures FromStoredAll(ToStoredAll(ps)) == seq(|ps|, k requires 0 <= k < |ps| => Normalised(ps[k]))
  {
  }

  /** Saving what was loaded from a save writes the same records again. */
  lemma SaveAfterLoadAfterSave(ps: seq<Patient>)
    ensures ToStoredAll(FromStoredAll(ToStoredAll(ps))) == ToStoredAll(ps)
  {
  }

  /** What the load effect makes of the stored value: the converted records
      when they parse; an empty list when the key is missing, holds the
      empty string, or does not parse. */
  function Loaded(saved: Storage<seq<StoredPatient>>): (ps: seq<Patient>)
    ensures PatientsKey in saved && saved[PatientsKey].Json? ==>
      ps == FromStoredAll(saved[PatientsKey].value)
    ensures !(PatientsKey in saved && saved[PatientsKey].Json?) ==> ps == []
  {
    if PatientsKey in saved then
      match saved[PatientsKey]
      case Json(records) => FromStoredAll(records)
      case EmptyText => []
      case Unparseable => []
    else []
  }

  /** `prev.map(p => p.id === id ? { ...patient, id } : p)`. */
  function Updated(ps: seq<Patient>, id: string, patient: Patient): (r: seq<Patient>)
    ensures |r| == |ps|
    ensures forall k :: 0 <= k < |ps| && ps[k].id == id ==> r[k] == patient.(id := id)
    ensures forall k :: 0 <= k < |ps| && ps[k].id != id ==> r[k] == ps[k]
  {
    seq(|ps|, k requires 0 <= k < |ps| => if ps[k].id == id then patient.(id := id) else ps[k])
  }

  /** The list of ids, in order. */
  function IdList(ps: seq<Patient>): (r: seq<string>)
    ensures |r| == |ps| && forall k :: 0 <= k < |ps| ==> r[k] == ps[k].id
  {
    seq(|ps|, k requires 0 <= k < |ps| => ps[k].id)
  }

  /** An update never changes which ids the list holds, nor where. */
  lemma UpdatedKeepsIds(ps: seq<Patient>, id: string, patient: Patient)
    ensures IdList(Updated(ps, id, patient)) == IdList(ps)
  {
  }

  /** Applying the same update twice is the same as applying it once. */
  lemma UpdatedIdempotent(ps: seq<Patient>, id: string, patient: Patient)
    ensures Updated(Updated(ps, id, patient), id, patient) == Updated(ps, id, patient)
  {
  }

  /** `prev.filter(p => p.id !== id)`. */
  function Removed(ps: seq<Patient>, id: string): (r: seq<Patient>)
    ensures |r| <= |ps|
    ensures forall k :: 0 <= k < |r| ==> r[k].id != id
  {
    if ps == [] then []
    else if ps[|ps| - 1].id == id then Removed(ps[..|ps| - 1], id)
    else Removed(ps[..|ps| - 1], id) + [ps[|ps| - 1]]
  }

  /** Removal keeps exactly the patients with another id. */
  lemma {:induction false} RemovedMembers(ps: seq<Patient>, id: string, q: Patient)
    ensures q in Removed(ps, id) <==> q in ps && q.id != id
  {
    if ps != [] {
      var init := ps[..|ps| - 1];
      RemovedMembers(init, id, q);
      assert ps == init + [ps[|ps| - 1]];
    }
  }

  /** Removal works piecewise, so the kept patients stay in their original
      relative order. */
  lemma {:induction false} RemovedConcat(a: seq<Patient>, b: seq<Patient>, id: string)
    ensures Removed(a + b, id) == Removed(a, id) + Removed(b, id)
  {
    if b == [] {
      assert a + b == a;
    } else {
      var init, last := b[..|b| - 1], b[|b| - 1];
      RemovedConcat(a, init, id);
      assert (a + b)[..|a + b| - 1] == a + init;
      assert (a + b)[|a + b| - 1] == last;
      if last.id != id {
        var x, y := Removed(a, id), Removed(init, id);
        assert Removed(a + b, id) == (x + y) + [last];
        assert (x + y) + [last] == x + (y + [last]);
      }
    }
  }

  /** Removing an id no patient has changes nothing. */
  lemma {:induction false} RemovedAbsent(ps: seq<Patient>, id: string)
    requires forall k :: 0 <= k < |ps| ==> ps[k].id != id
    ensures Removed(ps, id) == ps
  {
    if ps != [] {
      RemovedAbsent(ps[..|ps| - 1], id);
    }
  }

  /** Exactly the patients with that id are dropped. */
  lemma {:induction false} RemovedCount(ps: seq<Patient>, id: string)
    ensures |Removed(ps, id)| == |ps| - CountWithId(ps, id)
  {
    if ps != [] {
      RemovedCount(ps[..|ps| - 1], id);
    }
  }

  /** How many patients have the given id. */
  function CountWithId(ps: seq<Patient>, id: string): (n: nat)
    ensures n <= |ps|
    ensures n == 0 <==> forall k :: 0 <= k < |ps| ==> ps[k].id != id
  {
    if ps == [] then 0
    else CountWithId(ps[..|ps| - 1], id) + (if ps[|ps| - 1].id == id then 1 else 0)
  }

  /** `PatientProvider`: the `patients` and `currentPatient` state cells
      and, standing for `localStorage`, the stored values by key. */
  class PatientProvider {
    var patients: seq<Patient>
    var currentPatient: Option<Patient>
    var storage: Storage<seq<StoredPatient>>

    /** Whenever there are patients, the stored list is their stored form.
        An empty list is never written, so then the store may hold
        anything. */
    ghost predicate Valid()
      reads this
    {
      |patients| > 0 ==> PatientsKey in storage && storage[PatientsKey] == Json(ToStoredAll(patients))
    }

    /** Mounting the provider: the load effect, then the save effect. */
    constructor (saved: Storage<seq<StoredPatient>>)
      ensures Valid()
      ensures patients == Loaded(saved) && currentPatient == None
      ensures storage == if |patients| > 0 then saved[PatientsKey := Json(ToStoredAll(patients))] else saved
    {
      patients := [];
      currentPatient := None;
      storage := saved;
      new;
      Load();
      Persist();
    }

    /** The load effect. */
    method Load()
      modifies this`patients
      ensures PatientsKey in storage && storage[PatientsKey].Json? ==>
        patients == FromStoredAll(storage[PatientsKey].value)
      ensures !(PatientsKey in storage && storage[PatientsKey].Json?) ==> patients == old(patients)
    {
      if PatientsKey in storage {
        match storage[PatientsKey]
        case Json(records) =>
          patients := FromStoredAll(records);
        case EmptyText =>
        case Unparseable =>
      }
    }

    /** The save effect: writes the stored form of the list, but only when
        the list is not empty. */
    method Persist()
      modifies this`storage
      ensures Valid()
      ensures storage == if |patients| > 0 then old(storage)[PatientsKey := Json(ToStoredAll(patients))]
                         else old(storage)
    {
      if |patients| > 0 {
        storage := storage[PatientsKey := Json(ToStoredAll(patients))];
      }
    }

    /** `setCurrentPatient`. */
    method SetCurrentPatient(p: Option<Patient>)
      modifies this`currentPatient
      ensures currentPatient == p
    {
      currentPatient := p;
    }

    /** `addPatient`: appends the patient. */
    method AddPatient(patient: Patient)
      requires Valid()
      modifies this
      ensures Valid()
      ensures patients == old(patients) + [patient]
      ensures currentPatient == old(currentPatient)
      ensures storage == old(storage)[PatientsKey := Json(ToStoredAll(patients))]
    {
      patients := patients + [patient];
      Persist();
    }

    /** `updatePatient`: every patient with that id is replaced by the new
        record re-stamped with the id; the current patient is replaced only
        when it has that id. */
    method UpdatePatient(id: string, patient: Patient)
      requires Valid()
      modifies this
      ensures Valid()
      ensures patients == Updated(old(patients), id, patient)
      ensures IdList(patients) == IdList(old(patients))
      ensures old(currentPatient).Some? && old(currentPatient).value.id == id ==>
        currentPatient == Some(patient.(id := id))
      ensures !(old(currentPatient).Some? && old(currentPatient).value.id == id) ==>
        currentPatient == old(currentPatient)
      ensures storage == if |patients| > 0 then old(storage)[PatientsKey := Json(ToStoredAll(patients))]
                         else old(storage)
    {
      UpdatedKeepsIds(patients, id, patient);
      patients := Updated(patients, id, patient);
      if currentPatient.Some? && currentPatient.value.id == id {
        currentPatient := Some(patient.(id := id));
      }
      Persist();
    }

    /** `removePatient`: drops every patient with that id; the current
        patient becomes none exactly when it had that id. Removing the last
        patient writes nothing, so the store keeps the last list saved. */
    method RemovePatient(id: string)
      requires Valid()
      modifies this
      ensures Valid()
      ensures patients == Removed(old(patients), id)
      ensures old(currentPatient).Some? && old(currentPatient).value.id == id ==> currentPatient == None
      ensures !(old(currentPatient).Some? && old(currentPatient).value.id == id) ==>
        currentPatient == old(currentPatient)
      ensures patients == [] ==> storage == old(storage)
      ensures storage == if |patients| > 0 then old(storage)[PatientsKey := Json(ToStoredAll(patients))]
                         else old(storage)
    {
      patients := Removed(patients, id);
      if currentPatient.Some? && currentPatient.value.id == id {
        currentPatient := None;
      }
      Persist();
    }
  }

  /** The empty-list quirk: after the only patient is removed, a remount
      loads that patient again from the store. */
  method RemoveLastThenRemount(p: Patient) returns (ps: seq<Patient>)
    ensures ps == [Normalised(p)]
  {
    var registry := new PatientProvider(map[]);
    registry.AddPatient(p);
    registry.RemovePatient(p.id);
    assert registry.patients == [];
    var again := new PatientProvider(registry.storage);
    LoadAfterSave([p]);
    ps := again.patients;
  }
}
