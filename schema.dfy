/** The request and response shapes the OpenAPI generator produces for the
    pet API (package `api` in one revision, `oas` in the other: the same
    shapes). A response variant carries only its code; message text is not
    modelled. */
module PetSchema {
  import opened PetModel
  import opened PetRepository

  const StatusBadRequest: int := 400
  const StatusNotFound: int := 404
  const StatusInternalServerError: int := 500

  /** The schema's Pet: optional id, name, optional status. */
  datatype ApiPet = ApiPet(id: Option<int>, name: string, status: Option<string>)

  /** Path parameter of the `/pets/{id}` routes. */
  datatype PetIdParams = PetIdParams(petId: int)

  /** `PUT /pets/{id}`: the path id and two optional query fields. */
  datatype UpdatePetParams = UpdatePetParams(petId: int, name: Option<string>, status: Option<string>)

  datatype AddPetRes =
    | AddPetOK(pet: ApiPet)
    | AddPetBadRequest(code: int)
    | AddPetInternalServerError(code: int)

  datatype DeletePetRes =
    | DeletePetOK
    | DeletePetNotFound(code: int)
    | DeletePetInternalServerError(code: int)

  datatype GetPetByIdRes =
    | GetPetByIdOK(pet: ApiPet)
    | GetPetByIdNotFound(code: int)
    | GetPetByIdInternalServerError(code: int)

  /** `UpdatePetNil` is the nil response the service returns on success. */
  datatype UpdatePetRes =
    | UpdatePetNil
    | UpdatePetBadRequest(code: int)
    | UpdatePetNotFound(code: int)
    | UpdatePetInternalServerError(code: int)

  datatype ListPetsRes =
    | ListPetsOKApplicationJSON(pets: seq<ApiPet>)
    | ListPetsInternalServerError(code: int)

  /** A stored row as the schema's Pet (the `Pet{ID, Name, Status}`
      literal of the service): every optional field is set. */
  function ToApiPet(p: Pet): (a: ApiPet)
    ensures a.id.Some? && a.status.Some?
  {
    ApiPet(Some(p.id), p.name, Some(p.status))
  }

  /** The rendering loses nothing: the row can be read back from it. */
  lemma ToApiPetInjective(p: Pet, q: Pet)
    ensures ToApiPet(p) == ToApiPet(q) ==> p == q
  {
  }

  /** The value an optional schema field holds: what was sent, or the zero
      value "" when the field was not set. An unset field and a field set to
      "" are therefore the same to the repository. */
  function ValueOrZero(o: Option<string>): (v: string)
    ensures o.Some? ==> v == o.value
    ensures v == "" <==> o.None? || o.value == ""
  {
    match o
    case Some(v) => v
    case None => ""
  }

  /** `out` is the table `t` rendered as schema Pets: one entry per row,
      each carrying that row's id, name and status. */
  ghost predicate RendersTable(out: seq<ApiPet>, t: Table) {
    && |out| == |t|
    && (forall i :: 0 <= i < |out| ==>
          out[i].id.Some? && out[i].id.value in t && out[i] == ToApiPet(t[out[i].id.value]))
    && (forall i, j :: 0 <= i < j < |out| ==> out[i].id != out[j].id)
  }

  /** Mapping an unfiltered listing element by element renders the table. */
  lemma {:induction false} ListingRendersTable(rows: seq<Pet>, t: Table, out: seq<ApiPet>)
    requires IsListing(rows, t, None)
    requires |out| == |rows| && forall i :: 0 <= i < |rows| ==> out[i] == ToApiPet(rows[i])
    ensures RendersTable(out, t)
  {
    ListingCount(rows, t, None);
    UnfilteredSelectsAll(t);
    assert |t.Keys| == |t|;
    forall i, j | 0 <= i < j < |out| ensures out[i].id != out[j].id {
      assert rows[i].id != rows[j].id;
    }
  }

  /** A rendering leaves out no row: every stored pet appears in it. */
  lemma {:induction false} RenderedRowsCover(out: seq<ApiPet>, t: Table, id: int)
    requires RendersTable(out, t)
    requires id in t
    ensures exists i :: 0 <= i < |out| && out[i] == ToApiPet(t[id])
  {
    var shown := set i | 0 <= i < |out| :: out[i].id.value;
    assert shown <= t.Keys;
    RenderedIdsCount(out, |out|);
    var missing := t.Keys - shown;
    assert t.Keys == shown + missing && shown !! missing;
    assert |missing| == 0;
    assert id in shown;
  }

  /** The first `n` entries of a rendering show `n` distinct ids. */
  lemma {:induction false} RenderedIdsCount(out: seq<ApiPet>, n: nat)
    requires n <= |out|
    requires forall i :: 0 <= i < |out| ==> out[i].id.Some?
    requires forall i, j :: 0 <= i < j < |out| ==> out[i].id != out[j].id
    ensures |set i | 0 <= i < n :: out[i].id.value| == n
  {
    if n > 0 {
      RenderedIdsCount(out, n - 1);
      var before := set i | 0 <= i < n - 1 :: out[i].id.value;
      assert (set i | 0 <= i < n :: out[i].id.value) == before + {out[n - 1].id.value};
      assert out[n - 1].id.value !in before;
    }
  }
}
