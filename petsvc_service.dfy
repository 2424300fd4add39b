/** The pet use cases of usecase/petsvc/service.go (`petService`): validate
    the request, call the repository, and turn every repository outcome into
    exactly one typed response. The Go error result is always nil: it is the
    `err` out-parameter here, and every contract says it is `None`.
    The repository behind this copy lives in infra/sqlite, which is not part
    of this model; the SQL repository of internal/repo/pet.go stands for it. */
module PetSvc {
  import opened PetModel
  import opened PetRepository
  import opened PetSchema

  class PetService {
    /** The injected repository (the `petRepo` interface). */
    const repo: PetRepo

    /** `NewService(repo)`. */
    constructor (repo: PetRepo)
      ensures this.repo == repo
    {
      this.repo := repo;
    }

    /** `POST /pets`: an empty name is refused before the repository is
        touched; otherwise the store assigns the id and the default status. */
    method AddPet(req: ApiPet, storeFails: bool) returns (res: AddPetRes, err: Option<RepoError>)
      requires repo.Valid()
      modifies repo
      ensures repo.Valid() && err == None
      ensures res.AddPetBadRequest? <==> req.name == ""
      ensures res.AddPetBadRequest? ==> res.code == StatusBadRequest && unchanged(repo)
      ensures res.AddPetInternalServerError? <==> req.name != "" && storeFails
      ensures res.AddPetInternalServerError? ==>
                res.code == StatusInternalServerError && repo.table == old(repo.table)
      ensures res.AddPetOK? ==>
                && res.pet.id.Some?
                && res.pet.id.value !in old(repo.table)
                && repo.table == old(repo.table)[res.pet.id.value := Pet(res.pet.id.value, req.name, DefaultStatus)]
                && res.pet == ToApiPet(repo.table[res.pet.id.value])
      ensures NamesNonEmpty(old(repo.table)) ==> NamesNonEmpty(repo.table)
    {
      err := None;
      if req.name == "" {
        return AddPetBadRequest(StatusBadRequest), err;
      }
      var added := repo.Add(req.name, storeFails);
      if added.Err? {
        return AddPetInternalServerError(StatusInternalServerError), err;
      }
      var pet := added.value;
      res := AddPetOK(ApiPet(Some(pet.id), pet.name, Some(pet.status)));
    }

    /** `DELETE /pets/{id}`: the not-found sentinel becomes 404, any other
        repository error 500. */
    method DeletePet(params: PetIdParams, storeFails: bool) returns (res: DeletePetRes, err: Option<RepoError>)
      requires repo.Valid()
      modifies repo
      ensures repo.Valid() && err == None
      ensures res.DeletePetOK? <==> !storeFails && params.petId in old(repo.table)
      ensures res.DeletePetNotFound? <==> !storeFails && params.petId !in old(repo.table)
      ensures res.DeletePetInternalServerError? <==> storeFails
      ensures res.DeletePetNotFound? ==> res.code == StatusNotFound
      ensures res.DeletePetInternalServerError? ==> res.code == StatusInternalServerError
      ensures repo.table == if res.DeletePetOK? then old(repo.table) - {params.petId} else old(repo.table)
      ensures NamesNonEmpty(old(repo.table)) ==> NamesNonEmpty(repo.table)
    {
      err := None;
      var e := repo.Delete(params.petId, storeFails);
      if e.Some? {
        if e.value == ErrPetNotFound {
          return DeletePetNotFound(StatusNotFound), err;
        }
        return DeletePetInternalServerError(StatusInternalServerError), err;
      }
      res := DeletePetOK;
    }

    /** `GET /pets/{id}`: the stored row, 404 for a missing id, 500 for any
        other repository error. Reads only. */
    method GetPetById(params: PetIdParams, storeFails: bool) returns (res: GetPetByIdRes, err: Option<RepoError>)
      requires repo.Valid()
      ensures err == None
      ensures res.GetPetByIdOK? <==> !storeFails && params.petId in repo.table
      ensures res.GetPetByIdNotFound? <==> !storeFails && params.petId !in repo.table
      ensures res.GetPetByIdInternalServerError? <==> storeFails
      ensures res.GetPetByIdOK? ==> res.pet == ToApiPet(repo.table[params.petId])
      ensures res.GetPetByIdNotFound? ==> res.code == StatusNotFound
      ensures res.GetPetByIdInternalServerError? ==> res.code == StatusInternalServerError
    {
      err := None;
      var got := repo.GetByID(params.petId, storeFails);
      if got.Err? {
        if got.error == ErrPetNotFound {
          return GetPetByIdNotFound(StatusNotFound), err;
        }
        return GetPetByIdInternalServerError(StatusInternalServerError), err;
      }
      var pet := got.value;
      res := GetPetByIdOK(ApiPet(Some(pet.id), pet.name, Some(pet.status)));
    }

    /** `PUT /pets/{id}`: a name that is unset or empty is refused before the
        repository is touched; otherwise the row's name and status are
        overwritten, an unset status by the zero value "". Success is the
        nil response. */
    method UpdatePet(params: UpdatePetParams, storeFails: bool) returns (res: UpdatePetRes, err: Option<RepoError>)
      requires repo.Valid()
      modifies repo
      ensures repo.Valid() && err == None
      ensures res.UpdatePetBadRequest? <==> params.name.None? || params.name.value == ""
      ensures res.UpdatePetBadRequest? ==> res.code == StatusBadRequest && unchanged(repo)
      ensures res.UpdatePetInternalServerError? <==> params.name.Some? && params.name.value != "" && storeFails
      ensures res.UpdatePetNotFound? <==>
                params.name.Some? && params.name.value != "" && !storeFails && params.petId !in old(repo.table)
      ensures res.UpdatePetNil? <==>
                params.name.Some? && params.name.value != "" && !storeFails && params.petId in old(repo.table)
      ensures res.UpdatePetInternalServerError? ==> res.code == StatusInternalServerError
      ensures res.UpdatePetNotFound? ==> res.code == StatusNotFound
      ensures repo.table == if res.UpdatePetNil?
                            then old(repo.table)[params.petId := Pet(params.petId, params.name.value, ValueOrZero(params.status))]
                            else old(repo.table)
      ensures NamesNonEmpty(old(repo.table)) ==> NamesNonEmpty(repo.table)
    {
      err := None;
      if params.name.None? || params.name.value == "" {
        return UpdatePetBadRequest(StatusBadRequest), err;
      }
      var e := repo.Update(Pet(params.petId, params.name.value, ValueOrZero(params.status)), storeFails);
      if e.Some? {
        if e.value == ErrPetNotFound {
          return UpdatePetNotFound(StatusNotFound), err;
        }
        return UpdatePetInternalServerError(StatusInternalServerError), err;
      }
      res := UpdatePetNil;
    }

    /** `GET /pets`: the unfiltered listing, each row mapped to the schema's
        Pet at the same position, or 500. `rows` is the repository's list
        (ghost: it only names what the payload was built from). Reads only. */
    method ListPets(storeFails: bool) returns (res: ListPetsRes, err: Option<RepoError>, ghost rows: seq<Pet>)
      requires repo.Valid()
      ensures err == None
      ensures res.ListPetsInternalServerError? <==> storeFails
      ensures res.ListPetsInternalServerError? ==> res.code == StatusInternalServerError
      ensures res.ListPetsOKApplicationJSON? ==>
                && IsListing(rows, repo.table, None)
                && |res.pets| == |rows|
                && (forall i :: 0 <= i < |rows| ==> res.pets[i] == ToApiPet(rows[i]))
      ensures res.ListPetsOKApplicationJSON? ==> RendersTable(res.pets, repo.table)
    {
      err := None;
      rows := [];
      var listed := repo.List(None, storeFails);
      if listed.Err? {
        return ListPetsInternalServerError(StatusInternalServerError), err, rows;
      }
      var pets := listed.value;
      rows := pets;
      var result := new ApiPet[|pets|];
      for i := 0 to |pets|
        invariant forall k :: 0 <= k < i ==> result[k] == ToApiPet(pets[k])
      {
        result[i] := ApiPet(Some(pets[i].id), pets[i].name, Some(pets[i].status));
      }
      ListingRendersTable(pets, repo.table, result[..]);
      res := ListPetsOKApplicationJSON(result[..]);
    }
  }
}
