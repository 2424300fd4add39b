/** The persisted pet record and the repository's error kinds.
    A row of the single `pets` table is an id (primary key, assigned by the
    store), a name and a status. */
module PetModel {

  datatype Option<+T> = None | Some(value: T)

  /** One row of the `pets` table (the `model.Pets` struct). */
  datatype Pet = Pet(id: int, name: string, status: string)

  /** The two failure kinds a caller of the repository can tell apart:
      the `ErrPetNotFound` sentinel, and every other (wrapped) storage error. */
  datatype RepoError = ErrPetNotFound | StorageError

  datatype Result<+T> = Ok(value: T) | Err(error: RepoError)

  /** The `pets` table, keyed by primary key. */
  type Table = map<int, Pet>

  /** The status the repository writes on insert. */
  const DefaultStatus: string := "available"

  /** The service-level invariant: no persisted pet has an empty name. */
  ghost predicate NamesNonEmpty(t: Table) {
    forall id :: id in t ==> t[id].name != ""
  }
}
