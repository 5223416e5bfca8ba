/**
 * The persistent key/value store the hosting runtime hands to the breaker
 * (Mule's `ObjectStore<Integer>`). It is shared by reference: every breaker
 * obtains the same default persistent store. Its operations follow Mule's
 * contract: `retrieve` and `remove` of an absent key raise
 * `ObjectDoesNotExistException`, `store` of a present key raises
 * `ObjectAlreadyExistsException`, and while the store is unreachable every
 * operation raises an `ObjectStoreException`.
 */
module ObjectStores {
  import opened Wrappers
  import opened JavaInt

  datatype StoreError = StoreUnavailable | ObjectDoesNotExist | ObjectAlreadyExists

  class ObjectStore {
    var entries: map<string, int32>
    /** False while the store is unreachable (an I/O or serialisation failure on every access). */
    var available: bool

    constructor (entries: map<string, int32>, available: bool)
      ensures this.entries == entries && this.available == available
    {
      this.entries := entries;
      this.available := available;
    }

    method Contains(key: string) returns (r: Result<bool, StoreError>)
      ensures available ==> r == Success(key in entries)
      ensures !available ==> r == Failure(StoreUnavailable)
    {
      if !available {
        return Failure(StoreUnavailable);
      }
      r := Success(key in entries);
    }

    method Retrieve(key: string) returns (r: Result<int32, StoreError>)
      ensures !available ==> r == Failure(StoreUnavailable)
      ensures available && key !in entries ==> r == Failure(ObjectDoesNotExist)
      ensures available && key in entries ==> r == Success(entries[key])
    {
      if !available {
        return Failure(StoreUnavailable);
      }
      if key !in entries {
        return Failure(ObjectDoesNotExist);
      }
      r := Success(entries[key]);
    }

    /** Removes the key and returns the value it held. */
    method Remove(key: string) returns (r: Result<int32, StoreError>)
      modifies this`entries
      ensures !available ==> r == Failure(StoreUnavailable)
      ensures available && key !in old(entries) ==> r == Failure(ObjectDoesNotExist)
      ensures available && key in old(entries) ==> r == Success(old(entries)[key])
      ensures entries == if r.Success? then old(entries) - {key} else old(entries)
    {
      if !available {
        return Failure(StoreUnavailable);
      }
      if key !in entries {
        return Failure(ObjectDoesNotExist);
      }
      r := Success(entries[key]);
      entries := entries - {key};
    }

    /** Adds a key that is not yet present. */
    method Store(key: string, value: int32) returns (r: Result<(), StoreError>)
      modifies this`entries
      ensures !available ==> r == Failure(StoreUnavailable)
      ensures available && key in old(entries) ==> r == Failure(ObjectAlreadyExists)
      ensures available && key !in old(entries) ==> r == Success(())
      ensures entries == if r.Success? then old(entries)[key := value] else old(entries)
    {
      if !available {
        return Failure(StoreUnavailable);
      }
      if key in entries {
        return Failure(ObjectAlreadyExists);
      }
      r := Success(());
      entries := entries[key := value];
    }
  }
}
