/** The HTML object store (src/repositories/memory-html-object-store.ts): keys
    are immutable, so writing an existing key changes nothing. */
module HtmlObjectStore {
  import opened Basics
  import opened CacheStorageKey

  newtype byte = b: int | 0 <= b < 256

  type Bytes = seq<byte>

  datatype StoredObject = StoredObject(body: Bytes, contentEncoding: Encoding)

  type Objects = map<string, StoredObject>

  datatype StoreError = InvalidKey | AlreadyExists | ProviderError

  /** One putObject: whether it succeeded, and what the store then holds. */
  function Put(m: Objects, key: string, o: StoredObject, ifNotExists: bool, fails: bool)
    : (Result<StoredObject, StoreError>, Objects)
  {
    if ParseKey(key).Err? then (Err(InvalidKey), m)
    else if fails then (Err(ProviderError), m)
    else if key in m then (if ifNotExists then Err(AlreadyExists) else Ok(m[key]), m)
    else (Ok(o), m[key := o])
  }

  function Get(m: Objects, key: string): Option<StoredObject> {
    if key in m then Some(m[key]) else None
  }

  function Delete(m: Objects, key: string, fails: bool): (Result<(), StoreError>, Objects) {
    if fails then (Err(ProviderError), m) else (Ok(()), m - {key})
  }

  class MemoryStore {
    var objects: Objects

    constructor ()
      ensures objects == map[]
    {
      objects := map[];
    }

    method PutObject(key: string, o: StoredObject, ifNotExists: bool, fails: bool)
      returns (r: Result<StoredObject, StoreError>)
      modifies this
      ensures r == if ParseKey(key).Err? then Err(InvalidKey)
                   else if fails then Err(ProviderError)
                   else if key !in old(objects) then Ok(o)
                   else if ifNotExists then Err(AlreadyExists)
                   else Ok(old(objects)[key])
      ensures objects == if r.Ok? && key !in old(objects) then old(objects)[key := o] else old(objects)
      ensures (r, objects) == Put(old(objects), key, o, ifNotExists, fails)
    {
      if ParseKey(key).Err? { return Err(InvalidKey); }
      if fails { return Err(ProviderError); }
      if key in objects {
        if ifNotExists { return Err(AlreadyExists); }
        return Ok(objects[key]);
      }
      objects := objects[key := o];
      r := Ok(o);
    }

    method GetObject(key: string) returns (o: Option<StoredObject>)
      ensures o == Get(objects, key)
    {
      o := if key in objects then Some(objects[key]) else None;
    }

    method DeleteObject(key: string, fails: bool) returns (r: Result<(), StoreError>)
      modifies this
      ensures (r, objects) == Delete(old(objects), key, fails)
    {
      if fails { return Err(ProviderError); }
      objects := objects - {key};
      r := Ok(());
    }
  }
}
