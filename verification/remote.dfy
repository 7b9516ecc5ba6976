/**
 * The remote collaborators of the listing pages, as plain state: the
 * session provider's current identity, the `room-images` blob bucket, the
 * `room_listings` table, and the trace of calls a handler makes to them.
 */
module Remote {
  import opened Wrappers
  import opened Supabase

  newtype byte = b: int | 0 <= b < 256

  /** A locally selected image file: its name and its contents. */
  datatype File = File(name: string, bytes: seq<byte>)

  /** The `room-images` bucket: object name to stored bytes. */
  type BlobStore = map<string, seq<byte>>

  /** The `room_listings` table, in storage order. */
  type Table = seq<RoomListing>

  /** The session provider's answer to `auth.getUser()`. */
  type Session = Option<OwnerId>

  /** One request sent to a remote collaborator. */
  datatype Call =
    | GetUser                       // auth.getUser()
    | Put(name: string)             // storage.from('room-images').upload(name, file)
    | Insert(row: RoomListing)      // from('room_listings').insert([row])
    | SelectByOwner(owner: OwnerId) // from('room_listings').select('*').eq('owner_id', owner).order(...)
    | DeleteById(id: string)        // from('room_listings').delete().eq('id', id)

  /** Why a remote step failed, as the handlers report it. */
  datatype Error =
    | NotAuthenticated           // uploadImages found no user
    | UploadRejected(name: string) // the bucket refused the object
    | Rejected(message: string)  // the table refused the request

  /** True when the trace contains a request that reaches the blob store or the table. */
  predicate TouchesStores(calls: seq<Call>) {
    exists i :: 0 <= i < |calls| && !calls[i].GetUser?
  }

  /** The path under which the storage service publishes an object of the bucket. */
  const PublicUrlPrefix: string := "/storage/v1/object/public/room-images/"

  /** `getPublicUrl(name)`: a pure function of the object name. */
  function PublicUrl(name: string): (url: string)
    ensures |url| == |PublicUrlPrefix| + |name| && url[|PublicUrlPrefix|..] == name
  {
    PublicUrlPrefix + name
  }

  /** Distinct object names are published under distinct URLs. */
  lemma PublicUrlInjective(a: string, b: string)
    requires PublicUrl(a) == PublicUrl(b)
    ensures a == b
  {
    assert a == PublicUrl(a)[|PublicUrlPrefix|..];
  }

  /**
   * The row the table keeps for an accepted insert: the store fills in `id`
   * and the creation instant; `updated_at` is taken to equal `created_at` on
   * insert.
   */
  function Stored(row: RoomListing, id: string, at: Timestamp): RoomListing {
    row.(id := Some(id), created_at := Some(at), updated_at := Some(at))
  }
}
