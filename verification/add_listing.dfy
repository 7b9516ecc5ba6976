/**
 * The add-listing page: the draft the form edits (`formData` and the pending
 * `imageFiles`), selecting and removing pending files, and submitting, which
 * checks the required fields and the session, uploads the files and inserts
 * the new row.
 */
module AddListing {
  import opened Wrappers
  import opened Supabase
  import opened Remote
  import opened ObjectNames
  import opened Uploads

  /** The most pending files the page accepts. */
  const MaxImages: nat := 10

  /**
   * `formData`, a `Partial<RoomListing>`: the text fields and the price may
   * be undefined; the three selects always hold one of their options.
   */
  datatype FormData = FormData(
    owner_id: Option<OwnerId>,
    title: Option<string>,
    location: Option<string>,
    price: Option<real>,
    property_type: PropertyType,
    tenant_type: TenantType,
    owner_type: OwnerType,
    contact_number: Option<string>,
    description: Option<string>,
    images: seq<string>
  )

  /** The page's state: the form and the files chosen but not yet uploaded. */
  datatype Draft = Draft(form: FormData, files: seq<File>)

  /** JavaScript truthiness of an optional string: defined and not empty. */
  predicate Truthy(s: Option<string>) {
    s.Some? && s.value != ""
  }

  /** `x || fallback` for an optional string. */
  function OrText(s: Option<string>, fallback: string): string {
    if Truthy(s) then s.value else fallback
  }

  /** `x || fallback` for an optional number: undefined and zero are falsy. */
  function OrNumber(p: Option<real>, fallback: real): real {
    if p.Some? && p.value != 0.0 then p.value else fallback
  }

  /** The draft the page starts from. */
  function Fresh(): (d: Draft)
    ensures d.form.title == Some("") && d.form.location == Some("")
    ensures d.form.contact_number == Some("") && d.form.description == Some("")
    ensures d.form.price == Some(0.0)
    ensures d.form.property_type == OneBhk && PropertyTypeText(d.form.property_type) == "1 BHK"
    ensures d.form.tenant_type == Bachelor && TenantTypeText(d.form.tenant_type) == "Bachelor"
    ensures d.form.owner_type == DirectOwner && OwnerTypeText(d.form.owner_type) == "Direct Owner"
    ensures d.form.images == [] && d.files == [] && d.form.owner_id.None?
  {
    Draft(FormData(None, Some(""), Some(""), Some(0.0), OneBhk, Bachelor, DirectOwner, Some(""), Some(""), []), [])
  }

  /**
   * `handleImageSelect`: a selection that would take the pending files past
   * the cap is refused and changes nothing; otherwise the chosen files follow
   * the ones already pending, in the order chosen.
   */
  function SelectImages(d: Draft, picked: seq<File>): (r: Draft)
    ensures r.form == d.form
    ensures |d.files| + |picked| > MaxImages ==> r.files == d.files
    ensures |d.files| + |picked| <= MaxImages ==>
      |r.files| == |d.files| + |picked| && r.files[..|d.files|] == d.files && r.files[|d.files|..] == picked
    ensures |d.files| <= MaxImages ==> |r.files| <= MaxImages
  {
    if |picked| + |d.files| > MaxImages then d
    else d.(files := d.files + picked)
  }

  /**
   * `prev.filter((_, i) => i !== index)` over `files` whose first element sits
   * at position `offset` of the whole list.
   */
  function WithoutPosition(files: seq<File>, index: int, offset: nat): (r: seq<File>)
    ensures offset <= index < offset + |files| ==>
      r == files[..index - offset] + files[index - offset + 1..]
    ensures !(offset <= index < offset + |files|) ==> r == files
    decreases |files|
  {
    if |files| == 0 then []
    else (if index == offset then [] else [files[0]]) + WithoutPosition(files[1..], index, offset + 1)
  }

  /**
   * `removeImage(index)`: exactly the pending file at `index` goes, the
   * others keep their order; an index outside the list changes nothing.
   */
  function RemoveImage(d: Draft, index: int): (r: Draft)
    ensures r.form == d.form
    ensures 0 <= index < |d.files| ==>
      |r.files| == |d.files| - 1
      && r.files[..index] == d.files[..index]
      && r.files[index..] == d.files[index + 1..]
    ensures !(0 <= index < |d.files|) ==> r.files == d.files
  {
    d.(files := WithoutPosition(d.files, index, 0))
  }

  /** The user's actions on the pending files. */
  datatype Action = Pick(files: seq<File>) | Unpick(index: int)

  function Apply(d: Draft, a: Action): Draft {
    match a
    case Pick(files) => SelectImages(d, files)
    case Unpick(index) => RemoveImage(d, index)
  }

  function ApplyAll(d: Draft, actions: seq<Action>): Draft
    decreases |actions|
  {
    if |actions| == 0 then d else ApplyAll(Apply(d, actions[0]), actions[1..])
  }

  /** Whatever the user picks and removes, never more than ten files are pending. */
  lemma {:induction false} PendingNeverExceedsCap(d: Draft, actions: seq<Action>)
    requires |d.files| <= MaxImages
    ensures |ApplyAll(d, actions).files| <= MaxImages
    ensures ApplyAll(d, actions).form == d.form
    decreases |actions|
  {
    if |actions| > 0 {
      PendingNeverExceedsCap(Apply(d, actions[0]), actions[1..]);
    }
  }

  /** The submit gate: title, location and contact number are all truthy. */
  predicate RequiredFilled(form: FormData) {
    Truthy(form.title) && Truthy(form.location) && Truthy(form.contact_number)
  }

  /** `listingData`: the row the page asks the table to insert. */
  function ListingData(owner: OwnerId, form: FormData, urls: seq<string>): (row: RoomListing)
    requires RequiredFilled(form)
    ensures row.owner_id == owner && row.images == urls
    ensures row.id.None? && row.created_at.None? && row.updated_at.None?
    ensures Some(row.title) == form.title && Some(row.location) == form.location
    ensures Some(row.contact_number) == form.contact_number
    ensures row.title != "" && row.location != "" && row.contact_number != ""
    ensures row.property_type == form.property_type && row.tenant_type == form.tenant_type
    ensures row.owner_type == form.owner_type
    ensures form.price.None? ==> row.price == 0.0
    ensures form.price.Some? ==> row.price == form.price.value
    ensures form.description.None? ==> row.description == Some("")
    ensures form.description.Some? ==> row.description == form.description
  {
    RoomListing(
      id := None,
      owner_id := owner,
      title := form.title.value,
      location := form.location.value,
      price := OrNumber(form.price, 0.0),
      property_type := form.property_type,
      tenant_type := form.tenant_type,
      owner_type := form.owner_type,
      contact_number := form.contact_number.value,
      images := urls,
      description := Some(OrText(form.description, "")),
      created_at := None,
      updated_at := None)
  }

  /** The table's answer to the insert: the id and creation time it assigned, or an error. */
  datatype InsertReply = Accepted(id: string, at: Timestamp) | Refused(message: string)

  /** How a submit ends. */
  datatype Outcome =
    | MissingFields         // "Please fill in all required fields"
    | LoginRequired         // "Please login to continue", then to the login page
    | Failed(error: Error)  // "Failed to add listing: ..."
    | Added(row: RoomListing)

  datatype Submission = Submission(outcome: Outcome, blobs: BlobStore, rows: Table, calls: seq<Call>)

  /**
   * `handleSubmit`: the required-field gate, the session lookup, the uploads,
   * then the insert. The draft itself is never changed, whatever happens.
   */
  function Submit(d: Draft, session: Session, blobs: BlobStore, rows: Table,
                  attempts: seq<Attempt>, reply: InsertReply): (r: Submission)
    requires |attempts| == |d.files|
    ensures r.outcome == MissingFields <==> !RequiredFilled(d.form)
    ensures r.outcome == MissingFields ==> r.calls == [] && r.blobs == blobs && r.rows == rows
    ensures r.outcome == LoginRequired <==> RequiredFilled(d.form) && session.None?
    ensures r.outcome == LoginRequired ==> r.calls == [GetUser] && r.blobs == blobs && r.rows == rows
    ensures !r.outcome.Added? ==> r.rows == rows
    ensures r.outcome.Added? <==>
      RequiredFilled(d.form) && session.Some? && FirstRefused(attempts) == |d.files| && reply.Accepted?
    ensures r.outcome.Added? ==>
      && r.outcome.row.owner_id == session.value
      && r.outcome.row.images == Urls(Names(session.value, d.files, attempts))
      && r.rows == rows + [Stored(r.outcome.row, reply.id, reply.at)]
    ensures RequiredFilled(d.form) && session.Some? ==>
      var k := FirstRefused(attempts); var names := Names(session.value, d.files, attempts);
      r.blobs == WriteAll(blobs, names[..k], d.files[..k])
    ensures RequiredFilled(d.form) && session.Some? && FirstRefused(attempts) == |d.files| && reply.Refused? ==>
      && r.outcome == Failed(Rejected(reply.message))
      && r.blobs == WriteAll(blobs, Names(session.value, d.files, attempts), d.files)
  {
    if !RequiredFilled(d.form) then Submission(MissingFields, blobs, rows, [])
    else match session
      case None => Submission(LoginRequired, blobs, rows, [GetUser])
      case Some(owner) =>
        var up := UploadImages(session, d.files, attempts, blobs);
        var calls := [GetUser] + up.calls;
        match up.urls
        case Failure(e) => Submission(Failed(e), up.blobs, rows, calls)
        case Success(urls) =>
          var row := ListingData(owner, d.form, urls);
          match reply
          case Refused(message) =>
            assert d.files[..|d.files|] == d.files;
            assert Names(owner, d.files, attempts)[..|d.files|] == Names(owner, d.files, attempts);
            Submission(Failed(Rejected(message)), up.blobs, rows, calls + [Insert(row)])
          case Accepted(id, at) => Submission(Added(row), up.blobs, rows + [Stored(row, id, at)], calls + [Insert(row)])
  }

  /** A fresh draft cannot be submitted: nothing is asked of the session, the bucket or the table. */
  lemma FreshDraftIsGated(session: Session, blobs: BlobStore, rows: Table, reply: InsertReply)
    ensures var r := Submit(Fresh(), session, blobs, rows, [], reply);
      r.outcome == MissingFields && r.calls == [] && r.blobs == blobs && r.rows == rows
  {
  }

  /**
   * The inserted row takes its owner from the session: an `owner_id` in the
   * draft makes no difference to anything the submit does.
   */
  lemma OwnerNeverFromDraft(d: Draft, claimed: Option<OwnerId>, session: Session, blobs: BlobStore, rows: Table,
                            attempts: seq<Attempt>, reply: InsertReply)
    requires |attempts| == |d.files|
    ensures Submit(d.(form := d.form.(owner_id := claimed)), session, blobs, rows, attempts, reply)
      == Submit(d, session, blobs, rows, attempts, reply)
  {
  }

  /**
   * The fields of an added row: the draft's text and selects, the price or 0,
   * the description or "", and one image URL per pending file, in order.
   */
  lemma AddedRowFields(d: Draft, session: Session, blobs: BlobStore, rows: Table,
                       attempts: seq<Attempt>, reply: InsertReply)
    requires |attempts| == |d.files|
    requires Submit(d, session, blobs, rows, attempts, reply).outcome.Added?
    ensures var row := Submit(d, session, blobs, rows, attempts, reply).outcome.row;
      && row.title == d.form.title.value && row.title != ""
      && row.location == d.form.location.value && row.location != ""
      && row.contact_number == d.form.contact_number.value && row.contact_number != ""
      && row.property_type == d.form.property_type
      && row.tenant_type == d.form.tenant_type
      && row.owner_type == d.form.owner_type
      && (d.form.price.None? ==> row.price == 0.0)
      && (d.form.price.Some? ==> row.price == d.form.price.value)
      && (d.form.description.None? ==> row.description == Some(""))
      && (d.form.description.Some? ==> row.description == d.form.description)
      && |row.images| == |d.files|
      && row.id.None?
  {
  }

  /**
   * The call trace of a submit that passes the gate with a user: one session
   * lookup, then (for pending files) a second lookup and one upload per file
   * up to the first refusal, and the insert last, only when every upload was
   * accepted.
   */
  lemma SubmitCallOrder(d: Draft, owner: OwnerId, blobs: BlobStore, rows: Table,
                        attempts: seq<Attempt>, reply: InsertReply)
    requires |attempts| == |d.files|
    requires RequiredFilled(d.form)
    ensures var r := Submit(d, Some(owner), blobs, rows, attempts, reply);
      var k := FirstRefused(attempts); var names := Names(owner, d.files, attempts);
      var uploads := if |d.files| == 0 then [] else [GetUser] + Puts(Attempted(names, attempts));
      var insert := if k < |d.files| then [] else [Insert(ListingData(owner, d.form, Urls(names)))];
      && r.calls == [GetUser] + uploads + insert
      && (k < |d.files| ==> r.outcome == Failed(UploadRejected(names[k])))
  {
    var k := FirstRefused(attempts);
    var names := Names(owner, d.files, attempts);
    if |d.files| > 0 {
      PutEachCalls(names, d.files, attempts, blobs);
      PutEachUrls(names, d.files, attempts, blobs);
    }
  }

  /** Every upload in the trace names an object in the given folder. */
  predicate UploadsInto(calls: seq<Call>, folder: string) {
    forall i :: 0 <= i < |calls| && calls[i].Put? ==> Folder(calls[i].name) == folder
  }

  lemma UploadsIntoConcat(a: seq<Call>, b: seq<Call>, folder: string)
    requires UploadsInto(a, folder) && UploadsInto(b, folder)
    ensures UploadsInto(a + b, folder)
  {
    forall i | 0 <= i < |a + b| && (a + b)[i].Put? ensures Folder((a + b)[i].name) == folder {
      if i >= |a| {
        assert (a + b)[i] == b[i - |a|];
      }
    }
  }

  lemma UploadsIntoPuts(sent: seq<string>, folder: string)
    requires forall j :: 0 <= j < |sent| ==> Folder(sent[j]) == folder
    ensures UploadsInto(Puts(sent), folder)
  {
  }

  /** The uploads of a submit's trace, framed by session lookups and the insert, stay in the user's folder. */
  lemma SubmitTraceUploadsInto(owner: OwnerId, files: seq<File>, attempts: seq<Attempt>, insert: seq<Call>)
    requires |attempts| == |files| && '/' !in owner
    requires forall i :: 0 <= i < |insert| ==> !insert[i].Put?
    ensures UploadsInto([GetUser] + ([GetUser] + Puts(Attempted(Names(owner, files, attempts), attempts))) + insert, owner)
  {
    var names := Names(owner, files, attempts);
    var sent := Attempted(names, attempts);
    NamesInFolder(owner, files, attempts);
    assert forall j :: 0 <= j < |sent| ==> sent[j] == names[j];
    UploadsIntoPuts(sent, owner);
    UploadsIntoConcat([GetUser], Puts(sent), owner);
    UploadsIntoConcat([GetUser], [GetUser] + Puts(sent), owner);
    UploadsIntoConcat([GetUser] + ([GetUser] + Puts(sent)), insert, owner);
  }

  /** Every object a submit uploads lies in the folder of the user who submits. */
  lemma SubmitUploadsIntoOwnerFolder(d: Draft, owner: OwnerId, blobs: BlobStore, rows: Table,
                                     attempts: seq<Attempt>, reply: InsertReply)
    requires |attempts| == |d.files|
    requires '/' !in owner
    ensures UploadsInto(Submit(d, Some(owner), blobs, rows, attempts, reply).calls, owner)
  {
    if RequiredFilled(d.form) && |d.files| > 0 {
      var names := Names(owner, d.files, attempts);
      var insert := if FirstRefused(attempts) < |d.files| then [] else [Insert(ListingData(owner, d.form, Urls(names)))];
      SubmitCallOrder(d, owner, blobs, rows, attempts, reply);
      SubmitTraceUploadsInto(owner, d.files, attempts, insert);
    }
  }
}
