# Room listings: the add-listing draft and the owner dashboard

A Dafny model of the logic in the room-owner pages of a React/Supabase room
rental application:

- the **add-listing draft**: the form's starting values, the ten-file cap on
  pending images, removing a pending file by position, and submitting. A submit
  checks the required fields, then looks up the session, then uploads the
  pending files one at a time, and finally inserts the new `room_listings` row;
- the **upload step** (`uploadImages`): how each object in the `room-images`
  bucket is named, the order of the returned public URLs, and what the first
  refused upload leaves behind;
- the **owner dashboard**: fetching the owner's listings newest first, how the
  cached list is replaced, deleting by id followed by a refetch, and the card
  thumbnail;
- the **record types**: `RoomListing` and `User`, with their closed literal
  unions. Required fields are plain fields of the datatype. Optional fields are
  `Option`s.

The remote collaborators are plain values, and every handler is a pure function
of them:

- the session is an `Option<OwnerId>`;
- the bucket is a `map` from object name to bytes;
- the table is a `seq` of rows.

Each handler also returns the trace of remote calls it made (`Remote.Call`).
This lets "makes no remote call" be stated as an empty trace. What the outside
world decides is passed in:

- per pending file (`Uploads.Attempt`): the value of `Date.now()`, the random
  token, and whether the bucket accepts the upload;
- for the insert: the table's reply, with the id and creation time it assigns;
- for the query: the table's reply (rows, `null`, or an error);
- for the delete: the table's reply, and the user's answer to the confirmation
  dialog, as a boolean.

Files: `wrappers.dfy` (Option, Result), `supabase.dfy` (record types),
`remote.dfy` (collaborator state, call trace, public URL), `object_names.dfy`
(`split('.').pop()` and object names), `uploads.dfy` (`uploadImages`),
`add_listing.dfy` (draft and submit), `dashboard.dfy` (fetch, delete,
thumbnail).

## Notes on the code's behaviour

- The ten-file cap applies when files are selected, and it counts only the
  add page's pending files. The submit does not check the count again.
- The dashboard deletes by `id` alone. The client sends no owner condition
  and does not check whether a row was deleted.
- A fetch with no session returns without a query or an error message, and
  the cached list stays as it was.
- The inserted `images` are exactly the URLs of the files uploaded by that
  submit.

## Model

| member | source | states |
|---|---|---|
| `Supabase.ParsePropertyType` | src/lib/supabase.ts:19 | a text is a property type exactly when it is one of "1 BHK", "2 BHK", "1 Bed", "2 Bed", "3 Bed", and it is read as the member written as that text |
| `Supabase.ParseTenantType` | src/lib/supabase.ts:20 | a text is a tenant type exactly when it is one of "Bachelor", "Family", "Girls", "Working professionals", read back to the member written as it |
| `Supabase.ParseOwnerType` | src/lib/supabase.ts:21 | a text is an owner type exactly when it is "Direct Owner" or "Agent", read back to the member written as it |
| `Supabase.ParseRole` | src/lib/supabase.ts:34 | a text is a user role exactly when it is "room_owner" or "room_finder", read back to the member written as it |
| `Supabase.LiteralRoundTrips` | src/lib/supabase.ts:19-34 | every member of each union is written as one of its literals and read back as itself |
| `Remote.PublicUrl` | src/routes/room-owner/add-listing.tsx:69-71 | the public URL of an object is the bucket's public path followed by the object name, so the name can be read back from it |
| `Remote.PublicUrlInjective` | src/routes/room-owner/add-listing.tsx:69-73 | two object names with the same public URL are the same name |
| `ObjectNames.Split` | src/routes/room-owner/add-listing.tsx:60 | splitting never yields an empty list, and no part holds the separator |
| `ObjectNames.JoinOfSplit` | src/routes/room-owner/add-listing.tsx:60 | joining the parts of a split with the separator gives back the original name |
| `ObjectNames.SplitOfJoin` | src/routes/room-owner/add-listing.tsx:60 | splitting a join of separator-free parts gives back those parts |
| `ObjectNames.Extension` | src/routes/room-owner/add-listing.tsx:60 | the extension is a suffix of the file name and holds no '.' |
| `ObjectNames.ExtensionIsLastDotFreeSuffix` | src/routes/room-owner/add-listing.tsx:60 | the extension is the text after the name's last '.', or the whole name when it has no '.' |
| `ObjectNames.DecimalText` | src/routes/room-owner/add-listing.tsx:61 | the rendered timestamp is a non-empty run of decimal digits |
| `ObjectNames.DecimalTextDenotes` | src/routes/room-owner/add-listing.tsx:61 | the digits of a rendered timestamp denote that timestamp |
| `ObjectNames.DecimalTextInjective` | src/routes/room-owner/add-listing.tsx:61 | distinct timestamps are rendered as distinct texts |
| `ObjectNames.ObjectName` | src/routes/room-owner/add-listing.tsx:60-61 | an object name starts with the user's id and a '/', and ends with a '.' and the file's extension, whatever the token holds |
| `ObjectNames.ObjectNameInOwnerFolder` | src/routes/room-owner/add-listing.tsx:61 | for a user id without '/' (auth ids are UUIDs), the text before the first '/' of an object name is that id, whatever the token and file name hold |
| `ObjectNames.ObjectNameKeepsExtension` | src/routes/room-owner/add-listing.tsx:60-61 | the object name has the same extension as the selected file |
| `Uploads.Names` | src/routes/room-owner/add-listing.tsx:59-61 | one object name per pending file |
| `Uploads.NameAt` | src/routes/room-owner/add-listing.tsx:59-61 | name i is built from pending file i's name, timestamp and token, so the names follow selection order |
| `Uploads.FirstRefused` | src/routes/room-owner/add-listing.tsx:63-67 | the position of the first upload the bucket refuses; every earlier upload was accepted |
| `Uploads.PutEach` | src/routes/room-owner/add-listing.tsx:59-74 | the loop makes one upload call per file up to and including the first refused one, fails exactly when one is refused, and otherwise returns one URL per file |
| `Uploads.UrlsDistinct` | src/routes/room-owner/add-listing.tsx:69-73 | two returned URLs are equal only when they publish the same object |
| `Uploads.PutEachUrls` | src/routes/room-owner/add-listing.tsx:58-74 | the loop succeeds exactly when no upload is refused, and then returns one public URL per file in selection order; otherwise it fails naming the refused object |
| `Uploads.PutEachCalls` | src/routes/room-owner/add-listing.tsx:59-67 | one upload call per file, in order, up to and including the first refused one; nothing after it |
| `Uploads.PutEachBlobs` | src/routes/room-owner/add-listing.tsx:63-67 | the bucket ends up with exactly the objects written before the first refusal; they stay there when a later one fails |
| `Uploads.UploadImages` | src/routes/room-owner/add-listing.tsx:49-80 | no pending file: `[]`, no call, bucket unchanged; no user: no bucket call and a failure; otherwise the URLs in file order exactly when every upload is accepted |
| `Uploads.UploadImagesLoop` | src/routes/room-owner/add-listing.tsx:49-80 | the loop that awaits each upload in turn computes exactly the upload result above |
| `AddListing.Fresh` | src/routes/room-owner/add-listing.tsx:15-26 | a new draft has empty title, location, contact number and description, price 0, "1 BHK", "Bachelor", "Direct Owner", no images and no pending files |
| `AddListing.SelectImages` | src/routes/room-owner/add-listing.tsx:36-43 | a selection that would take the pending files past 10 leaves them unchanged; otherwise the new files follow the old ones in selection order; a list within the cap stays within it |
| `AddListing.WithoutPosition` | src/routes/room-owner/add-listing.tsx:46 | filtering by position drops exactly the element at that position, or nothing when it is out of range |
| `AddListing.RemoveImage` | src/routes/room-owner/add-listing.tsx:45-47 | removing index i drops exactly the i-th pending file and keeps the rest in order; an out-of-range index changes nothing |
| `AddListing.PendingNeverExceedsCap` | src/routes/room-owner/add-listing.tsx:36-47 | over any sequence of selections and removals, never more than 10 files are pending, and the form is untouched |
| `AddListing.ListingData` | src/routes/room-owner/add-listing.tsx:102-113 | the row to insert takes its owner from the user, copies the non-empty required texts and the selects, falls back to 0 for an undefined price and to "" for an undefined description, has exactly the given URLs as images, and carries no id or timestamps |
| `AddListing.Submit` | src/routes/room-owner/add-listing.tsx:82-128 | an empty required field means no call and no change; no session means only the session lookup; a row is added exactly when every upload and the insert succeed, with the session's id as owner and the uploaded URLs as images; otherwise the table is unchanged; past both gates the bucket keeps every object written before the first refusal, and a refused insert leaves all the uploaded objects behind |
| `AddListing.FreshDraftIsGated` | src/routes/room-owner/add-listing.tsx:85-88 | submitting a fresh draft makes no remote call and changes nothing |
| `AddListing.OwnerNeverFromDraft` | src/routes/room-owner/add-listing.tsx:102-103 | an `owner_id` held in the draft makes no difference to the submit |
| `AddListing.AddedRowFields` | src/routes/room-owner/add-listing.tsx:102-113 | the inserted row copies the non-empty required texts and the selects, falls back to 0 for an undefined price and to "" for an undefined description, and has one image per pending file |
| `AddListing.SubmitCallOrder` | src/routes/room-owner/add-listing.tsx:90-119 | past the gate: a session lookup; with files, a second lookup and the uploads up to the first refusal; the insert comes last, and only when every upload succeeded |
| `AddListing.SubmitUploadsIntoOwnerFolder` | src/routes/room-owner/add-listing.tsx:52-61 | for a user id without '/' (auth ids are UUIDs), every object a submit uploads lies in the submitting user's folder |
| `Dashboard.Filter` | src/routes/room-owner/dashboard.tsx:39 | the filtered list holds each kept row as often as the input does and no other row |
| `Dashboard.InsertByDate` | src/routes/room-owner/dashboard.tsx:40 | inserting into a newest-first list keeps it newest first and adds exactly that row |
| `Dashboard.SortNewestFirst` | src/routes/room-owner/dashboard.tsx:40 | the result is ordered by creation time, newest first, and is a permutation of the input |
| `Dashboard.SelectOwned` | src/routes/room-owner/dashboard.tsx:36-40 | the query answers with exactly the user's rows, each as often as the table holds it, newest first |
| `Dashboard.FetchListings` | src/routes/room-owner/dashboard.tsx:31-49 | no user: no query and the list is unchanged; an answer replaces the list with exactly the user's rows, newest first; a null answer gives the empty list; an error keeps the old list |
| `Dashboard.FetchWithNoRowsIsEmpty` | src/routes/room-owner/dashboard.tsx:36-43 | an owner with no rows gets the empty list, not an error |
| `Dashboard.HandleDelete` | src/routes/room-owner/dashboard.tsx:51-66 | unconfirmed: nothing; a failed delete leaves table and list unchanged; a successful one removes exactly the rows with that id and is followed by a refetch that sets the list |
| `Dashboard.DeleteRows` | src/routes/room-owner/dashboard.tsx:55-58 | the delete removes every row with the id and keeps every other row as often as before |
| `Dashboard.DeleteAppliesNoOwnerFilter` | src/routes/room-owner/dashboard.tsx:55-58 | a row with the id is deleted whoever owns it |
| `Dashboard.DeletedListingLeavesCache` | src/routes/room-owner/dashboard.tsx:55-62 | after a delete and an answered refetch, the list holds only the user's rows and none with the deleted id |
| `Dashboard.Thumbnail` | src/routes/room-owner/dashboard.tsx:133-135 | a card shows an image exactly when the listing has one, and then its first image |
| `Dashboard.AddedListingThumbnail` | src/routes/room-owner/dashboard.tsx:133-139 | the card of a listing added from the page shows the public URL of the first pending file, and no image when no file was pending |

## Left out

- The edit-listing page (`edit-listing.$id.tsx`) is not part of this model. This covers the edit flow, merging existing image URLs with new uploads, and removing existing images, none of which appear in the pages modelled here.
- Server-side ownership checks (row-level security, forbidden or not-found answers) are left out: the client code does not perform them. A delete is modelled as removing every row with the id.
- The price input's HTML `min="0"` attribute is browser form validation, so it is left out. The model accepts any price the draft holds.
- `handleInputChange` and `parseFloat(value) || 0` are left out: they are text editing and floating-point parsing. The draft's price is an optional real, where undefined stands for any falsy non-number.
- `Date.now()` and `Math.random().toString(36).substring(7)` are nondeterministic, so they are inputs. The token is any string, and its base-36 derivation is not modelled.
- The project URL in front of a public URL is configuration, so it is left out. The model takes a public URL to be the bucket's public path followed by the object name as it is. Any escaping of the path by the storage client is not modelled. Escaping would change the text of a URL for names with reserved characters, for example an extension taken from a user's file name.
- Both `auth.getUser()` calls in one submit read the same session value. A session that expires between the two lookups is not modelled. The "User not authenticated" failure of `uploadImages` therefore shows only when `UploadImages` is used on its own.
- Why the bucket or the table refuses a request (an existing object name, a constraint) is outside the client. It is an injected reply. A refused delete is taken to leave the table as it was.
- The server assigns the id and the timestamps of a row. The id and the creation instant are injected values, and `updated_at` is taken to equal `created_at` on insert. `created_at` is modelled by the instant it denotes rather than its ISO text. A row without a creation time sorts first, as descending order places nulls first.
- The three selects are cast with `as any` in the source. The model keeps them typed, because the select elements only offer the union's literals.
- The refetch after a delete is not awaited in the source. The model runs it after the delete. The concurrent `checkUser`/`fetchListings` start of the dashboard is left out.
- UI state is left out: the `loading` and `uploading` flags, toasts, `navigate` redirects, rendering and the confirmation dialog (which is a boolean input). The Supabase client creation and the missing-credentials warning are also left out.
- `signup.tsx` and `index.tsx` are not part of this model: they wrap the authentication service and render navigation buttons.
- The submit never changes the draft. Success navigates away and failure only shows a toast. The model therefore returns no new draft: the draft's fields and pending files stay unchanged by construction.
