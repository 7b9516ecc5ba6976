/**
 * `uploadImages`: every pending file is stored in the `room-images` bucket,
 * one after another in selection order, under a name in the owner's folder;
 * the public URLs come back in the same order, and the first refused upload
 * aborts the rest while the objects already stored stay in the bucket.
 */
module Uploads {
  import opened Wrappers
  import opened Remote
  import opened ObjectNames

  /**
   * What one loop iteration receives from outside the program: the value of
   * `Date.now()`, the random token, and whether the bucket accepts the upload.
   */
  datatype Attempt = Attempt(now: nat, token: string, accepted: bool)

  /** The result of uploading: the URLs or the error, the bucket afterwards, and the calls made. */
  datatype Upload = Upload(urls: Result<seq<string>, Error>, blobs: BlobStore, calls: seq<Call>)

  /** The object name the loop gives each file, in selection order. */
  function Names(owner: string, files: seq<File>, attempts: seq<Attempt>): (names: seq<string>)
    requires |attempts| == |files|
    ensures |names| == |files|
    decreases |files|
  {
    if |files| == 0 then [] else
      [ObjectName(owner, attempts[0].now, attempts[0].token, files[0].name)]
      + Names(owner, files[1..], attempts[1..])
  }

  /** File `i` is uploaded under the name built from its own name, timestamp and token. */
  lemma {:induction false} NameAt(owner: string, files: seq<File>, attempts: seq<Attempt>, i: nat)
    requires |attempts| == |files| && i < |files|
    ensures Names(owner, files, attempts)[i] == ObjectName(owner, attempts[i].now, attempts[i].token, files[i].name)
    decreases i
  {
    if i > 0 {
      NameAt(owner, files[1..], attempts[1..], i - 1);
    }
  }

  /** The position of the first refused upload, or the number of attempts when none is refused. */
  function FirstRefused(attempts: seq<Attempt>): (k: nat)
    ensures k <= |attempts|
    ensures forall i :: 0 <= i < k ==> attempts[i].accepted
    ensures k < |attempts| ==> !attempts[k].accepted
    decreases |attempts|
  {
    if |attempts| == 0 then 0
    else if !attempts[0].accepted then 0
    else 1 + FirstRefused(attempts[1..])
  }

  /** The bucket after writing the given objects in order (a later write of a name wins). */
  function WriteAll(blobs: BlobStore, names: seq<string>, files: seq<File>): BlobStore
    requires |names| == |files|
    decreases |names|
  {
    if |names| == 0 then blobs
    else WriteAll(blobs[names[0] := files[0].bytes], names[1..], files[1..])
  }

  /** The upload requests for the given object names, in order. */
  function Puts(names: seq<string>): (calls: seq<Call>)
    ensures |calls| == |names|
    ensures forall i :: 0 <= i < |names| ==> calls[i] == Put(names[i])
  {
    seq(|names|, i requires 0 <= i < |names| => Put(names[i]))
  }

  lemma PutsCons(name: string, names: seq<string>)
    ensures Puts([name] + names) == [Put(name)] + Puts(names)
  {
    var l := Puts([name] + names);
    var r := [Put(name)] + Puts(names);
    forall i | 0 <= i < |l| ensures l[i] == r[i] {
      if i > 0 {
        assert ([name] + names)[i] == names[i - 1];
        assert r[i] == Puts(names)[i - 1];
      }
    }
  }

  lemma PutsSnoc(names: seq<string>, name: string)
    ensures Puts(names + [name]) == Puts(names) + [Put(name)]
  {
  }

  /** Two public URLs of the list are equal only when they publish the same object. */
  lemma UrlsDistinct(names: seq<string>, i: nat, j: nat)
    requires i < |names| && j < |names|
    ensures Urls(names)[i] == Urls(names)[j] ==> names[i] == names[j]
  {
    if Urls(names)[i] == Urls(names)[j] {
      PublicUrlInjective(names[i], names[j]);
    }
  }

  /** The public URLs of the given object names, in order. */
  function Urls(names: seq<string>): (urls: seq<string>)
    ensures |urls| == |names|
    ensures forall i :: 0 <= i < |names| ==> urls[i] == PublicUrl(names[i])
  {
    seq(|names|, i requires 0 <= i < |names| => PublicUrl(names[i]))
  }

  /**
   * The body of the `for (const file of imageFiles)` loop, once the user is
   * known: file `i` is uploaded under `names[i]`; a refusal ends the loop.
   */
  function PutEach(names: seq<string>, files: seq<File>, attempts: seq<Attempt>, blobs: BlobStore): (u: Upload)
    requires |names| == |files| == |attempts|
    ensures var k := FirstRefused(attempts);
      && |u.calls| == (if k < |files| then k + 1 else |files|)
      && (u.urls.Failure? <==> k < |files|)
      && (u.urls.Success? ==> |u.urls.value| == |files|)
    decreases |files|
  {
    if |files| == 0 then Upload(Success([]), blobs, [])
    else if !attempts[0].accepted then Upload(Failure(UploadRejected(names[0])), blobs, [Put(names[0])])
    else
      var rest := PutEach(names[1..], files[1..], attempts[1..], blobs[names[0] := files[0].bytes]);
      Upload(Prepend(PublicUrl(names[0]), rest.urls), rest.blobs, [Put(names[0])] + rest.calls)
  }

  /** Puts one URL in front of a successful result; a failure passes through. */
  function Prepend(url: string, r: Result<seq<string>, Error>): Result<seq<string>, Error> {
    match r
    case Success(tail) => Success([url] + tail)
    case Failure(e) => Failure(e)
  }

  /** The loop succeeds exactly when no upload is refused, and then returns one URL per file in order. */
  lemma {:induction false} PutEachUrls(names: seq<string>, files: seq<File>, attempts: seq<Attempt>, blobs: BlobStore)
    requires |names| == |files| == |attempts|
    ensures var u := PutEach(names, files, attempts, blobs); var k := FirstRefused(attempts);
      && (u.urls.Success? <==> k == |files|)
      && (u.urls.Success? ==> u.urls.value == Urls(names))
      && (u.urls.Failure? ==> u.urls.error == UploadRejected(names[k]))
    decreases |files|
  {
    if |files| > 0 && attempts[0].accepted {
      var blobs1 := blobs[names[0] := files[0].bytes];
      PutEachUrls(names[1..], files[1..], attempts[1..], blobs1);
      var rest := PutEach(names[1..], files[1..], attempts[1..], blobs1);
      if rest.urls.Success? {
        assert [PublicUrl(names[0])] + Urls(names[1..]) == Urls(names);
      }
    }
  }

  /** The names the loop tries: all of them up to and including the first refused one. */
  function Attempted(names: seq<string>, attempts: seq<Attempt>): (sent: seq<string>)
    requires |names| == |attempts|
    ensures var k := FirstRefused(attempts);
      sent == if k < |names| then names[..k + 1] else names
    decreases |names|
  {
    if |names| == 0 then []
    else if !attempts[0].accepted then [names[0]]
    else [names[0]] + Attempted(names[1..], attempts[1..])
  }

  /** The loop sends one upload per file, in order, up to and including the first refused one. */
  lemma {:induction false} PutEachCalls(names: seq<string>, files: seq<File>, attempts: seq<Attempt>, blobs: BlobStore)
    requires |names| == |files| == |attempts|
    ensures PutEach(names, files, attempts, blobs).calls == Puts(Attempted(names, attempts))
    decreases |files|
  {
    if |files| > 0 && attempts[0].accepted {
      var blobs1 := blobs[names[0] := files[0].bytes];
      PutEachCalls(names[1..], files[1..], attempts[1..], blobs1);
      PutsCons(names[0], Attempted(names[1..], attempts[1..]));
    }
  }

  /** Every object written before the first refusal stays in the bucket; nothing else changes. */
  lemma {:induction false} PutEachBlobs(names: seq<string>, files: seq<File>, attempts: seq<Attempt>, blobs: BlobStore)
    requires |names| == |files| == |attempts|
    ensures var k := FirstRefused(attempts);
      PutEach(names, files, attempts, blobs).blobs == WriteAll(blobs, names[..k], files[..k])
    decreases |files|
  {
    var k := FirstRefused(attempts);
    if |files| == 0 || !attempts[0].accepted {
      assert names[..k] == [];
    } else {
      var blobs1 := blobs[names[0] := files[0].bytes];
      PutEachBlobs(names[1..], files[1..], attempts[1..], blobs1);
      assert names[..k][1..] == names[1..][..k - 1];
      assert files[..k][1..] == files[1..][..k - 1];
    }
  }

  /**
   * `uploadImages()`: with no pending file it returns `[]` at once; otherwise
   * it asks for the user, throws when there is none, and runs the loop.
   */
  function UploadImages(session: Session, files: seq<File>, attempts: seq<Attempt>, blobs: BlobStore): (u: Upload)
    requires |attempts| == |files|
    ensures |files| == 0 ==> u.urls == Success([]) && u.blobs == blobs && u.calls == []
    ensures |files| > 0 ==> |u.calls| >= 1 && u.calls[0] == GetUser
    ensures session.None? ==> u.blobs == blobs && !TouchesStores(u.calls)
    ensures session.None? && |files| > 0 ==> u.urls == Failure(NotAuthenticated)
    ensures session.Some? ==>
      var k := FirstRefused(attempts); var names := Names(session.value, files, attempts);
      && (u.urls.Success? <==> k == |files|)
      && (u.urls.Success? ==> u.urls.value == Urls(names))
      && u.blobs == WriteAll(blobs, names[..k], files[..k])
  {
    if |files| == 0 then Upload(Success([]), blobs, [])
    else match session
      case None => Upload(Failure(NotAuthenticated), blobs, [GetUser])
      case Some(owner) =>
        var names := Names(owner, files, attempts);
        PutEachUrls(names, files, attempts, blobs);
        PutEachBlobs(names, files, attempts, blobs);
        var run := PutEach(names, files, attempts, blobs);
        run.(calls := [GetUser] + run.calls)
  }

  /** Writing one more object after a run of writes. */
  lemma {:induction false} WriteAllSnoc(blobs: BlobStore, names: seq<string>, files: seq<File>, name: string, file: File)
    requires |names| == |files|
    ensures WriteAll(blobs, names + [name], files + [file]) == WriteAll(blobs, names, files)[name := file.bytes]
    decreases |names|
  {
    if |names| > 0 {
      WriteAllSnoc(blobs[names[0] := files[0].bytes], names[1..], files[1..], name, file);
      assert (names + [name])[1..] == names[1..] + [name];
      assert (files + [file])[1..] == files[1..] + [file];
    }
  }

  /** With pending files and a user, `uploadImages()` is the session lookup followed by the loop. */
  lemma UploadImagesWithUser(owner: string, files: seq<File>, attempts: seq<Attempt>, blobs: BlobStore)
    requires |attempts| == |files| > 0
    ensures var run := PutEach(Names(owner, files, attempts), files, attempts, blobs);
      UploadImages(Some(owner), files, attempts, blobs) == Upload(run.urls, run.blobs, [GetUser] + run.calls)
  {
  }

  /** Every object the loop names for a user lies in that user's folder. */
  lemma NamesInFolder(owner: string, files: seq<File>, attempts: seq<Attempt>)
    requires |attempts| == |files| && '/' !in owner
    ensures forall j :: 0 <= j < |files| ==> Folder(Names(owner, files, attempts)[j]) == owner
  {
    forall j | 0 <= j < |files| ensures Folder(Names(owner, files, attempts)[j]) == owner {
      NameAt(owner, files, attempts, j);
      ObjectNameInOwnerFolder(owner, attempts[j].now, attempts[j].token, files[j].name);
    }
  }

  /** What the loop has done after the first `i` files were uploaded. */
  ghost predicate Uploaded(names: seq<string>, files: seq<File>, attempts: seq<Attempt>, blobs: BlobStore,
                           i: nat, urls: seq<string>, store: BlobStore, calls: seq<Call>)
    requires |names| == |files| == |attempts|
  {
    && i <= FirstRefused(attempts)
    && urls == Urls(names[..i])
    && store == WriteAll(blobs, names[..i], files[..i])
    && calls == [GetUser] + Puts(names[..i])
  }

  /** One accepted upload extends what the loop has done by one file. */
  lemma UploadedStep(names: seq<string>, files: seq<File>, attempts: seq<Attempt>, blobs: BlobStore,
                     i: nat, urls: seq<string>, store: BlobStore, calls: seq<Call>)
    requires |names| == |files| == |attempts|
    requires i < |files| && attempts[i].accepted
    requires Uploaded(names, files, attempts, blobs, i, urls, store, calls)
    ensures Uploaded(names, files, attempts, blobs, i + 1, urls + [PublicUrl(names[i])],
                     store[names[i] := files[i].bytes], calls + [Put(names[i])])
  {
    assert i != FirstRefused(attempts);
    assert names[..i + 1] == names[..i] + [names[i]];
    assert files[..i + 1] == files[..i] + [files[i]];
    PutsSnoc(names[..i], names[i]);
    assert Urls(names[..i + 1]) == Urls(names[..i]) + [PublicUrl(names[i])];
    WriteAllSnoc(blobs, names[..i], files[..i], names[i], files[i]);
  }

  /** What the loop leaves when upload `i` is the first one refused. */
  lemma PutEachRefused(names: seq<string>, files: seq<File>, attempts: seq<Attempt>, blobs: BlobStore, i: nat)
    requires |names| == |files| == |attempts|
    requires i == FirstRefused(attempts) && i < |files|
    ensures var run := PutEach(names, files, attempts, blobs);
      && run.urls == Failure(UploadRejected(names[i]))
      && run.blobs == WriteAll(blobs, names[..i], files[..i])
      && run.calls == Puts(names[..i]) + [Put(names[i])]
  {
    PutEachUrls(names, files, attempts, blobs);
    PutEachBlobs(names, files, attempts, blobs);
    PutEachCalls(names, files, attempts, blobs);
    assert names[..i + 1] == names[..i] + [names[i]];
    PutsSnoc(names[..i], names[i]);
  }

  /** Where the loop meets a refusal, its state and that upload are what `UploadImages` returns. */
  lemma UploadedRefused(owner: string, files: seq<File>, attempts: seq<Attempt>, blobs: BlobStore,
                        i: nat, urls: seq<string>, store: BlobStore, calls: seq<Call>)
    requires |attempts| == |files| && i < |files| && !attempts[i].accepted
    requires Uploaded(Names(owner, files, attempts), files, attempts, blobs, i, urls, store, calls)
    ensures var name := Names(owner, files, attempts)[i];
      UploadImages(Some(owner), files, attempts, blobs)
        == Upload(Failure(UploadRejected(name)), store, calls + [Put(name)])
  {
    var names := Names(owner, files, attempts);
    assert i == FirstRefused(attempts);
    PutEachRefused(names, files, attempts, blobs, i);
    UploadImagesWithUser(owner, files, attempts, blobs);
  }

  /** Where the loop has uploaded every file, its state is what `UploadImages` returns. */
  lemma UploadedAll(owner: string, files: seq<File>, attempts: seq<Attempt>, blobs: BlobStore,
                    urls: seq<string>, store: BlobStore, calls: seq<Call>)
    requires |attempts| == |files| > 0
    requires Uploaded(Names(owner, files, attempts), files, attempts, blobs, |files|, urls, store, calls)
    ensures UploadImages(Some(owner), files, attempts, blobs) == Upload(Success(urls), store, calls)
  {
    var names := Names(owner, files, attempts);
    UploadImagesWithUser(owner, files, attempts, blobs);
    PutEachUrls(names, files, attempts, blobs);
    PutEachCalls(names, files, attempts, blobs);
    PutEachBlobs(names, files, attempts, blobs);
    assert names[..|files|] == names && files[..|files|] == files;
  }

  /**
   * `uploadImages()` as the source writes it, a loop that awaits each upload
   * before starting the next; it computes exactly what `UploadImages` says.
   */
  method UploadImagesLoop(session: Session, files: seq<File>, attempts: seq<Attempt>, blobs: BlobStore)
    returns (u: Upload)
    requires |attempts| == |files|
    ensures u == UploadImages(session, files, attempts, blobs)
  {
    if |files| == 0 {
      return Upload(Success([]), blobs, []);
    }
    if session.None? {
      return Upload(Failure(NotAuthenticated), blobs, [GetUser]);
    }
    var owner := session.value;
    ghost var names := Names(owner, files, attempts);
    var urls: seq<string> := [];
    var store := blobs;
    var calls := [GetUser];
    var i := 0;
    while i < |files|
      invariant i <= |files|
      invariant Uploaded(names, files, attempts, blobs, i, urls, store, calls)
    {
      var name := ObjectName(owner, attempts[i].now, attempts[i].token, files[i].name);
      NameAt(owner, files, attempts, i);
      if !attempts[i].accepted {
        UploadedRefused(owner, files, attempts, blobs, i, urls, store, calls);
        return Upload(Failure(UploadRejected(name)), store, calls + [Put(name)]);
      }
      UploadedStep(names, files, attempts, blobs, i, urls, store, calls);
      calls := calls + [Put(name)];
      store := store[name := files[i].bytes];
      urls := urls + [PublicUrl(name)];
      i := i + 1;
    }
    UploadedAll(owner, files, attempts, blobs, urls, store, calls);
    return Upload(Success(urls), store, calls);
  }
}
