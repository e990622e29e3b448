/** The backend's user-book image command: the new image is stored under a fresh key, the
    book is pointed at it and saved, and the image it pointed at before is deleted on a
    best-effort basis. */
module BookImage {
  import opened Wrappers
  import opened Strings
  import opened Storage

  /** The user-book entity; only its image URL takes part in this command. */
  class UserBook {
    const id: string
    var imageUrl: Option<string>

    constructor (id: string, imageUrl: Option<string>)
      ensures this.id == id && this.imageUrl == imageUrl
    {
      this.id := id;
      this.imageUrl := imageUrl;
    }

    method SetImageUrl(imageUrl: string)
      modifies this
      ensures this.imageUrl == Some(imageUrl)
    {
      this.imageUrl := Some(imageUrl);
    }
  }

  /** The user-book table, reduced to each row's image URL. */
  class UserBookRepository {
    var rows: map<string, Option<string>>
    /** Books whose save the database refuses. */
    var failingSaves: set<string>

    constructor (rows: map<string, Option<string>>, failingSaves: set<string>)
      ensures this.rows == rows && this.failingSaves == failingSaves
    {
      this.rows := rows;
      this.failingSaves := failingSaves;
    }

    /** `findUserBook({id})`: a fresh entity loaded from the row, or nothing. */
    method FindUserBook(id: string) returns (r: Option<UserBook>)
      ensures id !in rows ==> r.None?
      ensures id in rows ==> r.Some? && fresh(r.value) && r.value.id == id && r.value.imageUrl == rows[id]
    {
      if id !in rows {
        return None;
      }
      var book := new UserBook(id, rows[id]);
      return Some(book);
    }

    /** `saveUserBook({userBook})`: writes the entity's image URL to its row. */
    method SaveUserBook(book: UserBook) returns (r: Result<(), StoreError>)
      modifies this
      ensures failingSaves == old(failingSaves)
      ensures book.id in old(failingSaves) ==> r == Failure(WriteFailed) && rows == old(rows)
      ensures book.id !in old(failingSaves) ==> r == Success(()) && rows == old(rows)[book.id := book.imageUrl]
    {
      if book.id in failingSaves {
        return Failure(WriteFailed);
      }
      rows := rows[book.id := book.imageUrl];
      return Success(());
    }
  }

  /** `${cloudfrontUrl}/${imageId}`. */
  function ImageUrl(cloudfrontUrl: string, imageId: string): string {
    cloudfrontUrl + "/" + imageId
  }

  /** The blob `deletePreviousImage` removes: the last '/'-separated segment of the previous
      URL, unless the URL is missing or empty or that segment is empty. */
  function PreviousImageId(previousImageUrl: Option<string>): (r: Option<string>)
    ensures r.Some? ==>
      && previousImageUrl.Some? && r.value != [] && '/' !in r.value
      && EndsWith(previousImageUrl.value, r.value)
      && (r.value == previousImageUrl.value || previousImageUrl.value[|previousImageUrl.value| - |r.value| - 1] == '/')
    ensures previousImageUrl.None? || previousImageUrl == Some([]) ==> r.None?
  {
    if previousImageUrl.None? || previousImageUrl.value == [] then None
    else
      var previousImageId := LastSegment(previousImageUrl.value, '/');
      if previousImageId == [] then None else Some(previousImageId)
  }

  /** The URL the command stores leads the next command back to the same blob. */
  lemma PreviousImageIdOfImageUrl(cloudfrontUrl: string, imageId: string)
    requires imageId != [] && '/' !in imageId
    ensures PreviousImageId(Some(ImageUrl(cloudfrontUrl, imageId))) == Some(imageId)
  {
    assert ImageUrl(cloudfrontUrl, imageId) == cloudfrontUrl + ['/'] + imageId;
    LastSegmentAfterSeparator(cloudfrontUrl, '/', imageId);
  }

  /** The blobs after the best-effort deletion: the previous image's blob is gone when there
      was one to name, it existed and the store accepted the delete; otherwise nothing
      changes. */
  function AfterDelete(blobs: map<BlobKey, Blob>, failingDeletes: set<BlobKey>, bucketName: string,
                       previousImageUrl: Option<string>): (r: map<BlobKey, Blob>)
    ensures r.Keys <= blobs.Keys
    ensures forall k :: k in r ==> r[k] == blobs[k]
    ensures forall k :: k in blobs && k !in r ==>
      PreviousImageId(previousImageUrl).Some? && k == BlobKey(bucketName, PreviousImageId(previousImageUrl).value)
  {
    var id := PreviousImageId(previousImageUrl);
    if id.None? then blobs
    else
      var key := BlobKey(bucketName, id.value);
      if key in blobs && key !in failingDeletes then map k | k in blobs && k != key :: blobs[k] else blobs
  }

  /** Why the command fails. A missing book is thrown as an `OperationNotValidError`, which
      the backend answers with 400; the other two are the store's and the repository's
      errors passed through. */
  datatype BookImageError = UserBookDoesNotExist | UploadRejected | SaveRejected

  class UploadUserBookImageCommandHandler {
    const repository: UserBookRepository
    const store: BlobStore
    const bucketName: string
    const cloudfrontUrl: string

    constructor (repository: UserBookRepository, store: BlobStore, bucketName: string, cloudfrontUrl: string)
      ensures this.repository == repository && this.store == store
      ensures this.bucketName == bucketName && this.cloudfrontUrl == cloudfrontUrl
    {
      this.repository := repository;
      this.store := store;
      this.bucketName := bucketName;
      this.cloudfrontUrl := cloudfrontUrl;
    }

    /** `deletePreviousImage`: a delete that fails is swallowed. */
    method DeletePreviousImage(previousImageUrl: Option<string>)
      requires store.Valid()
      modifies store
      ensures store.Valid()
      ensures store.blobs == AfterDelete(old(store.blobs), old(store.failingDeletes), bucketName, previousImageUrl)
      ensures store.failingUploads == old(store.failingUploads) && store.failingDeletes == old(store.failingDeletes)
    {
      if previousImageUrl.None? || previousImageUrl.value == [] {
        return;
      }
      var previousImageId := LastSegment(previousImageUrl.value, '/');
      if previousImageId == [] {
        return;
      }
      var deleted := store.DeleteBlob(BlobKey(bucketName, previousImageId));
    }

    /** `execute`: `freshImageId` is the uuid the generator returns; `data` stands for the
        uploaded stream. */
    method Execute(userBookId: string, contentType: string, data: string, freshImageId: string)
      returns (r: Result<UserBook, BookImageError>)
      requires store.Valid()
      modifies repository, store
      ensures store.Valid()
      ensures userBookId !in old(repository.rows) ==>
        r == Failure(UserBookDoesNotExist) && repository.rows == old(repository.rows) && store.blobs == old(store.blobs)
      ensures userBookId in old(repository.rows) ==>
        var newKey := BlobKey(bucketName, freshImageId);
        var uploaded := old(store.blobs)[newKey := Blob(contentType, data)];
        var imageUrl := ImageUrl(cloudfrontUrl, freshImageId);
        && (newKey in old(store.failingUploads) ==>
              r == Failure(UploadRejected) && repository.rows == old(repository.rows) && store.blobs == old(store.blobs))
        && (newKey !in old(store.failingUploads) && userBookId in old(repository.failingSaves) ==>
              r == Failure(SaveRejected) && repository.rows == old(repository.rows) && store.blobs == uploaded)
        && (newKey !in old(store.failingUploads) && userBookId !in old(repository.failingSaves) ==>
              && r.Success? && r.value.id == userBookId && r.value.imageUrl == Some(imageUrl)
              && repository.rows == old(repository.rows)[userBookId := Some(imageUrl)]
              && store.blobs == AfterDelete(uploaded, old(store.failingDeletes), bucketName, old(repository.rows)[userBookId]))
    {
      var existingUserBook := repository.FindUserBook(userBookId);
      if existingUserBook.None? {
        return Failure(UserBookDoesNotExist);
      }
      var book := existingUserBook.value;
      var imageId := freshImageId;
      var uploaded := store.UploadBlob(BlobKey(bucketName, imageId), Blob(contentType, data));
      if uploaded.Failure? {
        return Failure(UploadRejected);
      }
      var imageUrl := ImageUrl(cloudfrontUrl, imageId);
      var previousImageUrl := book.imageUrl;
      book.SetImageUrl(imageUrl);
      var saved := repository.SaveUserBook(book);
      if saved.Failure? {
        return Failure(SaveRejected);
      }
      DeletePreviousImage(previousImageUrl);
      return Success(book);
    }
  }

  /** The new image survives the command unless the previous URL named the very same blob. */
  lemma NewImageSurvives(blobs: map<BlobKey, Blob>, failingDeletes: set<BlobKey>, bucketName: string,
                         previousImageUrl: Option<string>, newKey: BlobKey, blob: Blob)
    requires newKey.bucket == bucketName
    requires PreviousImageId(previousImageUrl) != Some(newKey.name)
    ensures newKey in AfterDelete(blobs[newKey := blob], failingDeletes, bucketName, previousImageUrl)
    ensures AfterDelete(blobs[newKey := blob], failingDeletes, bucketName, previousImageUrl)[newKey] == blob
  {
  }

  /** Replacing an image twice in a row deletes the first new image: the second command
      reads the URL the first one saved and removes its blob (when the store allows). */
  lemma SecondReplacementDeletesFirstImage(blobs: map<BlobKey, Blob>, failingDeletes: set<BlobKey>,
                                           bucketName: string, cloudfrontUrl: string, firstId: string)
    requires firstId != [] && '/' !in firstId
    requires BlobKey(bucketName, firstId) in blobs && BlobKey(bucketName, firstId) !in failingDeletes
    ensures BlobKey(bucketName, firstId) !in
      AfterDelete(blobs, failingDeletes, bucketName, Some(ImageUrl(cloudfrontUrl, firstId)))
  {
    PreviousImageIdOfImageUrl(cloudfrontUrl, firstId);
  }
}
