/**
 * The upload hook: `uploadImages` sends each pending file to the preprocessing
 * endpoint in list order and starts an analysis for every stored file;
 * `saveImages` turns the stored images of a batch into one insert record each.
 *
 * The network is a parameter: `respond(i)` is the preprocessing reply for
 * entry `i`, and `user` the outcome of the session lookup.
 */
module UploadHook {
  import opened Wrappers
  import opened Text
  import opened UploadTypes
  import opened ImageList

  /** The preprocessing endpoint's reply, as the hook reads it. */
  datatype UploadReply =
    | Rejected(error: Option<string>)   // `!response.ok`; `error` is the body's `error` field, if the body parses and has one
    | Unparsable(message: string)       // an ok response whose body is not JSON; `message` is the parse error's
    | Stored(url: Option<string>)       // an ok JSON body; `url` is its `url` field

  const FailedToProcess := "Failed to process image"
  const NoUrlReturned := "No URL returned from image processing"

  /** The URL an entry's reply yields, or the message of the error it throws. */
  function ReplyUrl(reply: UploadReply): (r: Result<string, string>)
    ensures r.Success? <==> reply.Stored? && reply.url.Some? && reply.url.value != ""
    ensures r.Success? ==> r.value == reply.url.value
    ensures reply.Rejected? ==> r.Failure? && r.error != ""
  {
    match reply
    case Rejected(error) =>
      if error.Some? && error.value != "" then Failure(error.value) else Failure(FailedToProcess)
    case Unparsable(message) => Failure(message)
    case Stored(url) =>
      if url.Some? && url.value != "" then Success(url.value) else Failure(NoUrlReturned)
  }

  /** One `onAnalyze(url, i)` call. */
  datatype AnalyzeCall = AnalyzeCall(url: string, index: nat)

  /** The analyze calls a run of the loop makes and the error that ends it, if any. */
  datatype UploadRun = UploadRun(calls: seq<AnalyzeCall>, error: Option<string>)

  /** What the loop does from entry `i` on. */
  function UploadFrom(images: seq<ImageFile>, respond: nat -> UploadReply, i: nat): UploadRun
    requires i <= |images|
    decreases |images| - i
  {
    if i == |images| then UploadRun([], None)
    else if images[i].file.None? then UploadFrom(images, respond, i + 1)
    else match ReplyUrl(respond(i))
      case Failure(message) => UploadRun([], Some(message))
      case Success(url) =>
        var rest := UploadFrom(images, respond, i + 1);
        UploadRun([AnalyzeCall(url, i)] + rest.calls, rest.error)
  }

  /** Entry `k` is a pending file whose reply yields a URL. */
  predicate Accepted(images: seq<ImageFile>, respond: nat -> UploadReply, k: nat)
    requires k < |images|
  {
    images[k].file.Some? && ReplyUrl(respond(k)).Success?
  }

  /** Saving's outcome: nothing done, saved (after `onSuccess`), or the error that was thrown. */
  datatype SaveOutcome = Skipped | Saved | SaveFailed(message: string)

  datatype RecordMetadata = RecordMetadata(objects: seq<string>, scenes: seq<string>, emotions: seq<string>, technicalDetails: Technical)

  /** One row inserted into `images`. */
  datatype InsertRecord = InsertRecord(
    url: string,
    title: string,
    description: string,
    tags: seq<string>,
    userId: string,
    metadata: RecordMetadata)

  const NoUserFound := "No user found"

  /** The batch title for the entry at `index` of a list of `count` entries. */
  function RecordTitle(title: string, count: nat, index: nat): string {
    if count == 1 then title else title + " (" + Decimal(index + 1) + ")"
  }

  /** The records for the entries from `i` on: one per stored entry, in list order. */
  function RecordsFrom(images: seq<ImageFile>, m: Metadata, userId: string, i: nat): seq<InsertRecord>
    requires i <= |images|
    decreases |images| - i
  {
    if i == |images| then []
    else if !IsUploaded(images[i]) then RecordsFrom(images, m, userId, i + 1)
    else
      [InsertRecord(images[i].uploadedUrl.value, RecordTitle(m.title, |images|, i), m.description, m.tags, userId,
                    RecordMetadata(m.objects, m.scenes, m.emotions, m.technical))]
      + RecordsFrom(images, m, userId, i + 1)
  }

  /** The guard of `saveImages`: a non-empty list, a title, and no analysis running. */
  predicate CanSave(images: seq<ImageFile>, m: Metadata) {
    images != [] && m.title != "" && !AnyAnalyzing(images)
  }

  class ImageUploader {
    var isUploading: bool

    constructor ()
      ensures !isUploading
    {
      isUploading := false;
    }

    /**
     * `uploadImages`: visits the entries in order, skips those without a file,
     * and stops at the first reply that yields no URL. `calls` are the
     * `onAnalyze` calls made; `error` is the message of the error rethrown.
     */
    method UploadImages(images: seq<ImageFile>, respond: nat -> UploadReply) returns (calls: seq<AnalyzeCall>, error: Option<string>)
      modifies this
      ensures UploadRun(calls, error) == UploadFrom(images, respond, 0)
      ensures isUploading == (if images == [] then old(isUploading) else false)
    {
      if |images| == 0 {
        return [], None;
      }
      isUploading := true;
      calls, error := [], None;
      var i := 0;
      while i < |images|
        invariant 0 <= i <= |images|
        invariant UploadFrom(images, respond, 0)
          == UploadRun(calls + UploadFrom(images, respond, i).calls, UploadFrom(images, respond, i).error)
        invariant error.None?
      {
        if images[i].file.Some? {
          var reply := ReplyUrl(respond(i));
          if reply.Failure? {
            error := Some(reply.error);
            break;
          }
          calls := calls + [AnalyzeCall(reply.value, i)];
        }
        i := i + 1;
      }
      isUploading := false;
    }

    /**
     * `saveImages`: `user` is the session lookup (`Failure` for an auth error,
     * `Success("")` for no user). Returns the rows inserted.
     */
    method SaveImages(images: seq<ImageFile>, m: Metadata, user: Result<string, string>) returns (records: seq<InsertRecord>, outcome: SaveOutcome)
      modifies this
      ensures !CanSave(images, m) ==> records == [] && outcome == Skipped && isUploading == old(isUploading)
      ensures CanSave(images, m) ==> !isUploading
      ensures CanSave(images, m) && user.Failure? ==> records == [] && outcome == SaveFailed(user.error)
      ensures CanSave(images, m) && user.Success? && user.value == "" ==> records == [] && outcome == SaveFailed(NoUserFound)
      ensures CanSave(images, m) && user.Success? && user.value != "" ==>
        records == RecordsFrom(images, m, user.value, 0) && outcome == Saved
    {
      if |images| == 0 || m.title == "" {
        return [], Skipped;
      }
      var k := 0;
      while k < |images|
        invariant 0 <= k <= |images|
        invariant forall j :: 0 <= j < k ==> !images[j].isAnalyzing
      {
        if images[k].isAnalyzing {
          return [], Skipped;
        }
        k := k + 1;
      }
      isUploading := true;
      if user.Failure? {
        records, outcome := [], SaveFailed(user.error);
      } else if user.value == "" {
        records, outcome := [], SaveFailed(NoUserFound);
      } else {
        records := RecordsFrom(images, m, user.value, 0);
        outcome := Saved;
      }
      isUploading := false;
    }
  }

  // ---------------------------------------------------------------- the upload loop

  /** The analyze calls name accepted entries from `i` on, with the URL each reply gave, in list order. */
  predicate CallsFollowList(images: seq<ImageFile>, respond: nat -> UploadReply, i: nat, calls: seq<AnalyzeCall>) {
    && (forall c :: 0 <= c < |calls| ==>
          && i <= calls[c].index < |images|
          && Accepted(images, respond, calls[c].index)
          && ReplyUrl(respond(calls[c].index)) == Success(calls[c].url))
    && (forall c, d :: 0 <= c < d < |calls| ==> calls[c].index < calls[d].index)
  }

  /** Entry `k` is the subject of one of the calls. */
  predicate Called(calls: seq<AnalyzeCall>, k: nat) {
    exists c :: 0 <= c < |calls| && calls[c].index == k
  }

  /** Every pending file from `i` up to (not including) `f` was accepted. */
  predicate AcceptedBefore(images: seq<ImageFile>, respond: nat -> UploadReply, i: nat, f: nat)
    requires f <= |images|
  {
    forall k :: i <= k < f && images[k].file.Some? ==> ReplyUrl(respond(k)).Success?
  }

  /**
   * Every analyze call names a pending file with the URL its reply gave, and
   * the calls follow list order with each entry at most once.
   */
  lemma {:induction false} UploadCallsFollowList(images: seq<ImageFile>, respond: nat -> UploadReply, i: nat)
    requires i <= |images|
    ensures CallsFollowList(images, respond, i, UploadFrom(images, respond, i).calls)
    decreases |images| - i
  {
    if i < |images| {
      UploadCallsFollowList(images, respond, i + 1);
      var rest := UploadFrom(images, respond, i + 1).calls;
      var calls := UploadFrom(images, respond, i).calls;
      if images[i].file.Some? && ReplyUrl(respond(i)).Success? {
        assert calls == [AnalyzeCall(ReplyUrl(respond(i)).value, i)] + rest;
        assert forall c :: 1 <= c < |calls| ==> calls[c] == rest[c - 1];
      }
    }
  }

  /** A run that ends without error stored every pending file and analyzed exactly those. */
  lemma {:induction false} UploadWithoutErrorVisitsAll(images: seq<ImageFile>, respond: nat -> UploadReply, i: nat)
    requires i <= |images|
    requires UploadFrom(images, respond, i).error.None?
    ensures AcceptedBefore(images, respond, i, |images|)
    ensures forall k :: i <= k < |images| ==> (images[k].file.Some? <==> Called(UploadFrom(images, respond, i).calls, k))
    decreases |images| - i
  {
    if i < |images| {
      UploadWithoutErrorVisitsAll(images, respond, i + 1);
      UploadCallsFollowList(images, respond, i + 1);
      var calls := UploadFrom(images, respond, i).calls;
      var rest := UploadFrom(images, respond, i + 1).calls;
      if images[i].file.Some? {
        assert calls == [AnalyzeCall(ReplyUrl(respond(i)).value, i)] + rest;
        assert forall c :: 1 <= c < |calls| ==> calls[c] == rest[c - 1];
        forall k | i <= k < |images|
          ensures images[k].file.Some? <==> Called(calls, k)
        {
          if k == i {
            assert calls[0].index == i;
          } else if images[k].file.Some? {
            var c :| 0 <= c < |rest| && rest[c].index == k;
            assert calls[c + 1].index == k;
          }
        }
      }
    }
  }

  /**
   * A run that ends with an error stopped at a pending file whose reply gave
   * that error, after accepting every earlier pending file, and called
   * nothing at or after it.
   */
  lemma {:induction false} UploadStopsAtFirstFailure(images: seq<ImageFile>, respond: nat -> UploadReply, i: nat)
    requires i <= |images|
    requires UploadFrom(images, respond, i).error.Some?
    ensures exists f :: (
      && i <= f < |images| && images[f].file.Some?
      && ReplyUrl(respond(f)) == Failure(UploadFrom(images, respond, i).error.value)
      && AcceptedBefore(images, respond, i, f)
      && (forall c :: 0 <= c < |UploadFrom(images, respond, i).calls| ==> UploadFrom(images, respond, i).calls[c].index < f))
    decreases |images| - i
  {
    var run := UploadFrom(images, respond, i);
    if images[i].file.Some? && ReplyUrl(respond(i)).Failure? {
      assert run.calls == [] && ReplyUrl(respond(i)) == Failure(run.error.value);
    } else {
      var rest := UploadFrom(images, respond, i + 1);
      UploadStopsAtFirstFailure(images, respond, i + 1);
      var f :| i + 1 <= f < |images| && images[f].file.Some?
        && ReplyUrl(respond(f)) == Failure(rest.error.value)
        && AcceptedBefore(images, respond, i + 1, f)
        && (forall c :: 0 <= c < |rest.calls| ==> rest.calls[c].index < f);
      if images[i].file.Some? {
        assert run.calls == [AnalyzeCall(ReplyUrl(respond(i)).value, i)] + rest.calls;
        assert forall c :: 1 <= c < |run.calls| ==> run.calls[c] == rest.calls[c - 1];
      }
      assert AcceptedBefore(images, respond, i, f);
    }
  }

  /** An empty list uploads nothing. */
  lemma UploadNothingForEmptyList(respond: nat -> UploadReply)
    ensures UploadFrom([], respond, 0) == UploadRun([], None)
  {
  }

  // ---------------------------------------------------------------- the records

  /**
   * Exactly the stored entries produce a record, in list order; each record
   * carries the entry's URL and the batch's shared fields.
   */
  lemma {:induction false} RecordsAreStoredEntries(images: seq<ImageFile>, m: Metadata, userId: string, i: nat)
    requires i <= |images|
    ensures var rs := RecordsFrom(images, m, userId, i);
      && (forall r :: r in rs ==>
            && r.description == m.description && r.tags == m.tags && r.userId == userId
            && r.metadata == RecordMetadata(m.objects, m.scenes, m.emotions, m.technical)
            && exists k :: i <= k < |images| && IsUploaded(images[k])
                 && r.url == images[k].uploadedUrl.value && r.title == RecordTitle(m.title, |images|, k))
      && (forall k :: i <= k < |images| && IsUploaded(images[k]) ==>
            exists r :: r in rs && r.url == images[k].uploadedUrl.value && r.title == RecordTitle(m.title, |images|, k))
      && |rs| <= |images| - i
    decreases |images| - i
  {
    if i < |images| {
      RecordsAreStoredEntries(images, m, userId, i + 1);
    }
  }

  /** No stored entry, no record. */
  lemma {:induction false} NothingStoredNoRecords(images: seq<ImageFile>, m: Metadata, userId: string, i: nat)
    requires i <= |images|
    requires forall k :: i <= k < |images| ==> !IsUploaded(images[k])
    ensures RecordsFrom(images, m, userId, i) == []
    decreases |images| - i
  {
    if i < |images| {
      NothingStoredNoRecords(images, m, userId, i + 1);
    }
  }

  /** A single image keeps the batch title; in a larger batch, entries at different positions get different titles. */
  lemma RecordTitlesDistinct(title: string, count: nat, j: nat, k: nat)
    ensures count == 1 ==> RecordTitle(title, count, j) == title
    ensures count != 1 && j != k ==> RecordTitle(title, count, j) != RecordTitle(title, count, k)
  {
    if count != 1 && j != k {
      var pre := title + " (";
      var a := pre + Decimal(j + 1) + ")";
      var b := pre + Decimal(k + 1) + ")";
      if a == b {
        assert a[|pre|..|a| - 1] == Decimal(j + 1);
        assert b[|pre|..|b| - 1] == Decimal(k + 1);
        DecimalInjective(j + 1, k + 1);
      }
    }
  }
}
