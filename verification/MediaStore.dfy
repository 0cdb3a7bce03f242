/** One row of the media table and its variants, as apps/worker/src/postgres-media-processing.store.ts
    reads and writes them.  Every write is one conditional statement; `markReady` is one transaction. */
module MediaStore {
  import opened Options
  import opened Utf16

  datatype Status = Pending | Uploading | Processing | Ready | FailedStatus | Rejected | Quarantined | Deleting
      | Deleted

  /** A processed file; only its name and key matter beside an opaque description. */
  datatype File = File(name: Option<string>, storageKey: string, description: nat)

  datatype Result = Result(original: File, variants: seq<File>)

  datatype Job = Job(scanRequired: bool, provider: string, bucket: string)

  datatype Variant = Variant(provider: string, bucket: string, file: File)

  datatype Failure = Failure(code: string, reason: string)

  /** `status` is none when the row does not exist. */
  datatype Row = Row(status: Option<Status>, deleted: bool, failure: Option<Failure>, original: Option<File>,
      variants: map<string, Variant>)

  predicate IsTerminal(status: Option<Status>) {
    status in [Some(Ready), Some(Rejected), Some(Deleted), Some(Deleting)]
  }

  function Cut(reason: string): string {
    CutUnits(reason, 2000)
  }

  function MarkedProcessing(r: Row): Row {
    if r.status == Some(Quarantined) then r.(status := Some(Processing), failure := None) else r
  }

  predicate Claimable(r: Row) {
    r.status == Some(FailedStatus) && !r.deleted
  }

  function Claimed(r: Row): Row {
    if Claimable(r) then r.(status := Some(Processing), failure := None) else r
  }

  function MarkedQuarantined(r: Row, code: string, reason: string): Row {
    if r.status in [Some(Processing), Some(Quarantined)] then
      r.(status := Some(Quarantined), failure := Some(Failure(code, Cut(reason))))
    else r
  }

  function MarkedFailed(r: Row, code: string, reason: string): Row {
    if r.status == Some(Processing) then
      r.(status := Some(FailedStatus), failure := Some(Failure(code, Cut(reason))))
    else r
  }

  /** An insert that on conflict keeps the old provider and bucket and takes the new file. */
  function Upserted(variants: map<string, Variant>, job: Job, file: File): map<string, Variant>
    requires file.name.Some?
  {
    var name := file.name.value;
    variants[name := if name in variants then variants[name].(file := file)
        else Variant(job.provider, job.bucket, file)]
  }

  predicate AllNamed(files: seq<File>) {
    forall i | 0 <= i < |files| :: files[i].name.Some?
  }

  /** The upserts of a list of files, in order. */
  function UpsertedAll(variants: map<string, Variant>, job: Job, files: seq<File>): map<string, Variant>
    requires AllNamed(files)
  {
    if files == [] then variants
    else Upserted(UpsertedAll(variants, job, files[..|files| - 1]), job, files[|files| - 1])
  }

  /** Whether the transaction can commit. */
  predicate CanCommit(r: Row, result: Result) {
    r.status == Some(Processing) && AllNamed(result.variants)
  }

  function MarkedReady(r: Row, job: Job, result: Result): Row {
    if CanCommit(r, result) then
      Row(Some(Ready), r.deleted, None, Some(result.original), UpsertedAll(r.variants, job, result.variants))
    else r
  }

  /** The index of the last file called `name`. */
  function LastNamed(files: seq<File>, name: string): (k: Option<nat>)
    ensures k.Some? ==> k.value < |files| && files[k.value].name == Some(name)
    ensures k.Some? ==> forall i | k.value < i < |files| :: files[i].name != Some(name)
    ensures k.None? ==> forall i | 0 <= i < |files| :: files[i].name != Some(name)
  {
    if files == [] then None
    else if files[|files| - 1].name == Some(name) then Some(|files| - 1)
    else LastNamed(files[..|files| - 1], name)
  }

  /** A committed list leaves, for every name in it, the last file of that name, and nothing else
      changes; a variant that already existed keeps its provider and bucket. */
  lemma {:induction false} LastFileWins(variants: map<string, Variant>, job: Job, files: seq<File>, name: string)
    requires AllNamed(files)
    ensures LastNamed(files, name).None? ==>
              (name in UpsertedAll(variants, job, files) <==> name in variants)
    ensures LastNamed(files, name).None? && name in variants ==>
              UpsertedAll(variants, job, files)[name] == variants[name]
    ensures LastNamed(files, name).Some? ==>
              && name in UpsertedAll(variants, job, files)
              && UpsertedAll(variants, job, files)[name]
                 == Variant(if name in variants then variants[name].provider else job.provider,
                            if name in variants then variants[name].bucket else job.bucket,
                            files[LastNamed(files, name).value])
  {
    if files != [] {
      LastFileWins(variants, job, files[..|files| - 1], name);
    }
  }

  /** The store, with the row updated in place. */
  class PostgresMediaProcessingStore {
    var row: Row

    constructor (initial: Row)
      ensures row == initial
    {
      row := initial;
    }

    method FindStatus() returns (status: Option<Status>)
      ensures status == row.status
    {
      status := row.status;
    }

    method MarkProcessing()
      modifies this
      ensures row == MarkedProcessing(old(row))
    {
      if row.status == Some(Quarantined) {
        row := row.(status := Some(Processing), failure := None);
      }
    }

    method ClaimFailedRetry() returns (won: bool)
      modifies this
      ensures won == Claimable(old(row)) && row == Claimed(old(row))
    {
      won := row.status == Some(FailedStatus) && !row.deleted;
      if won {
        row := row.(status := Some(Processing), failure := None);
      }
    }

    method MarkQuarantined(code: string, reason: string)
      modifies this
      ensures row == MarkedQuarantined(old(row), code, reason)
    {
      if row.status == Some(Processing) || row.status == Some(Quarantined) {
        row := row.(status := Some(Quarantined), failure := Some(Failure(code, Cut(reason))));
      }
    }

    method MarkFailed(code: string, reason: string)
      modifies this
      ensures row == MarkedFailed(old(row), code, reason)
    {
      if row.status == Some(Processing) {
        row := row.(status := Some(FailedStatus), failure := Some(Failure(code, Cut(reason))));
      }
    }

    /** The transaction: upserts in a loop, then the conditional parent update, rolled back when any
        statement fails.  `failAt` is the statement at which the database gives up, if it does. */
    method MarkReady(job: Job, result: Result, failAt: Option<nat>) returns (committed: bool)
      modifies this
      ensures committed ==> row == MarkedReady(old(row), job, result)
      ensures !committed ==> row == old(row)
      ensures committed <==> failAt.None? && CanCommit(old(row), result)
    {
      var begun := row;
      for i := 0 to |result.variants|
        invariant AllNamed(result.variants[..i])
        invariant row == begun.(variants := UpsertedAll(begun.variants, job, result.variants[..i]))
      {
        var variant := result.variants[i];
        if failAt == Some(i) || variant.name.None? {
          row := begun;
          return false;
        }
        assert result.variants[..i + 1][..i] == result.variants[..i];
        row := row.(variants := Upserted(row.variants, job, variant));
      }
      assert result.variants[..|result.variants|] == result.variants;
      if failAt.Some? || row.status != Some(Processing) {
        row := begun;
        return false;
      }
      row := row.(status := Some(Ready), failure := None, original := Some(result.original));
      committed := true;
    }
  }
}
