/** The store helpers shared by the cloud functions: CSV upload and
    download, move (copy then delete) and the append-only audit log.
    Each helper is a method on the bucket, specified by a function of the
    store's map that the lemmas below reason about. */
module SharedUtils {
  import opened Wrappers
  import Csv
  import Json
  import BlobStore

  /** `download_csv_from_gcs`: `None` where the download or the parse
      raises. */
  function DownloadCsv(blobs: map<string, string>, path: string): (r: Option<Csv.Table>)
    ensures r.Some? ==> path in blobs && Csv.WellFormed(r.value)
  {
    if path in blobs then Csv.Parse(blobs[path]) else None
  }

  /** The store after `upload_csv_to_gcs(df, bucket, path)`. */
  function Uploaded(blobs: map<string, string>, df: Csv.Table, path: string): map<string, string>
  {
    blobs[path := Csv.Render(df)]
  }

  method UploadCsvToGcs(b: BlobStore.Bucket, df: Csv.Table, path: string)
    modifies b
    ensures b.blobs == Uploaded(old(b.blobs), df, path)
  {
    b.Upload(path, Csv.Render(df));
  }

  /** An upload sets exactly one blob. */
  lemma UploadTouchesOnlyPath(blobs: map<string, string>, df: Csv.Table, path: string)
    ensures path in Uploaded(blobs, df, path)
    ensures Uploaded(blobs, df, path).Keys == blobs.Keys + {path}
    ensures forall p :: p in blobs && p != path ==> Uploaded(blobs, df, path)[p] == blobs[p]
  {
  }

  /** Downloading what was uploaded gives the uploaded table back. */
  lemma DownloadAfterUpload(blobs: map<string, string>, df: Csv.Table, path: string)
    requires Csv.WellFormed(df)
    ensures DownloadCsv(Uploaded(blobs, df, path), path) == Some(df)
  {
    Csv.ParseRender(df);
  }

  /** The store after a successful `move_blob(bucket, src, dst)`: the copy
      onto `dst`, then the delete of `src`. */
  function Moved(blobs: map<string, string>, src: string, dst: string): map<string, string>
    requires src in blobs
  {
    blobs[dst := blobs[src]] - {src}
  }

  /** `move_blob`: fails, changing nothing, when the source does not exist
      (the copy raises `NotFound`). */
  method MoveBlob(b: BlobStore.Bucket, src: string, dst: string) returns (ok: bool)
    modifies b
    ensures ok == (src in old(b.blobs))
    ensures ok ==> b.blobs == Moved(old(b.blobs), src, dst)
    ensures !ok ==> b.blobs == old(b.blobs)
  {
    ok := b.Copy(src, dst);
    if ok {
      var deleted := b.Delete(src);
    }
  }

  /** Between distinct paths, a move leaves the old source content at the
      destination, no source, and every other blob as it was. */
  lemma MoveDistinct(blobs: map<string, string>, src: string, dst: string)
    requires src in blobs && src != dst
    ensures dst in Moved(blobs, src, dst) && Moved(blobs, src, dst)[dst] == blobs[src]
    ensures src !in Moved(blobs, src, dst)
    ensures Moved(blobs, src, dst).Keys == blobs.Keys - {src} + {dst}
    ensures forall p :: p in blobs && p != src && p != dst ==> Moved(blobs, src, dst)[p] == blobs[p]
  {
  }

  /** Moving a blob onto its own path deletes it: the delete follows the
      copy. */
  lemma MoveOntoItself(blobs: map<string, string>, path: string)
    requires path in blobs
    ensures Moved(blobs, path, path) == blobs - {path}
  {
  }

  /** An audit log's new content: the old content (none if the download
      fails) followed by the entry's JSON and a newline. */
  function AppendedLog(existing: Option<string>, entry: Json.Json): string
  {
    (if existing.Some? then existing.value else "") + Json.Dumps(entry) + "\n"
  }

  function LogBefore(blobs: map<string, string>, path: string): Option<string>
  {
    if path in blobs then Some(blobs[path]) else None
  }

  /** `append_audit_log(bucket, audit_log, path)`. */
  method AppendAuditLog(b: BlobStore.Bucket, entry: Json.Json, path: string)
    modifies b
    ensures b.blobs == old(b.blobs)[path := AppendedLog(LogBefore(old(b.blobs), path), entry)]
  {
    var existing := b.Get(path);
    b.Upload(path, AppendedLog(existing, entry));
  }

  /** The number of lines of a log: its newline characters. */
  function LineCount(s: string): nat
  {
    if s == [] then 0 else (if s[0] == '\n' then 1 else 0) + LineCount(s[1..])
  }

  lemma {:induction false} LineCountConcat(a: string, b: string)
    ensures LineCount(a + b) == LineCount(a) + LineCount(b)
  {
    if a == [] {
      assert a + b == b;
    } else {
      assert (a + b)[1..] == a[1..] + b;
      LineCountConcat(a[1..], b);
    }
  }

  lemma {:induction false} NoNewlineNoLine(s: string)
    requires '\n' !in s
    ensures LineCount(s) == 0
  {
    if s != [] {
      NoNewlineNoLine(s[1..]);
    }
  }

  /** Appending keeps the old log as a prefix and adds exactly one line. */
  lemma AppendAddsOneLine(existing: Option<string>, entry: Json.Json)
    ensures var prior := if existing.Some? then existing.value else "";
      && prior <= AppendedLog(existing, entry)
      && LineCount(AppendedLog(existing, entry)) == LineCount(prior) + 1
  {
    var prior := if existing.Some? then existing.value else "";
    var line := Json.Dumps(entry);
    Json.DumpsHasNoNewline(entry);
    NoNewlineNoLine(line);
    LineCountConcat(prior, line);
    LineCountConcat(prior + line, "\n");
    assert AppendedLog(existing, entry) == prior + line + "\n";
  }

  /** A missing log counts as empty: the first append is a single line. */
  lemma FirstAppendIsOneLine(entry: Json.Json)
    ensures AppendedLog(None, entry) == Json.Dumps(entry) + "\n"
    ensures LineCount(AppendedLog(None, entry)) == 1
  {
    AppendAddsOneLine(None, entry);
  }
}
