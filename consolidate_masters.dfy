/** The full-replace mastering engine of `consolidate_masters`. A new
    snapshot is compared with the entity's master by an order-independent
    fingerprint; an identical snapshot changes nothing, a first snapshot
    creates the master, and any other snapshot replaces it after the old
    master has been copied into the entity's history folder. Every relevant
    upload event then appends one JSON line to the audit log.

    Each step is a method on the bucket, specified by a function of the
    store's map (`Mastering`, `HandleEventRun`) that returns the outcome and
    the blob writes performed, in order. */
module ConsolidateMasters {
  import opened Wrappers
  import Text
  import Order
  import Csv
  import Json
  import BlobStore
  import SharedUtils
  import Decimal

  /** `hashlib.md5(text.encode()).hexdigest()`, left uninterpreted. */
  type Md5 = string -> string

  function MasterPath(entity: string): string
  {
    "master/" + entity + "/" + entity + "_master.csv"
  }

  function HistoryPath(entity: string, timestamp: string): string
  {
    "master/" + entity + "/history/" + entity + "_master_" + timestamp + ".csv"
  }

  const AuditLogPath: string := "master/audit/audit_log.jsonl"

  /** An archive never lands on the master it archives. */
  lemma HistoryIsNotMaster(entity: string, timestamp: string)
    ensures HistoryPath(entity, timestamp) != MasterPath(entity)
  {
    assert |HistoryPath(entity, timestamp)| > |MasterPath(entity)|;
  }

  /** The snapshot with its rows sorted by every column. */
  function Canonical(t: Csv.Table): (c: Csv.Table)
    ensures c.columns == t.columns
    ensures multiset(c.rows) == multiset(t.rows)
    ensures Order.SortedBy(c.rows, Order.RowLe)
  {
    Order.RowLeIsTotalOrder();
    Csv.Table(t.columns, Order.SortBy(t.rows, Order.RowLe))
  }

  /** `get_file_hash`: the digest of the canonical CSV text, or `None` when
      the blob is missing or does not parse. */
  function FileHash(blobs: map<string, string>, path: string, md5: Md5): (h: Option<string>)
    ensures h.None? <==> path !in blobs || Csv.Parse(blobs[path]).None?
    ensures h.Some? ==> h.value == md5(Csv.Render(Canonical(Csv.Parse(blobs[path]).value)))
  {
    if path !in blobs then None
    else match Csv.Parse(blobs[path])
      case None => None
      case Some(t) => Some(md5(Csv.Render(Canonical(t))))
  }

  /** The fingerprint depends on the rows, not on their order. */
  lemma CanonicalIgnoresRowOrder(t1: Csv.Table, t2: Csv.Table)
    requires t1.columns == t2.columns
    requires multiset(t1.rows) == multiset(t2.rows)
    ensures Canonical(t1) == Canonical(t2)
  {
    Order.RowLeIsTotalOrder();
    Order.SortByPermutation(t1.rows, t2.rows, Order.RowLe);
  }

  lemma FileHashIgnoresRowOrder(b1: map<string, string>, p1: string, b2: map<string, string>, p2: string, md5: Md5)
    requires p1 in b1 && p2 in b2
    requires Csv.Parse(b1[p1]).Some? && Csv.Parse(b2[p2]).Some?
    requires Csv.Parse(b1[p1]).value.columns == Csv.Parse(b2[p2]).value.columns
    requires multiset(Csv.Parse(b1[p1]).value.rows) == multiset(Csv.Parse(b2[p2]).value.rows)
    ensures FileHash(b1, p1, md5) == FileHash(b2, p2, md5)
  {
    CanonicalIgnoresRowOrder(Csv.Parse(b1[p1]).value, Csv.Parse(b2[p2]).value);
  }

  /** One blob write, in the order the engine performs them. */
  datatype Write = Put(path: string, text: string)

  function Apply(blobs: map<string, string>, writes: seq<Write>): map<string, string>
    decreases writes
  {
    if writes == [] then blobs
    else Apply(blobs[writes[0].path := writes[0].text], writes[1..])
  }

  lemma ApplyOne(blobs: map<string, string>, w: Write)
    ensures Apply(blobs, [w]) == blobs[w.path := w.text]
  {
    assert [w][1..] == [];
  }

  lemma ApplyTwo(blobs: map<string, string>, w1: Write, w2: Write)
    ensures Apply(blobs, [w1, w2]) == blobs[w1.path := w1.text][w2.path := w2.text]
  {
    assert [w1, w2][1..] == [w2];
    ApplyOne(blobs[w1.path := w1.text], w2);
  }

  function Written(writes: seq<Write>): set<string>
  {
    set w | w in writes :: w.path
  }

  lemma {:induction false} ApplyOutside(blobs: map<string, string>, writes: seq<Write>, p: string)
    requires p !in Written(writes)
    ensures (p in Apply(blobs, writes)) == (p in blobs)
    ensures p in blobs ==> Apply(blobs, writes)[p] == blobs[p]
    decreases writes
  {
    if writes != [] {
      assert writes[0] in writes;
      assert Written(writes[1..]) <= Written(writes) by {
        forall q | q in Written(writes[1..]) ensures q in Written(writes) {
          var w :| w in writes[1..] && w.path == q;
          assert w in writes;
        }
      }
      ApplyOutside(blobs[writes[0].path := writes[0].text], writes[1..], p);
    }
  }

  /** What `process_mastering` returns. */
  datatype Action =
    | Unchanged
    | Created(rows: nat)
    | Mastered(rows: nat, history: string)

  /** The exceptions that escape `process_mastering`: the second download
      of the new file raises `NotFound`, or `read_csv` raises. */
  datatype Crash = NotFound(path: string) | Unparsable(path: string)

  datatype Run = Run(result: Result<Action, Crash>, writes: seq<Write>)

  /** `process_mastering(entity, new_file, id_col)` over the store `blobs`;
      `timestamp` is what `utcnow().strftime("%Y%m%d_%H%M%S")` returns. */
  function Mastering(blobs: map<string, string>, entity: string, newFile: string,
                     timestamp: string, md5: Md5): Run
  {
    var master := MasterPath(entity);
    var newHash := FileHash(blobs, newFile, md5);
    var currentHash := FileHash(blobs, master, md5);
    if newHash == currentHash then Run(Ok(Unchanged), [])
    else if newFile !in blobs then Run(Err(NotFound(newFile)), [])
    else match Csv.Parse(blobs[newFile])
      case None => Run(Err(Unparsable(newFile)), [])
      case Some(df) =>
        if currentHash.None? then
          Run(Ok(Created(|df.rows|)), [Put(master, Csv.Render(df))])
        else
          var history := HistoryPath(entity, timestamp);
          Run(Ok(Mastered(|df.rows|, history)),
              [Put(history, blobs[master]), Put(master, Csv.Render(df))])
  }

  /** `upload_csv(df, path)`. */
  method UploadCsv(b: BlobStore.Bucket, df: Csv.Table, path: string)
    modifies b
    ensures b.blobs == old(b.blobs)[path := Csv.Render(df)]
  {
    b.Upload(path, Csv.Render(df));
  }

  /** `move_to_history(current_path, entity)`: a copy, so the current
      master stays where it is. The copy raises when the master is
      missing; the engine calls it only when the master has a hash. */
  method MoveToHistory(b: BlobStore.Bucket, currentPath: string, entity: string, timestamp: string)
    returns (historyPath: string)
    requires currentPath in b.blobs
    modifies b
    ensures historyPath == HistoryPath(entity, timestamp)
    ensures b.blobs == old(b.blobs)[historyPath := old(b.blobs)[currentPath]]
  {
    historyPath := HistoryPath(entity, timestamp);
    var copied := b.Copy(currentPath, historyPath);
  }

  /** `log_audit(event_data)`: the shared append-only log rule at the
      engine's fixed log path. */
  method LogAudit(b: BlobStore.Bucket, event: Json.Json)
    modifies b
    ensures b.blobs == old(b.blobs)[AuditLogPath :=
      SharedUtils.AppendedLog(SharedUtils.LogBefore(old(b.blobs), AuditLogPath), event)]
  {
    var existing := b.Get(AuditLogPath);
    b.Upload(AuditLogPath, SharedUtils.AppendedLog(existing, event));
  }

  method ProcessMastering(b: BlobStore.Bucket, entity: string, newFile: string, idCol: string,
                          timestamp: string, md5: Md5)
    returns (r: Result<Action, Crash>)
    modifies b
    ensures r == Mastering(old(b.blobs), entity, newFile, timestamp, md5).result
    ensures b.blobs == Apply(old(b.blobs), Mastering(old(b.blobs), entity, newFile, timestamp, md5).writes)
  {
    var master := MasterPath(entity);
    var newHash := FileHash(b.blobs, newFile, md5);
    var currentHash := FileHash(b.blobs, master, md5);
    if newHash == currentHash {
      return Ok(Unchanged);
    }
    var data := b.Get(newFile);
    if data.None? {
      return Err(NotFound(newFile));
    }
    var parsed := Csv.Parse(data.value);
    if parsed.None? {
      return Err(Unparsable(newFile));
    }
    var newDf := parsed.value;
    if currentHash.None? {
      ApplyOne(b.blobs, Put(master, Csv.Render(newDf)));
      UploadCsv(b, newDf, master);
      return Ok(Created(|newDf.rows|));
    }
    ghost var before := b.blobs;
    var historyPath := MoveToHistory(b, master, entity, timestamp);
    UploadCsv(b, newDf, master);
    ApplyTwo(before, Put(historyPath, before[master]), Put(master, Csv.Render(newDf)));
    return Ok(Mastered(|newDf.rows|, historyPath));
  }

  /** Equal fingerprints — both missing included — give `unchanged` and
      write nothing. */
  lemma UnchangedWritesNothing(blobs: map<string, string>, entity: string, newFile: string,
                               timestamp: string, md5: Md5)
    requires FileHash(blobs, newFile, md5) == FileHash(blobs, MasterPath(entity), md5)
    ensures Mastering(blobs, entity, newFile, timestamp, md5) == Run(Ok(Unchanged), [])
  {
  }

  /** An unreadable new file meets no readable master and compares equal:
      the run reports `unchanged` although nothing was read. */
  lemma UnreadableWithoutMasterIsUnchanged(blobs: map<string, string>, entity: string,
                                           newFile: string, timestamp: string, md5: Md5)
    requires newFile !in blobs || Csv.Parse(blobs[newFile]).None?
    requires MasterPath(entity) !in blobs || Csv.Parse(blobs[MasterPath(entity)]).None?
    ensures Mastering(blobs, entity, newFile, timestamp, md5) == Run(Ok(Unchanged), [])
  {
  }

  /** An unreadable new file against a readable master: the download or
      parse raises and nothing is written. */
  lemma UnreadableWithMasterCrashes(blobs: map<string, string>, entity: string,
                                    newFile: string, timestamp: string, md5: Md5)
    requires newFile !in blobs || Csv.Parse(blobs[newFile]).None?
    requires MasterPath(entity) in blobs && Csv.Parse(blobs[MasterPath(entity)]).Some?
    ensures Mastering(blobs, entity, newFile, timestamp, md5).result.Err?
    ensures Mastering(blobs, entity, newFile, timestamp, md5).writes == []
  {
  }

  /** Without a readable master, a readable new snapshot with a different
      fingerprint becomes the master, and no history blob is written. */
  lemma FirstSnapshotCreates(blobs: map<string, string>, entity: string, newFile: string,
                             timestamp: string, md5: Md5)
    requires newFile in blobs && Csv.Parse(blobs[newFile]).Some?
    requires FileHash(blobs, MasterPath(entity), md5).None?
    ensures var run := Mastering(blobs, entity, newFile, timestamp, md5);
      var df := Csv.Parse(blobs[newFile]).value;
      && run.result == Ok(Created(|df.rows|))
      && run.writes == [Put(MasterPath(entity), Csv.Render(df))]
      && HistoryPath(entity, timestamp) !in Written(run.writes)
  {
    HistoryIsNotMaster(entity, timestamp);
  }

  /** Against a readable master with another fingerprint, the old master is
      written to the history path first and only then is the master
      overwritten; the result names that history path. */
  lemma ChangedSnapshotArchivesFirst(blobs: map<string, string>, entity: string, newFile: string,
                                     timestamp: string, md5: Md5)
    requires newFile in blobs && Csv.Parse(blobs[newFile]).Some?
    requires FileHash(blobs, MasterPath(entity), md5).Some?
    requires FileHash(blobs, newFile, md5) != FileHash(blobs, MasterPath(entity), md5)
    ensures var run := Mastering(blobs, entity, newFile, timestamp, md5);
      var df := Csv.Parse(blobs[newFile]).value;
      var history := HistoryPath(entity, timestamp);
      var after := Apply(blobs, run.writes);
      && run.result == Ok(Mastered(|df.rows|, history))
      && run.writes == [Put(history, blobs[MasterPath(entity)]), Put(MasterPath(entity), Csv.Render(df))]
      && after == blobs[history := blobs[MasterPath(entity)]][MasterPath(entity) := Csv.Render(df)]
      && after.Keys == blobs.Keys + {history}
  {
    var master := MasterPath(entity);
    var history := HistoryPath(entity, timestamp);
    HistoryIsNotMaster(entity, timestamp);
    assert master in blobs;
    var df := Csv.Parse(blobs[newFile]).value;
    var writes := [Put(history, blobs[master]), Put(master, Csv.Render(df))];
    assert Mastering(blobs, entity, newFile, timestamp, md5) == Run(Ok(Mastered(|df.rows|, history)), writes);
    ApplyTwo(blobs, writes[0], writes[1]);
    var after := blobs[history := blobs[master]][master := Csv.Render(df)];
    assert after.Keys == blobs.Keys + {history};
  }

  /** Mastering writes the master and at most its archive; every other blob
      keeps its content. */
  lemma MasteringFrame(blobs: map<string, string>, entity: string, newFile: string,
                       timestamp: string, md5: Md5, p: string)
    requires p != MasterPath(entity) && p != HistoryPath(entity, timestamp)
    ensures var after := Apply(blobs, Mastering(blobs, entity, newFile, timestamp, md5).writes);
      (p in after) == (p in blobs) && (p in blobs ==> after[p] == blobs[p])
  {
    var run := Mastering(blobs, entity, newFile, timestamp, md5);
    MasteringWritten(blobs, entity, newFile, timestamp, md5);
    ApplyOutside(blobs, run.writes, p);
  }

  /** Mastering writes at most the master and its archive. */
  lemma MasteringWritten(blobs: map<string, string>, entity: string, newFile: string,
                         timestamp: string, md5: Md5)
    ensures Written(Mastering(blobs, entity, newFile, timestamp, md5).writes)
      <= {MasterPath(entity), HistoryPath(entity, timestamp)}
  {
    var run := Mastering(blobs, entity, newFile, timestamp, md5);
    forall w | w in run.writes
      ensures w.path == MasterPath(entity) || w.path == HistoryPath(entity, timestamp)
    {
    }
  }

  /** Re-running on the same file right after it was mastered finds equal
      fingerprints and does nothing: mastering is idempotent. */
  lemma MasteringIdempotent(blobs: map<string, string>, entity: string, newFile: string,
                            t1: string, t2: string, md5: Md5)
    requires newFile != MasterPath(entity) && newFile != HistoryPath(entity, t1)
    requires Mastering(blobs, entity, newFile, t1, md5).result.Ok?
    ensures var after := Apply(blobs, Mastering(blobs, entity, newFile, t1, md5).writes);
      Mastering(after, entity, newFile, t2, md5) == Run(Ok(Unchanged), [])
  {
    var master := MasterPath(entity);
    var run := Mastering(blobs, entity, newFile, t1, md5);
    if run.result != Ok(Unchanged) {
      assert newFile in blobs;
      var df := Csv.Parse(blobs[newFile]).value;
      var text := Csv.Render(df);
      var after;
      if FileHash(blobs, master, md5).None? {
        assert run.writes == [Put(master, text)];
        ApplyOne(blobs, Put(master, text));
        after := blobs[master := text];
      } else {
        var history := HistoryPath(entity, t1);
        HistoryIsNotMaster(entity, t1);
        assert run.writes == [Put(history, blobs[master]), Put(master, text)];
        ApplyTwo(blobs, Put(history, blobs[master]), Put(master, text));
        after := blobs[history := blobs[master]][master := text];
      }
      assert Apply(blobs, run.writes) == after;
      MasterMatchesSnapshot(after, entity, newFile, t2, md5, df);
    }
  }

  /** Once the master holds the rendering of the table the snapshot parses
      to, mastering that snapshot is `unchanged`. */
  lemma MasterMatchesSnapshot(blobs: map<string, string>, entity: string, newFile: string,
                              timestamp: string, md5: Md5, df: Csv.Table)
    requires newFile in blobs && Csv.Parse(blobs[newFile]) == Some(df)
    requires MasterPath(entity) in blobs && blobs[MasterPath(entity)] == Csv.Render(df)
    ensures Mastering(blobs, entity, newFile, timestamp, md5) == Run(Ok(Unchanged), [])
  {
    Csv.ParseRender(df);
    assert FileHash(blobs, MasterPath(entity), md5) == Some(md5(Csv.Render(Canonical(df))));
    assert FileHash(blobs, newFile, md5) == Some(md5(Csv.Render(Canonical(df))));
  }

  /** A snapshot whose rows are the master's rows in another order leaves
      the master alone. */
  lemma ReorderedSnapshotIsUnchanged(blobs: map<string, string>, entity: string, newFile: string,
                                     timestamp: string, md5: Md5)
    requires newFile in blobs && MasterPath(entity) in blobs
    requires Csv.Parse(blobs[newFile]).Some? && Csv.Parse(blobs[MasterPath(entity)]).Some?
    requires Csv.Parse(blobs[newFile]).value.columns == Csv.Parse(blobs[MasterPath(entity)]).value.columns
    requires multiset(Csv.Parse(blobs[newFile]).value.rows)
          == multiset(Csv.Parse(blobs[MasterPath(entity)]).value.rows)
    ensures Mastering(blobs, entity, newFile, timestamp, md5) == Run(Ok(Unchanged), [])
  {
    FileHashIgnoresRowOrder(blobs, newFile, blobs, MasterPath(entity), md5);
  }

  lemma {:induction false} ApplyConcat(blobs: map<string, string>, w1: seq<Write>, w2: seq<Write>)
    ensures Apply(blobs, w1 + w2) == Apply(Apply(blobs, w1), w2)
    decreases w1
  {
    if w1 != [] {
      assert (w1 + w2)[0] == w1[0];
      assert (w1 + w2)[1..] == w1[1..] + w2;
      ApplyConcat(blobs[w1[0].path := w1[0].text], w1[1..], w2);
    } else {
      assert w1 + w2 == w2;
    }
  }

  /** Which entity an upload belongs to, with the key column the engine is
      handed for it. */
  datatype Route = Route(entity: string, idCol: string)

  /** `main`'s routing: a `.csv` name under `customers/`, `products/` or
      `suppliers/`, tried in that order; anything else is not relevant. */
  function RouteOf(fileName: string): Option<Route>
  {
    if !Text.EndsWith(fileName, ".csv") then None
    else if Text.StartsWith(fileName, "customers/") then Some(Route("customers", "customer_id"))
    else if Text.StartsWith(fileName, "products/") then Some(Route("products", "product_id"))
    else if Text.StartsWith(fileName, "suppliers/") then Some(Route("suppliers", "supplier_id"))
    else None
  }

  predicate IsEntity(entity: string)
  {
    entity == "customers" || entity == "products" || entity == "suppliers"
  }

  /** A name is routed exactly when it ends in `.csv` and sits under one of
      the three entity folders, and it is routed to the folder it sits in. */
  lemma RouteOfSpec(fileName: string)
    ensures RouteOf(fileName).Some? <==>
      Text.EndsWith(fileName, ".csv") &&
      exists e :: IsEntity(e) && Text.StartsWith(fileName, e + "/")
    ensures RouteOf(fileName).Some? ==>
      var r := RouteOf(fileName).value;
      && IsEntity(r.entity)
      && Text.StartsWith(fileName, r.entity + "/")
      && r.idCol == r.entity[..|r.entity| - 1] + "_id"
  {
    EntityFolders();
    if RouteOf(fileName).Some? {
      var e := RouteOf(fileName).value.entity;
      assert IsEntity(e) && Text.StartsWith(fileName, e + "/");
    }
    if Text.EndsWith(fileName, ".csv") && exists e :: IsEntity(e) && Text.StartsWith(fileName, e + "/") {
      var e :| IsEntity(e) && Text.StartsWith(fileName, e + "/");
      assert RouteOf(fileName).Some?;
    }
  }

  /** The folder and the identifier column of each entity, spelled out. */
  lemma EntityFolders()
    ensures "customers" + "/" == "customers/" && "customers"[..8] + "_id" == "customer_id"
    ensures "products" + "/" == "products/" && "products"[..7] + "_id" == "product_id"
    ensures "suppliers" + "/" == "suppliers/" && "suppliers"[..8] + "_id" == "supplier_id"
  {
  }

  /** Entity masters, their archives and the audit log never share a path. */
  lemma EnginePathsDistinct(entity: string, timestamp: string)
    requires IsEntity(entity)
    ensures MasterPath(entity) != AuditLogPath
    ensures HistoryPath(entity, timestamp) != AuditLogPath
    ensures HistoryPath(entity, timestamp) != MasterPath(entity)
  {
    HistoryIsNotMaster(entity, timestamp);
    assert HistoryPath(entity, timestamp)[7] == entity[0] != AuditLogPath[7];
    assert MasterPath(entity)[7] == entity[0] != AuditLogPath[7];
  }

  function ActionName(a: Action): string
  {
    match a
      case Unchanged => "unchanged"
      case Created(_) => "created"
      case Mastered(_, _) => "mastered"
  }

  /** The dictionary `process_mastering` returns. */
  function ActionJson(a: Action): Json.Json
  {
    match a
      case Unchanged =>
        Json.JObj([Json.Member("action", Json.JStr("unchanged")),
                   Json.Member("reason", Json.JStr("identical_content"))])
      case Created(n) =>
        Json.JObj([Json.Member("action", Json.JStr("created")), Json.Member("rows", Json.JInt(n))])
      case Mastered(n, h) =>
        Json.JObj([Json.Member("action", Json.JStr("mastered")), Json.Member("rows", Json.JInt(n)),
                   Json.Member("history", Json.JStr(h))])
  }

  /** The audit record of one event; `now` is `utcnow().isoformat()`. */
  function AuditEvent(now: string, fileName: string, entity: string, a: Action): Json.Json
  {
    Json.JObj([Json.Member("timestamp", Json.JStr(now)), Json.Member("file", Json.JStr(fileName)),
               Json.Member("entity", Json.JStr(entity)), Json.Member("result", ActionJson(a))])
  }

  /** The reply of `main` (or the exception that escapes it) and the blob
      writes of the whole event, in order. */
  datatype EventRun = EventRun(reply: Result<string, Crash>, writes: seq<Write>)

  /** `main(event, context)` for an upload named `fileName`; `stamp` is the
      archive timestamp and `now` the audit timestamp. */
  function HandleEventRun(blobs: map<string, string>, fileName: string, stamp: string,
                          now: string, md5: Md5): EventRun
  {
    match RouteOf(fileName)
      case None => EventRun(Ok("File not relevant"), [])
      case Some(route) =>
        var run := Mastering(blobs, route.entity, fileName, stamp, md5);
        match run.result
          case Err(e) => EventRun(Err(e), run.writes)
          case Ok(a) =>
            var mastered := Apply(blobs, run.writes);
            var log := SharedUtils.AppendedLog(SharedUtils.LogBefore(mastered, AuditLogPath),
                                               AuditEvent(now, fileName, route.entity, a));
            EventRun(Ok("Mastering " + route.entity + ": " + ActionName(a)),
                     run.writes + [Put(AuditLogPath, log)])
  }

  method HandleEvent(b: BlobStore.Bucket, fileName: string, stamp: string, now: string, md5: Md5)
    returns (reply: Result<string, Crash>)
    modifies b
    ensures reply == HandleEventRun(old(b.blobs), fileName, stamp, now, md5).reply
    ensures b.blobs == Apply(old(b.blobs), HandleEventRun(old(b.blobs), fileName, stamp, now, md5).writes)
  {
    var route := RouteOf(fileName);
    if route.None? {
      return Ok("File not relevant");
    }
    var entity := route.value.entity;
    ghost var before := b.blobs;
    var result := ProcessMastering(b, entity, fileName, route.value.idCol, stamp, md5);
    if result.Err? {
      return Err(result.error);
    }
    ghost var mastered := b.blobs;
    var event := AuditEvent(now, fileName, entity, result.value);
    LogAudit(b, event);
    ghost var writes := Mastering(before, entity, fileName, stamp, md5).writes;
    ApplyConcat(before, writes, [Put(AuditLogPath, SharedUtils.AppendedLog(SharedUtils.LogBefore(mastered, AuditLogPath), event))]);
    ApplyOne(mastered, Put(AuditLogPath, SharedUtils.AppendedLog(SharedUtils.LogBefore(mastered, AuditLogPath), event)));
    return Ok("Mastering " + entity + ": " + ActionName(result.value));
  }

  /** A name outside the three entity folders, or not ending in `.csv`, is
      answered without reading or writing anything. */
  lemma IrrelevantEventDoesNothing(blobs: map<string, string>, fileName: string, stamp: string,
                                   now: string, md5: Md5)
    requires RouteOf(fileName).None?
    ensures HandleEventRun(blobs, fileName, stamp, now, md5) == EventRun(Ok("File not relevant"), [])
  {
  }

  /** A mastering that raises escapes `main`: nothing is written and no
      audit line is appended. */
  lemma CrashWritesNothing(blobs: map<string, string>, fileName: string, stamp: string,
                           now: string, md5: Md5)
    requires RouteOf(fileName).Some?
    requires Mastering(blobs, RouteOf(fileName).value.entity, fileName, stamp, md5).result.Err?
    ensures HandleEventRun(blobs, fileName, stamp, now, md5).reply.Err?
    ensures HandleEventRun(blobs, fileName, stamp, now, md5).writes == []
  {
  }

  /** A relevant event that masters without raising appends exactly one
      line to the audit log, keeping the old log (empty if missing) as a
      prefix; the line is the JSON of the event, and the reply names the
      entity and the action. */
  lemma RelevantEventAuditsOnce(blobs: map<string, string>, fileName: string, stamp: string,
                                now: string, md5: Md5)
    requires RouteOf(fileName).Some?
    requires Mastering(blobs, RouteOf(fileName).value.entity, fileName, stamp, md5).result.Ok?
    ensures var entity := RouteOf(fileName).value.entity;
      var a := Mastering(blobs, entity, fileName, stamp, md5).result.value;
      var after := Apply(blobs, HandleEventRun(blobs, fileName, stamp, now, md5).writes);
      var prior := if AuditLogPath in blobs then blobs[AuditLogPath] else "";
      && HandleEventRun(blobs, fileName, stamp, now, md5).reply == Ok("Mastering " + entity + ": " + ActionName(a))
      && AuditLogPath in after
      && after[AuditLogPath] == prior + Json.Dumps(AuditEvent(now, fileName, entity, a)) + "\n"
      && SharedUtils.LineCount(after[AuditLogPath]) == SharedUtils.LineCount(prior) + 1
  {
    var entity := RouteOf(fileName).value.entity;
    var run := Mastering(blobs, entity, fileName, stamp, md5);
    var a := run.result.value;
    var event := AuditEvent(now, fileName, entity, a);
    var mastered := Apply(blobs, run.writes);
    RouteOfSpec(fileName);
    EnginePathsDistinct(entity, stamp);
    MasteringFrame(blobs, entity, fileName, stamp, md5, AuditLogPath);
    var existing := SharedUtils.LogBefore(mastered, AuditLogPath);
    assert existing == SharedUtils.LogBefore(blobs, AuditLogPath);
    var log := SharedUtils.AppendedLog(existing, event);
    ApplyConcat(blobs, run.writes, [Put(AuditLogPath, log)]);
    ApplyOne(mastered, Put(AuditLogPath, log));
    SharedUtils.AppendAddsOneLine(existing, event);
  }

  /** An event changes at most the entity's master, one archive and the
      audit log. */
  lemma EventFrame(blobs: map<string, string>, fileName: string, stamp: string,
                   now: string, md5: Md5, p: string)
    requires RouteOf(fileName).Some?
    requires p != AuditLogPath
    requires p != MasterPath(RouteOf(fileName).value.entity)
    requires p != HistoryPath(RouteOf(fileName).value.entity, stamp)
    ensures var after := Apply(blobs, HandleEventRun(blobs, fileName, stamp, now, md5).writes);
      (p in after) == (p in blobs) && (p in blobs ==> after[p] == blobs[p])
  {
    var entity := RouteOf(fileName).value.entity;
    var run := Mastering(blobs, entity, fileName, stamp, md5);
    MasteringFrame(blobs, entity, fileName, stamp, md5, p);
    if run.result.Ok? {
      var mastered := Apply(blobs, run.writes);
      var log := SharedUtils.AppendedLog(SharedUtils.LogBefore(mastered, AuditLogPath),
                                         AuditEvent(now, fileName, entity, run.result.value));
      ApplyConcat(blobs, run.writes, [Put(AuditLogPath, log)]);
      ApplyOne(mastered, Put(AuditLogPath, log));
    }
  }
}
