/** The object store: one bucket whose blobs are named by path and hold
    text. The client primitives the pipeline calls — existence test and
    download, upload, server-side copy, delete, prefix listing — are the
    methods of `Bucket`; everything above them only reads or reassigns
    `blobs`. */
module BlobStore {
  import opened Wrappers
  import Text
  import Order

  predicate StrictlyAscending(names: seq<string>)
  {
    forall i, j :: 0 <= i < j < |names| ==> Order.StrLe(names[i], names[j]) && names[i] != names[j]
  }

  lemma {:induction false} LeastExists(s: set<string>)
    requires s != {}
    ensures exists m :: m in s && forall y :: y in s ==> Order.StrLe(m, y)
  {
    var x :| x in s;
    var rest := s - {x};
    Order.StrLeTotal(x, x);
    if rest == {} {
      assert s == {x};
      assert x in s && forall y :: y in s ==> Order.StrLe(x, y);
    } else {
      LeastExists(rest);
      var m :| m in rest && forall y :: y in rest ==> Order.StrLe(m, y);
      var least := LesserOf(x, m);
      forall y | y in s ensures Order.StrLe(least, y) {
        if y == x {
        } else {
          assert Order.StrLe(m, y);
          if least == x {
            Order.StrLeTransitive(x, m, y);
          }
        }
      }
      assert least in s;
    }
  }

  function LesserOf(a: string, b: string): (m: string)
    ensures m == a || m == b
    ensures Order.StrLe(m, a) && Order.StrLe(m, b)
  {
    Order.StrLeTotal(a, b);
    Order.StrLeTotal(a, a);
    Order.StrLeTotal(b, b);
    if Order.StrLe(a, b) then a else b
  }

  class Bucket {
    /** Blob name to content; a name absent from the map is a blob that
        does not exist. */
    var blobs: map<string, string>

    constructor (initial: map<string, string>)
      ensures blobs == initial
    {
      blobs := initial;
    }

    /** `blob.download_as_text()`, with `None` for the `NotFound` it raises
        on a missing blob. */
    function Get(path: string): (r: Option<string>)
      reads this
      ensures r.Some? <==> path in blobs
      ensures r.Some? ==> r.value == blobs[path]
    {
      if path in blobs then Some(blobs[path]) else None
    }

    /** `blob.upload_from_string(text)`: creates or overwrites one blob. */
    method Upload(path: string, text: string)
      modifies this
      ensures blobs == old(blobs)[path := text]
    {
      blobs := blobs[path := text];
    }

    /** `bucket.copy_blob(src, bucket, dst)`: fails (`NotFound`) when the
        source is missing, and otherwise leaves the source in place. */
    method Copy(src: string, dst: string) returns (ok: bool)
      modifies this
      ensures ok == (src in old(blobs))
      ensures ok ==> blobs == old(blobs)[dst := old(blobs)[src]]
      ensures !ok ==> blobs == old(blobs)
    {
      ok := src in blobs;
      if ok {
        blobs := blobs[dst := blobs[src]];
      }
    }

    /** `blob.delete()`: fails (`NotFound`) when the blob is missing. */
    method Delete(path: string) returns (ok: bool)
      modifies this
      ensures ok == (path in old(blobs))
      ensures blobs == old(blobs) - {path}
    {
      ok := path in blobs;
      blobs := blobs - {path};
    }

    /** `bucket.list_blobs(prefix=prefix)`: the names that start with
        `prefix`, in lexicographic order, each once. */
    method ListBlobs(prefix: string) returns (names: seq<string>)
      ensures forall n :: n in names <==> n in blobs && Text.StartsWith(n, prefix)
      ensures StrictlyAscending(names)
    {
      var rest := set n | n in blobs && Text.StartsWith(n, prefix);
      ghost var all := rest;
      names := [];
      while rest != {}
        invariant rest <= all
        invariant forall n :: n in all <==> n in names || n in rest
        invariant forall n :: n in names ==> n !in rest
        invariant StrictlyAscending(names)
        invariant forall i, y :: 0 <= i < |names| && y in rest ==> Order.StrLe(names[i], y)
        decreases rest
      {
        LeastExists(rest);
        var m :| m in rest && forall y :: y in rest ==> Order.StrLe(m, y);
        forall i, y | 0 <= i < |names| && y in rest - {m}
          ensures Order.StrLe(names[i], y)
        {
        }
        names := names + [m];
        rest := rest - {m};
      }
    }
  }
}
