/** BFS::Bucket::InMem: a bucket backed by a hash from normalised path to an entry.
    A write goes to a Writer whose buffer is private until `close` runs the closer,
    which assigns the bucket's entry for the path: stage, then commit. */
module InMem {
  import opened Common
  import KeyOrder
  import Glob

  /** What the caller's block does inside `perform`: write `data`, then return or raise. */
  datatype Block = Block(data: seq<byte>, raises: bool)

  /** What `perform` hands back. */
  datatype Performed =
    | Returned        // no block: the writer itself, uncommitted
    | Committed       // the block finished and `close` ran the closer
    | Raised(error: Error)  // the block raised; only `close!` ran

  /** InMem::Entry: the stored io (the very Writer that committed), mtime, content type, metadata. */
  datatype Entry = Entry(io: Writer, mtime: int, contentType: Option<string>, metadata: Metadata)

  /** The bytes of `buffer` after a StringIO write of `data` at position `pos`. */
  function Spliced(buffer: seq<byte>, pos: nat, data: seq<byte>): (r: seq<byte>)
    requires pos <= |buffer|
    ensures |r| == if pos + |data| < |buffer| then |buffer| else pos + |data|
    ensures r[..pos] == buffer[..pos]
    ensures r[pos..pos + |data|] == data
    ensures pos + |data| < |buffer| ==> r[pos + |data|..] == buffer[pos + |data|..]
  {
    buffer[..pos] + data + (if pos + |data| < |buffer| then buffer[pos + |data|..] else [])
  }

  /** Writing at the end of the buffer, as a fresh writer does, appends. */
  lemma SplicedAtEnd(buffer: seq<byte>, data: seq<byte>)
    ensures Spliced(buffer, |buffer|, data) == buffer + data
  {
    assert buffer[..|buffer|] == buffer;
  }

  class Bucket {
    /** @files, and the insertion order Ruby's Hash keeps for it. */
    var files: map<string, Entry>
    var order: seq<string>
    /** norm_path and norm_meta come from BFS::Bucket::Abstract; they are parameters here. */
    const normPath: string -> string
    const normMeta: Option<Metadata> -> Metadata

    /** Every entry was stored by the closer of its own io: the io belongs to this bucket,
        its path normalises to the entry's key, and the entry carries the io's content type
        and normalised metadata. */
    ghost predicate Valid()
      reads this
    {
      && KeyOrder.Distinct(order)
      && (forall k :: k in order <==> k in files)
      && forall k :: k in files ==> StoredByCloser(k, files[k])
    }

    /** What the closer of `e.io` stores under key `k`. */
    ghost predicate StoredByCloser(k: string, e: Entry) {
      e.io.bucket == this && normPath(e.io.path) == k
      && e.contentType == e.io.contentType && e.metadata == normMeta(e.io.metadata)
    }

    constructor (normPath: string -> string, normMeta: Option<Metadata> -> Metadata)
      ensures Valid() && files == map[] && order == []
      ensures this.normPath == normPath && this.normMeta == normMeta
    {
      files := map[];
      order := [];
      this.normPath := normPath;
      this.normMeta := normMeta;
    }

    /** `@files[key] = entry`: the one place a commit touches the bucket. */
    method Store(key: string, entry: Entry)
      requires Valid() && StoredByCloser(key, entry)
      modifies this
      ensures Valid()
      ensures files == old(files)[key := entry]
      ensures order == KeyOrder.Assigned(old(order), key)
    {
      files := files[key := entry];
      order := KeyOrder.Assigned(order, key);
    }

    /** `clear`: every entry goes. */
    method Clear()
      modifies this
      ensures Valid() && files == map[] && order == []
    {
      files := map[];
      order := [];
    }

    /** `ls`: the keys of @files that match the glob, each once, in hash order. */
    method Ls(pattern: string, fnmatch: (string, string) -> bool) returns (keys: seq<string>)
      requires Valid()
      ensures keys == Glob.Select(order, pattern, fnmatch)
      ensures forall k :: k in keys <==> k in files && fnmatch(pattern, k)
      ensures KeyOrder.Distinct(keys)
    {
      keys := [];
      var i := 0;
      while i < |order|
        invariant 0 <= i <= |order|
        invariant keys == Glob.Select(order[..i], pattern, fnmatch)
      {
        Glob.SelectConcat(order[..i], [order[i]], pattern, fnmatch);
        assert order[..i + 1] == order[..i] + [order[i]];
        if fnmatch(pattern, order[i]) {
          keys := keys + [order[i]];
        }
        i := i + 1;
      }
      assert order[..i] == order;
      Glob.SelectMembers(order, pattern, fnmatch);
      Glob.SelectDistinct(order, pattern, fnmatch);
    }

    /** `info`: FileNotFound exactly when the normalised path has no entry; otherwise the
        entry's size (the length of its io's string), mtime, content type and metadata. */
    method Info(path: string) returns (r: Result<FileInfo>)
      ensures normPath(path) !in files <==> r.Err?
      ensures r.Err? ==> r.error == FileNotFound(normPath(path))
      ensures r.Ok? ==> var e := files[normPath(path)];
        r.value == FileInfo(normPath(path), |e.io.buffer|, e.mtime, e.contentType, e.metadata)
    {
      var p := normPath(path);
      if p !in files {
        return Err(FileNotFound(p));
      }
      var e := files[p];
      r := Ok(FileInfo(p, |e.io.buffer|, e.mtime, e.contentType, e.metadata));
    }

    /** `create`: a fresh writer whose closer stores an entry for `path`, run through `perform`. */
    method Create(path: string, contentType: Option<string>, metadata: Option<Metadata>,
                  block: Option<Block>, now: int) returns (w: Writer, r: Performed)
      requires Valid()
      modifies this
      ensures Valid() && fresh(w)
      ensures w.bucket == this && w.path == path && w.contentType == contentType && w.metadata == metadata
      ensures block.None? ==> r == Returned && files == old(files) && order == old(order)
                              && w.buffer == [] && w.pos == 0 && !w.closed
      ensures block.Some? ==> w.closed && w.buffer == block.value.data
      ensures block.Some? && !block.value.raises ==>
                r == Committed
                && files == old(files)[normPath(path) := Entry(w, now, contentType, normMeta(metadata))]
                && order == KeyOrder.Assigned(old(order), normPath(path))
      ensures block.Some? && block.value.raises ==>
                r == Raised(BlockRaised) && files == old(files) && order == old(order)
    {
      w := new Writer(this, path, contentType, metadata);
      SplicedAtEnd([], if block.Some? then block.value.data else []);
      r := w.Perform(block, now);
    }

    /** `open` without a block: rewinds the stored io onto its own string and returns that
        same object, not a copy. */
    method Open(path: string) returns (r: Result<Writer>)
      requires Valid()
      modifies if normPath(path) in files then {files[normPath(path)].io} else {}
      ensures normPath(path) !in files <==> r.Err?
      ensures r.Err? ==> r.error == FileNotFound(normPath(path))
      ensures r.Ok? ==> r.value == files[normPath(path)].io
                        && r.value.buffer == old(r.value.buffer) && r.value.pos == 0 && !r.value.closed
    {
      var p := normPath(path);
      if p !in files {
        return Err(FileNotFound(p));
      }
      var io := files[p].io;
      io.Reopen();
      r := Ok(io);
    }

    /** `open` with a block that reads everything: the block sees the whole committed content
        from offset 0; then `io.close` runs the Writer's own `close`, so the closer commits the
        entry again and its mtime becomes the time of the read. */
    method OpenRead(path: string, now: int) returns (r: Result<seq<byte>>)
      requires Valid()
      modifies this, if normPath(path) in files then {files[normPath(path)].io} else {}
      ensures Valid()
      ensures normPath(path) !in old(files) <==> r.Err?
      ensures r.Err? ==> r.error == FileNotFound(normPath(path)) && files == old(files) && order == old(order)
      ensures r.Ok? ==> var p := normPath(path); var io := old(files[p]).io;
                        r.value == old(io.buffer) && io.buffer == old(io.buffer) && io.closed
                        && files == old(files)[p := old(files[p]).(mtime := now)] && order == old(order)
    {
      var o := Open(path);
      if o.Err? {
        return Err(o.error);
      }
      var io := o.value;
      r := io.Read();
      io.Close(now);
    }

    /** `open` with a read-everything block, closing with `close!` as evidently intended: the
        same bytes, and the bucket is left as it was. */
    method OpenReadCorrected(path: string) returns (r: Result<seq<byte>>)
      requires Valid()
      modifies if normPath(path) in files then {files[normPath(path)].io} else {}
      ensures normPath(path) !in files <==> r.Err?
      ensures r.Err? ==> r.error == FileNotFound(normPath(path))
      ensures r.Ok? ==> var io := files[normPath(path)].io;
                        r.value == old(io.buffer) && io.buffer == old(io.buffer) && io.closed
    {
      var o := Open(path);
      if o.Err? {
        return Err(o.error);
      }
      var io := o.value;
      r := io.Read();
      io.CloseBang();
    }

    /** `rm`: drops the entry for the normalised path; an absent path is not an error. */
    method Rm(path: string)
      requires Valid()
      modifies this
      ensures Valid()
      ensures files == old(files) - {normPath(path)}
      ensures order == KeyOrder.Without(old(order), normPath(path))
    {
      var p := normPath(path);
      files := files - {p};
      order := KeyOrder.Without(order, p);
    }
  }

  /** InMem::Writer: a StringIO (buffer, position, closed flag) plus the closer that `create`
      gave it, represented by what the closer captures. */
  class Writer {
    var buffer: seq<byte>
    var pos: nat
    var closed: bool
    const bucket: Bucket
    const path: string
    const contentType: Option<string>
    const metadata: Option<Metadata>

    ghost predicate Valid()
      reads this
    {
      pos <= |buffer|
    }

    constructor (bucket: Bucket, path: string, contentType: Option<string>, metadata: Option<Metadata>)
      ensures Valid() && buffer == [] && pos == 0 && !closed
      ensures this.bucket == bucket && this.path == path
      ensures this.contentType == contentType && this.metadata == metadata
    {
      buffer := [];
      pos := 0;
      closed := false;
      this.bucket := bucket;
      this.path := path;
      this.contentType := contentType;
      this.metadata := metadata;
    }

    /** StringIO#write: overwrites from the current position; IOError once closed. */
    method Write(data: seq<byte>) returns (r: Outcome)
      requires Valid()
      modifies this`buffer, this`pos
      ensures Valid()
      ensures old(closed) ==> r == Fail(NotOpened) && buffer == old(buffer) && pos == old(pos)
      ensures !old(closed) ==> r == Pass && buffer == Spliced(old(buffer), old(pos), data)
                               && pos == old(pos) + |data|
    {
      if closed {
        return Fail(NotOpened);
      }
      buffer := Spliced(buffer, pos, data);
      pos := pos + |data|;
      r := Pass;
    }

    /** StringIO#read with no length: the rest of the string; IOError once closed. */
    method Read() returns (r: Result<seq<byte>>)
      requires Valid()
      modifies this`pos
      ensures Valid()
      ensures old(closed) ==> r == Err(NotOpened) && pos == old(pos)
      ensures !old(closed) ==> r == Ok(buffer[old(pos)..]) && pos == |buffer|
    {
      if closed {
        return Err(NotOpened);
      }
      r := Ok(buffer[pos..]);
      pos := |buffer|;
    }

    /** `io.reopen(io.string)`: the same string, rewound and open again. */
    method Reopen()
      modifies this`pos, this`closed
      ensures pos == 0 && !closed
    {
      pos := 0;
      closed := false;
    }

    /** `close!`: closes the StringIO only; closing twice is harmless. */
    method CloseBang()
      modifies this`closed
      ensures closed
    {
      closed := true;
    }

    /** `close`: `close!`, then the closer stores this writer as the entry for the normalised
        path with the given time. Not a no-op the second time: it stores again. */
    method Close(now: int)
      requires bucket.Valid()
      modifies this`closed, bucket
      ensures closed && bucket.Valid()
      ensures bucket.files == old(bucket.files)[bucket.normPath(path) := Entry(this, now, contentType, bucket.normMeta(metadata))]
      ensures bucket.order == KeyOrder.Assigned(old(bucket.order), bucket.normPath(path))
    {
      CloseBang();
      bucket.Store(bucket.normPath(path), Entry(this, now, contentType, bucket.normMeta(metadata)));
    }

    /** `perform`: without a block, the writer itself; with one, the block's write, then
        `close` (commit) if it finishes, and `close!` on every exit. A raising block, or a
        write on a closed writer, leaves the bucket exactly as it was. */
    method Perform(block: Option<Block>, now: int) returns (r: Performed)
      requires Valid() && bucket.Valid()
      modifies this, bucket
      ensures Valid() && bucket.Valid()
      ensures block.None? ==> r == Returned && unchanged(this) && unchanged(bucket)
      ensures block.Some? ==> closed
      ensures block.Some? && !old(closed) ==> buffer == Spliced(old(buffer), old(pos), block.value.data)
      ensures block.Some? && !old(closed) && !block.value.raises ==>
                r == Committed
                && bucket.files == old(bucket.files)[bucket.normPath(path) := Entry(this, now, contentType, bucket.normMeta(metadata))]
                && bucket.order == KeyOrder.Assigned(old(bucket.order), bucket.normPath(path))
      ensures block.Some? && (old(closed) || block.value.raises) ==>
                r == Raised(if old(closed) then NotOpened else BlockRaised)
                && bucket.files == old(bucket.files) && bucket.order == old(bucket.order)
    {
      if block.None? {
        return Returned;
      }
      var written := Write(block.value.data);
      if written.Fail? {
        CloseBang();
        return Raised(written.error);
      }
      if block.value.raises {
        CloseBang();
        return Raised(BlockRaised);
      }
      Close(now);
      CloseBang();
      r := Committed;
    }
  }

  /** Round trip: bytes written through a block-form `create` are what `info` measures and what
      `open` then reads back in full, with the content type given to `create`. As written, the
      read re-commits the entry, so a later `info` reports the time of the read as mtime. */
  method RoundTrip(b: Bucket, path: string, contentType: Option<string>, data: seq<byte>, now: int, readAt: int)
    returns (info: Result<FileInfo>, read: Result<seq<byte>>, later: Result<FileInfo>)
    requires b.Valid()
    modifies b
    ensures b.Valid()
    ensures info == Ok(FileInfo(b.normPath(path), |data|, now, contentType, b.normMeta(None)))
    ensures read == Ok(data)
    ensures later == Ok(info.value.(mtime := readAt))
  {
    var w, r := b.Create(path, contentType, None, Some(Block(data, false)), now);
    info := b.Info(path);
    read := b.OpenRead(path, readAt);
    later := b.Info(path);
  }

  /** The same round trip with the corrected read: reading leaves what `info` reports alone. */
  method RoundTripCorrected(b: Bucket, path: string, contentType: Option<string>, data: seq<byte>, now: int)
    returns (info: Result<FileInfo>, read: Result<seq<byte>>, later: Result<FileInfo>)
    requires b.Valid()
    modifies b
    ensures b.Valid()
    ensures info == Ok(FileInfo(b.normPath(path), |data|, now, contentType, b.normMeta(None)))
    ensures read == Ok(data)
    ensures later == info
  {
    var w, r := b.Create(path, contentType, None, Some(Block(data, false)), now);
    info := b.Info(path);
    read := b.OpenReadCorrected(path);
    later := b.Info(path);
  }

  /** Stage, then commit: writing to the writer `create` returns leaves the bucket as it was;
      `close` assigns the entry; closing again commits again with the later time. */
  method StageThenCommit(b: Bucket, path: string, data: seq<byte>, closedAt: int, closedAgainAt: int)
    returns (w: Writer, staged: map<string, Entry>, committed: map<string, Entry>)
    requires b.Valid()
    modifies b
    ensures b.Valid() && fresh(w) && w.buffer == data
    ensures staged == old(b.files)
    ensures committed == old(b.files)[b.normPath(path) := Entry(w, closedAt, None, b.normMeta(None))]
    ensures b.files == old(b.files)[b.normPath(path) := Entry(w, closedAgainAt, None, b.normMeta(None))]
  {
    var r;
    w, r := b.Create(path, None, None, None, closedAt);
    var written := w.Write(data);
    SplicedAtEnd([], data);
    staged := b.files;
    w.Close(closedAt);
    committed := b.files;
    w.Close(closedAgainAt);
  }

  /** Abort safety: a block that raises leaves the previous entry, if any, in place. */
  method AbortKeepsOld(b: Bucket, path: string, data: seq<byte>, now: int)
    returns (before: Result<FileInfo>, after: Result<FileInfo>)
    requires b.Valid()
    modifies b
    ensures b.Valid() && b.files == old(b.files)
    ensures after == before
  {
    before := b.Info(path);
    var w, r := b.Create(path, None, None, Some(Block(data, true)), now);
    after := b.Info(path);
  }

  /** Idempotent delete: after `rm`, `info` reports FileNotFound, and a second `rm` is harmless. */
  method RmTwice(b: Bucket, path: string) returns (info: Result<FileInfo>)
    requires b.Valid()
    modifies b
    ensures b.Valid() && b.files == old(b.files) - {b.normPath(path)}
    ensures info == Err(FileNotFound(b.normPath(path)))
  {
    b.Rm(path);
    b.Rm(path);
    info := b.Info(path);
  }
}
