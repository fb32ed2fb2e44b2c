# bfs.rb bucket drivers in Dafny

This project models the bucket drivers of bfs.rb, a Ruby library that puts one interface
(`ls`, `info`, `create`, `open`, `rm`, `cp`, `mv`) over several blob stores. It proves
properties of the model. Three drivers are covered:

- **InMem** (`in_mem.dfy`): the in-memory bucket. It is a class whose `files` map holds one
  entry per normalised path. The entry holds the stored io, its mtime, content type and
  metadata. A `Writer` class is the StringIO that `create` returns, together with what its
  closer captures. Writes stay in the writer until `close` runs the closer. The closer then
  assigns the bucket's entry: stage, then commit. `perform` is the scoped form. Its block is
  a `Block` value that writes some bytes and then either finishes or raises.
- **S3** (`s3.dfy`, `s3_client.dfy`): the S3 driver's own logic. This covers:
  - the key-by-key option rewrite loop of the constructor, and the settings it derives;
  - the request options `create` merges;
  - `ls`, `info`, `open`, `rm` and `cp` over an object store. The store behaves like the
    client double in the driver's tests: an ordered hash, where a missing key gives
    NoSuchKey. The double does not answer the `prefix`/`max_keys` listing that `info` sends, so
    that listing follows S3 itself: keys in sorted order;
  - how NoSuchKey becomes FileNotFound, or nothing at all for `rm`;
  - the `s3://` URL constructor.
- **FS** (`fs.dfy`, `paths.dfy`): the filesystem driver's bookkeeping. This covers:
  - the root prefix `root.chomp('/') + '/'`;
  - `trim_prefix`, which edits its argument in place (a mutable `RString`);
  - the outcomes of `rm`, `cp` and `mv` over an abstract map from path to content;
  - the `file://` URL root that `File.join` builds.

`common.dfy` holds the shared values: bytes, results, the errors a bucket raises, and
FileInfo. It also models the insertion order of a Ruby Hash (`KeyOrder`) and the glob
filter that `ls` applies (`Glob`).

The helpers these drivers inherit are parameters, not definitions:
- `norm_path` and `norm_meta` are function values held by each bucket;
- `File.fnmatch?` is a predicate passed to `ls`;
- `Time.now` is an integer argument.

Three behaviours of the code are easy to miss. The model follows them:
- `Writer#close` is not a no-op the second time. It runs the closer again and stores the
  entry again (`InMem.Writer.Close`, `InMem.StageThenCommit`).
- InMem `open` returns the stored io object itself, rewound, not a fresh view
  (`InMem.Bucket.Open`).
- InMem `open` with a block ends with `io.close`. That runs the writer's closer, so reading
  a file commits it again (see Findings).

## Model

| member | source | states |
|---|---|---|
| KeyOrder.Assigned | core/lib/bfs/bucket/in_mem.rb:77 | Assigning a key keeps the hash's keys distinct. A new key is added last; an existing key keeps its place. |
| KeyOrder.Without | core/lib/bfs/bucket/in_mem.rb:99 | Deleting a key removes exactly that key and keeps distinctness. The order is unchanged when the key is absent. Otherwise the result is the order with the key's one position cut out, so the other keys keep their order. |
| Glob.Select | core/lib/bfs/bucket/in_mem.rb:53-55 | The fnmatch filter selects only listed keys that match, and never more keys than were listed. |
| Glob.SelectConcat | core/lib/bfs/bucket/in_mem.rb:53-55 | Filtering keeps listing order: filtering a concatenation gives the concatenation of the filtered parts. |
| Glob.SelectMembers | core/lib/bfs/bucket/in_mem.rb:53-55 | A key is selected iff it is listed and matches the pattern. |
| Glob.SelectDistinct | core/lib/bfs/bucket/in_mem.rb:53-55 | Distinct listed keys give a selection with each key once. |
| Paths.Head | core/lib/bfs/bucket/fs.rb:85 | `slice(0, n)` is a prefix of the string, of length n exactly when the string has n characters. It is the whole string when n is at least the string's length. |
| Paths.Chomp | core/lib/bfs/bucket/fs.rb:11 | `chomp('/')` removes one trailing '/' when there is one, and otherwise changes nothing. |
| Paths.JoinTwo | core/lib/bfs/bucket/fs.rb:94 | `File.join(a, b)`: if b starts with '/', a's trailing separators go. Otherwise a '/' is inserted when a does not already end in one, and a is kept as it is when it does. |
| Paths.Join | core/lib/bfs/bucket/fs.rb:94 | Definition of `File.join(*parts)` as a left fold of JoinTwo. Its properties for the `file` URL are in FS.UrlRootSpelledOut. |
| InMem.Spliced | core/lib/bfs/bucket/in_mem.rb:10-17 | A StringIO write at pos keeps the bytes before pos and puts the data at pos. It keeps the bytes after the data and extends the string only as far as needed. |
| InMem.SplicedAtEnd | core/lib/bfs/bucket/in_mem.rb:10-17 | Writing at the end of the string appends. |
| InMem.Bucket.constructor | core/lib/bfs/bucket/in_mem.rb:40-43 | A new bucket has no files. |
| InMem.Bucket.Store | core/lib/bfs/bucket/in_mem.rb:77 | The closer's assignment replaces the entry at one key, changes no other key and keeps the bucket's invariant. |
| InMem.Bucket.Clear | core/lib/bfs/bucket/in_mem.rb:46-48 | `clear` leaves no entries. |
| InMem.Bucket.Ls | core/lib/bfs/bucket/in_mem.rb:51-56 | The loop yields exactly the stored keys that match, each once, in hash order. |
| InMem.Bucket.Info | core/lib/bfs/bucket/in_mem.rb:60-66 | FileNotFound with the normalised path iff it has no entry. Otherwise the size is the length of the stored io's string, with the entry's mtime, content type and metadata. |
| InMem.Bucket.Create | core/lib/bfs/bucket/in_mem.rb:75-79 | Without a block: a fresh empty writer, bucket untouched. A finishing block commits an entry with the written bytes, the time, the content type and `norm_meta(metadata)`. A raising block leaves the bucket as it was. |
| InMem.Bucket.Open | core/lib/bfs/bucket/in_mem.rb:82-88 | FileNotFound iff no entry. Otherwise the stored io itself comes back with the same string, rewound to 0 and open. |
| InMem.Bucket.OpenRead | core/lib/bfs/bucket/in_mem.rb:82-95 | A read-all block sees the whole committed content. The final `io.close` commits the entry again, with the read's time as mtime. |
| InMem.Bucket.OpenReadCorrected | core/lib/bfs/bucket/in_mem.rb:82-95 | Closing with `close!` instead returns the same bytes and leaves the bucket unchanged. |
| InMem.Bucket.Rm | core/lib/bfs/bucket/in_mem.rb:98-100 | `rm` removes only the normalised path's entry. An absent key is no error. |
| InMem.Writer.constructor | core/lib/bfs/bucket/in_mem.rb:11-17 | A new writer is an empty, open StringIO at position 0 that remembers its closer's bucket, path, content type and metadata. |
| InMem.Writer.Write | core/lib/bfs/bucket/in_mem.rb:10 | An open writer splices the data in at its position and advances past it. A closed one raises IOError and changes nothing. |
| InMem.Writer.Read | core/lib/bfs/bucket/in_mem.rb:10 | An open writer returns the rest of its string and moves to the end. A closed one raises IOError. |
| InMem.Writer.Reopen | core/lib/bfs/bucket/in_mem.rb:87 | `reopen(io.string)` rewinds to 0 and opens the io again over the same string. |
| InMem.Writer.CloseBang | core/lib/bfs/bucket/in_mem.rb:24-26 | `close!` closes the StringIO and runs no closer. |
| InMem.Writer.Close | core/lib/bfs/bucket/in_mem.rb:19-22 | `close` closes, then the closer assigns this writer's entry with the given time. This happens on every call. |
| InMem.Writer.Perform | core/lib/bfs/bucket/in_mem.rb:28-37 | No block: nothing changes, the writer included (it is not closed). A finishing block commits its write. A raising block, or a write on a closed writer, leaves the bucket exactly as it was. With a block, the writer is closed on every exit. |
| InMem.RoundTrip | core/lib/bfs/bucket/in_mem.rb:75-95 | Bytes committed by `create` are what `info` measures and what `open` reads back, with the given content type. A later `info` reports the read's time as mtime. |
| InMem.RoundTripCorrected | core/lib/bfs/bucket/in_mem.rb:75-95 | With the corrected read, `info` after the read equals `info` before it. |
| InMem.StageThenCommit | core/lib/bfs/bucket/in_mem.rb:19-22 | Writing to an uncommitted writer leaves the files unchanged. `close` assigns the entry, and a second `close` assigns it again with the later time. |
| InMem.AbortKeepsOld | core/lib/bfs/bucket/in_mem.rb:28-37 | A raising block leaves the previous entry, so `info` is the same before and after. |
| InMem.RmTwice | core/lib/bfs/bucket/in_mem.rb:98-100 | Removing twice equals removing once, and `info` then raises FileNotFound. |
| FS.RootPrefix | core/lib/bfs/bucket/fs.rb:11 | The prefix ends in '/'. It is the root itself when the root ends in '/', and root + "/" otherwise. |
| FS.New | core/lib/bfs/bucket/fs.rb:9-12 | The driver keeps its root and the prefix computed from it. |
| FS.Trimmed | core/lib/bfs/bucket/fs.rb:84-87 | If the path starts with the prefix, prefix + result == path. Otherwise the result is the path. It is never longer than the path. |
| FS.TrimmedUnderRoot | core/lib/bfs/bucket/fs.rb:84-87 | A path formed from the prefix and a key trims back to that key. |
| FS.TrimPrefix | core/lib/bfs/bucket/fs.rb:84-87 | `slice!` edits the argument string in place, and the same object is returned. |
| FS.Rm | core/lib/bfs/bucket/fs.rb:57-60 | `rm_f` removes only the normalised path and never fails. |
| FS.RmIdempotent | core/lib/bfs/bucket/fs.rb:57-60 | Removing twice is removing once. |
| FS.Cp | core/lib/bfs/bucket/fs.rb:63-70 | FileNotFound naming the normalised source iff it is missing. A copy onto itself raises ArgumentError. Otherwise it succeeds: the destination gets the source's content and every other path is kept. |
| FS.Mv | core/lib/bfs/bucket/fs.rb:73-80 | The same errors as `cp`. Otherwise it succeeds: the destination holds the source's content, the source is gone and the rest is kept. |
| FS.MoveIsCopyThenRemove | core/lib/bfs/bucket/fs.rb:63-80 | `mv` has the outcome of `cp` followed by removing the source. |
| FS.UrlRoot | core/lib/bfs/bucket/fs.rb:92-95 | Definition of the `file` URL root: `File.join` of host and path, with absent parts dropped. Its properties are in FS.UrlRootSpelledOut. |
| FS.UrlRootSpelledOut | core/lib/bfs/bucket/fs.rb:92-95 | `file://host/dir` gives root "host/dir", and `file:///dir` gives "/dir". |
| S3Client.Empty | s3/spec/bfs/bucket/s3_spec.rb:4 | The double's store starts empty. |
| S3Client.Put | s3/spec/bfs/bucket/s3_spec.rb:8-11 | `put_object` stores the body under the key and keeps every other key. A new key is listed last; an existing key keeps its place. |
| S3Client.Delete | s3/spec/bfs/bucket/s3_spec.rb:21-26 | `delete_object` raises NoSuchKey iff the key is missing. Otherwise exactly that key goes, and the other keys keep their listing order. |
| S3Client.SubFirst | s3/spec/bfs/bucket/s3_spec.rb:39 | `sub(pattern, '')` leaves the string unchanged when the pattern does not occur. Otherwise it cuts out the first occurrence and nothing else. It never lengthens the string. |
| S3Client.SubFirstOfPrefixed | s3/spec/bfs/bucket/s3_spec.rb:39 | Removing the leading pattern gives back the rest of the string. |
| S3Client.Copy | s3/spec/bfs/bucket/s3_spec.rb:38-44 | `copy_object` raises NoSuchKey iff the recovered source is missing. Otherwise it puts the source's body at the key. |
| Paths.BelowPrefix | s3/lib/bfs/bucket/s3.rb:47-52 | In S3's key order, a key sorts at or before every key that starts with it. |
| S3Client.LeastWithPrefix | s3/lib/bfs/bucket/s3.rb:47-52 | A sorted listing with `prefix` and `max_keys: 1` is empty iff no key has the prefix. Otherwise its one key is a stored key with the prefix that sorts at or before every other such key. |
| S3Client.LeastWithPrefixOfStoredKey | s3/lib/bfs/bucket/s3.rb:47-52 | When the prefix is itself a stored key, that listing returns exactly that key. |
| S3.ToSym | s3/lib/bfs/bucket/s3.rb:32 | `to_sym` succeeds exactly on Strings and Symbols and gives their name. Anything else raises NoMethodError. |
| S3.NormalisedKeys | s3/lib/bfs/bucket/s3.rb:23-26 | After the rewrite, all keys are Strings, a name is present iff either spelling was given, and the Symbol's value wins. |
| S3.NormalisedUnique | s3/lib/bfs/bucket/s3.rb:23-26 | That outcome is unique, so the order the keys are visited in does not matter. |
| S3.NormaliseKeys | s3/lib/bfs/bucket/s3.rb:23-26 | The loop, visiting keys in any order, gives the normalised options. |
| S3.Fields | s3/lib/bfs/bucket/s3.rb:28-34 | Definition of every setting but @acl from String-keyed options. Its properties are in S3.Configure. |
| S3.Configure | s3/lib/bfs/bucket/s3.rb:28-34 | NoMethodError iff an 'acl' key holds neither String nor Symbol. Otherwise: the name is kept; acl is set iff the key is present, to that value's name; sse falls back to server_side_encryption; static credentials are built from `access_key_id.to_s` and `secret_access_key.to_s` iff none are given and access_key_id is truthy, else the given credentials are kept; the storage class is the option's value; the client is the given one when truthy, else one built from the region. |
| S3.New | s3/lib/bfs/bucket/s3.rb:22-35 | The constructor is the rewrite loop followed by the settings. |
| S3.ConfigureCorrected | s3/lib/bfs/bucket/s3.rb:32 | Taking acl only when it is truthy: NoMethodError only for a truthy acl that is neither String nor Symbol, and acl is set iff it is truthy. Otherwise it behaves as written. |
| S3.UrlOptions | s3/lib/bfs/bucket/s3.rb:134-140 | The URL passes exactly the six recognised Symbol keys. Each holds the parameter's first value, or nil. |
| S3.FromUrl | s3/lib/bfs/bucket/s3.rb:131-141 | Definition of the `s3` URL constructor: the host as name and the URL's options. Its properties are in S3.FromUrlWithAcl, S3.ResolveMockBucket and S3.ResolveWithoutAclFails. |
| S3.UrlOptionsNormalised | s3/lib/bfs/bucket/s3.rb:131-141 | After normalisation those options are the six String keys with the same values. |
| S3.UrlLookup | s3/lib/bfs/bucket/s3.rb:135-140 | Each recognised name reads its first parameter value. Every other name reads nil. |
| S3.ConfigureUrlOptions | s3/lib/bfs/bucket/s3.rb:28-34 | The settings given by options that agree with a URL's, when the URL has an acl. |
| S3.FromUrlWithAcl | s3/lib/bfs/bucket/s3.rb:131-141 | A URL with an acl resolves to the settings its parameters spell out. The client is always built from the region. |
| S3.ResolveMockBucket | s3/spec/bfs/bucket/s3_spec.rb:52-56 | `s3://mock-bucket?acl=private&region=eu-west-2` gives name mock-bucket and acl :private. |
| S3.ResolveWithoutAclFails | s3/lib/bfs/bucket/s3.rb:139 | As written, a URL without acl raises NoMethodError. |
| S3.ResolveCorrected | s3/lib/bfs/bucket/s3.rb:131-141 | Corrected, every URL resolves to the host's bucket, with acl the first acl value when there is one. |
| S3.CreateOptions | s3/lib/bfs/bucket/s3.rb:63-69 | bucket and key always come from the driver. acl, encryption and storage class take the default only when it is set and the caller's value is not truthy. Every other option passes through unchanged. |
| S3.Create | s3/lib/bfs/bucket/s3.rb:61-75 | The commit is one put of the body under the normalised path. |
| S3.Ls | s3/lib/bfs/bucket/s3.rb:38-42 | The listing filtered in listing order (Glob.Select, whose order and membership are proved in Glob.SelectConcat and Glob.SelectMembers). A key is listed iff it is stored and matches, each once. |
| S3.InfoKey | s3/lib/bfs/bucket/s3.rb:50 | Definition of the key `info` looks up: the `prefix` option joined in front of the normalised path, when given. It is used in S3.Info and S3.InfoCorrected. |
| S3.Info | s3/lib/bfs/bucket/s3.rb:45-58 | FileNotFound iff no stored key starts with the (prefixed) path. Otherwise the size and mtime come from the least stored key that does. |
| S3.InfoExactWhenStored | s3/lib/bfs/bucket/s3.rb:45-58 | When an object is stored at the looked-up key, `info` as written reports that object, exactly as S3.InfoCorrected does. |
| S3.InfoCorrected | s3/lib/bfs/bucket/s3.rb:45-58 | Exact lookup: FileNotFound iff the key is not stored. Otherwise that object's size and mtime. |
| S3.InfoOfMissingKeySucceeds | s3/lib/bfs/bucket/s3.rb:50-53 | As written, `info("a")` succeeds on a store holding only "ab". Corrected, it raises FileNotFound. |
| S3.Open | s3/lib/bfs/bucket/s3.rb:86-101 | The stored body, or FileNotFound iff the key is missing. |
| S3.Rm | s3/lib/bfs/bucket/s3.rb:104-112 | The key goes and nothing is raised: NoSuchKey is swallowed. |
| S3.RmIdempotent | s3/lib/bfs/bucket/s3.rb:104-112 | Removing twice is removing once. |
| S3.CopySource | s3/lib/bfs/bucket/s3.rb:120 | Definition of the `copy_source` string "/name/src". S3Client.SubFirstOfPrefixed shows that the store recovers src from it. |
| S3.Cp | s3/lib/bfs/bucket/s3.rb:115-126 | FileNotFound naming the source iff it is missing, with the store unchanged. Otherwise the destination gets the source's body and every other key, the source included, is kept. |
| S3.PutThenRead | s3/lib/bfs/bucket/s3.rb:61-101 | After a committed `create`, `open` returns the body and (exact) `info` reports its length and time. |

## Left out

- I/O is not modelled: the AWS transport, `Tempfile`, the filesystem calls of FS, and `File.open` of the downloaded copy in S3 `open`. Each is replaced by a value: the object store or the map of files.
- Character encoding (`set_encoding`) is not modelled. Contents are bytes.
- `norm_path`, `norm_meta`, `File.fnmatch?` and `CGI.parse` are parameters, never interpreted. `BFS::Bucket::Abstract`, `BFS::TempWriter`, `BFS::FileInfo` and the `BFS.register`/`resolve` registry are not part of this model.
- The `cp` and `mv` that InMem inherits from `BFS::Bucket::Abstract` are not part of this model.
- S3 `create`'s TempWriter is not modelled. Whether a raising block still uploads depends on TempWriter, which is not part of this model. `S3.Create` models only the request options and the single put of the committed body.
- FS `ls`, `info`, `create` and `open` are not modelled: they are globbing, stat calls and streams of the filesystem. Directory creation (`mkdir_p`) is left out of `FS.Cp` and `FS.Mv`.
- InMem.Bucket.OpenRead: only a block that reads everything is modelled. A block that raises, writes, or reads part of the content is not.
- InMem.Writer.Perform: a block only writes some bytes and then finishes or raises. Blocks that close, seek or read the writer are not modelled. A block that calls `close` and then raises has already committed, so "a raising block leaves the bucket as it was" holds only for the modelled blocks. The same limit applies to InMem.Bucket.Create and InMem.AbortKeepsOld.
- InMem.Bucket.Ls: the lazy Enumerator is modelled as the sequence it yields when run to the end.
- S3.Ls: the caller's options merged into the listing request, such as `prefix:`, are not modelled. The model lists the whole store.
- S3.Ls: pagination is left out. The model lists every key in insertion order, as the test double does. A real listing is sorted and capped at 1000 keys per call. S3.Info's listing is modelled sorted, as S3 returns it.
- S3.Info: the content type and metadata are reported as absent, since `info` passes only path, size and mtime.
- S3: NoSuchBucket, which the driver handles the same way as NoSuchKey, is not modelled. Neither are the nil size and mtime of the test double's listing.
- S3.Configure: credentials and the client are kept as the option values they come from (`Given`, `Static`, `Supplied`, `Default`). Other objects' `to_s` is an opaque string.

## Findings

| source | as written | input that shows it | evidently intended | confidence | as-written member | corrected member |
|---|---|---|---|---|---|---|
| s3/lib/bfs/bucket/s3.rb:139 | The URL constructor always passes `acl:`, as nil when the query has no acl. The constructor then calls `nil.to_sym` because the key is present (line 32). | `s3://bucket` or `s3://bucket?region=eu-west-1` | A URL without acl resolves with no acl | high, not executed | S3.ResolveWithoutAclFails | S3.ResolveCorrected |
| s3/lib/bfs/bucket/s3.rb:47-53 | `info` takes the least stored key that starts with the path. When no object is stored at the path, it reports a longer key's object. | store holding only "ab"; `info("a")` | FileNotFound unless the exact key exists | high, not executed | S3.InfoOfMissingKeySucceeds | S3.InfoCorrected |
| core/lib/bfs/bucket/in_mem.rb:93 | `open` with a block ends with `io.close`. On the stored Writer this runs the closer, which commits the entry again with the current time. | create "a" at time 1, `open("a") { read }` at time 2, then `info("a").mtime` is 2 | Reading leaves the entry, and so its mtime, unchanged (`close!`) | medium, not executed | InMem.RoundTrip | InMem.RoundTripCorrected |
