/** The on-disk cache of fetched layers, and when a later run may trust what it finds there. Every method may end
    Crashed after any file-system step; RemoveAll removes one entry at a time. */
module LayerCache {
  import opened Options
  import opened LockFile

  type Arn = string
  type Digest = string
  type Files = map<string, string>          // path below the directory -> bytes
  type Zip = seq<(string, string)>          // the files of an archive, in order

  datatype Node = RegularFile | Dir(files: Files)

  const MARKER: string := ".codesha256"

  /** Extraction: a later entry of the same path overwrites an earlier one. */
  function Extract(zip: Zip): Files {
    if zip == [] then map[] else Extract(zip[..|zip| - 1])[zip[|zip| - 1].0 := zip[|zip| - 1].1]
  }

  /** unicode.IsSpace. */
  predicate IsSpace(c: char) {
    || c in {' ', '\t', '\n', '\r', '\U{000B}', '\U{000C}', '\U{0085}', '\U{00A0}', '\U{1680}'}
    || '\U{2000}' <= c <= '\U{200A}' || c in {'\U{2028}', '\U{2029}', '\U{202F}', '\U{205F}', '\U{3000}'}
  }

  function TrimSpace(s: string): string {
    if s == "" then ""
    else if IsSpace(s[0]) then TrimSpace(s[1..])
    else if IsSpace(s[|s| - 1]) then TrimSpace(s[..|s| - 1])
    else s
  }

  /** There is no space at its ends. */
  predicate Unspaced(s: string) { s == "" || (!IsSpace(s[0]) && !IsSpace(s[|s| - 1])) }

  predicate Spaces(s: string) { forall i :: 0 <= i < |s| ==> s[i] in {' ', '\t', '\n', '\r'} || IsSpace(s[i]) }

  lemma {:induction false} TrimDropsSpaces(before: string, s: string, after: string)
    requires Spaces(before) && Unspaced(s) && Spaces(after) && (s == "" ==> after == "")
    ensures TrimSpace(before + s + after) == s
    decreases |before| + |after|
  {
    var all := before + s + after;
    if before != "" {
      assert all[1..] == before[1..] + s + after;
      TrimDropsSpaces(before[1..], s, after);
    } else if after != "" {
      assert all[..|all| - 1] == before + s + after[..|after| - 1];
      assert all[0] == s[0];
      TrimDropsSpaces(before, s, after[..|after| - 1]);
    } else {
      assert all == s;
    }
  }

  /** A marker counts as the digest that it holds, with whatever space around it. */
  lemma MarkerIsDigest(files: Files, before: string, digest: Digest, after: string)
    requires Spaces(before) && Unspaced(digest) && digest != "" && Spaces(after)
    requires MARKER in files && files[MARKER] == before + digest + after
    ensures CachedDigest(files) == Some(digest)
  {
    TrimDropsSpaces(before, digest, after);
  }

  /** CachedDigest. */
  function CachedDigest(files: Files): Option<Digest> {
    if MARKER in files then Some(TrimSpace(files[MARKER])) else None
  }

  function Recorded(d: Data, arn: Arn): Option<Digest> {
    if arn in d.layers then Some(d.layers[arn]) else None
  }

  /** cacheMatchesLock, for a directory that exists; `record` is None for a nil lock. */
  predicate Matches(record: Option<Data>, arn: Arn, files: Files) {
    record == None || Recorded(record.value, arn) == None || CachedDigest(files) == Recorded(record.value, arn)
  }

  /** The directory is the whole extraction of one archive, with the archive's digest as marker. */
  ghost predicate Complete(hash: Zip -> Digest, files: Files) {
    exists zip :: IsExtraction(hash, files, zip)
  }

  predicate IsExtraction(hash: Zip -> Digest, files: Files, zip: Zip) {
    files == Extract(zip)[MARKER := hash(zip)]
  }

  /** Digests are base64 text. */
  ghost predicate CleanDigests(hash: Zip -> Digest) { forall zip :: Unspaced(hash(zip)) }

  /** A record is not fooled by what is in the cache: a directory that is not complete has a marker the record
      contradicts. */
  ghost predicate Safe(hash: Zip -> Digest, record: Data, dirs: map<Arn, Node>) {
    forall arn :: arn in dirs && dirs[arn].Dir? && !Complete(hash, dirs[arn].files) ==>
      Recorded(record, arn).Some? && CachedDigest(dirs[arn].files) != Recorded(record, arn)
  }

  /** Where memory and file disagree about a layer, because a save failed, the directory is the one memory knows. */
  ghost predicate Agree(hash: Zip -> Digest, mem: Data, file: Data, dirs: map<Arn, Node>) {
    forall arn :: arn in dirs && dirs[arn].Dir? && Recorded(mem, arn) != Recorded(file, arn) ==>
      Complete(hash, dirs[arn].files) && CachedDigest(dirs[arn].files) == Recorded(mem, arn)
  }

  /** What a run may trust: a recorded layer that passes the test is the whole content of that digest, and a layer
      of which nothing is recorded is absent or whole. */
  lemma TrustedIsComplete(hash: Zip -> Digest, record: Data, dirs: map<Arn, Node>, arn: Arn)
    requires CleanDigests(hash) && Safe(hash, record, dirs) && arn in dirs && dirs[arn].Dir?
    requires Matches(Some(record), arn, dirs[arn].files)
    ensures exists zip :: IsExtraction(hash, dirs[arn].files, zip)
                          && (arn in record.layers ==> hash(zip) == record.layers[arn])
  {
    assert Complete(hash, dirs[arn].files);
    var zip :| IsExtraction(hash, dirs[arn].files, zip);
    assert dirs[arn].files[MARKER] == hash(zip);
  }

  /** A directory whose marker memory contradicts may change in any way that leaves the marker alone or removes it,
      and more: in any way that leaves a marker the record contradicts. */
  lemma ContradictedMayChange(hash: Zip -> Digest, mem: Data, file: Data, dirs: map<Arn, Node>, arn: Arn, files: Files)
    requires Safe(hash, mem, dirs) && Safe(hash, file, dirs) && Agree(hash, mem, file, dirs)
    requires Recorded(mem, arn).Some? && Recorded(mem, arn) == Recorded(file, arn)
    requires CachedDigest(files) != Recorded(mem, arn)
    ensures var dirs' := dirs[arn := Dir(files)];
            Safe(hash, mem, dirs') && Safe(hash, file, dirs') && Agree(hash, mem, file, dirs')
  {
  }

  /** What GetLayerVersion and the download bring: a claimed digest and some bytes, or an error. */
  datatype Reply = Reply(claimed: Digest, zip: Zip) | NoReply

  /** What a process does: ensure a layer, or record something else; or what happens to the cache meanwhile. */
  datatype Job =
    | LayerJob(arn: Arn, reply: Reply)
    | ImageJob(tag: string, digest: string)
    | DamageJob(arn: Arn, node: Option<Node>)

  datatype Result = Trusted | Fetched(digest: Digest) | Warned | Died

  /** The cache directory of one project. `hash` is the digest function. */
  class Cache {
    const hash: Zip -> Digest
    const disk: Disk
    var dirs: map<Arn, Node>

    ghost predicate OnDisk()
      reads this, disk
    {
      disk.Valid() && CleanDigests(hash) && Safe(hash, Loaded(disk.file), dirs)
    }

    /** With a live process, whose lock is the record in memory. */
    ghost predicate Live(lock: Lock)
      reads this, disk, lock
    {
      && lock.disk == disk && OnDisk()
      && Safe(hash, lock.data, dirs) && Agree(hash, lock.data, Loaded(disk.file), dirs)
    }

    constructor (hash: Zip -> Digest, disk: Disk)
      requires disk.Valid() && CleanDigests(hash)
      ensures this.hash == hash && this.disk == disk && dirs == map[] && OnDisk()
    {
      this.hash, this.disk, this.dirs := hash, disk, map[];
    }

    /** A new process loads the lock file. */
    method NewProcess() returns (lock: Lock)
      requires OnDisk()
      modifies disk`history
      ensures fresh(lock) && Live(lock)
    {
      lock := new Lock(disk);
    }

    /** With a live process, which may run without a lock. */
    ghost predicate Ready(lock: Lock?)
      reads this, disk, lock
    {
      OnDisk() && (lock != null ==> Live(lock))
    }

    predicate Accepts(arn: Arn, lock: Lock?)
      reads this, lock
    {
      arn in dirs && dirs[arn].Dir? && Matches(if lock == null then None else Some(lock.data), arn, dirs[arn].files)
    }

    /** os.RemoveAll, one entry at a time: it may fail or die with any part of the directory left. */
    method RemoveAll(arn: Arn, lock: Lock?) returns (o: Outcome)
      requires Ready(lock) && !Accepts(arn, lock)
      modifies this`dirs
      ensures Ready(lock) && dirs - {arn} == old(dirs) - {arn}
      ensures o == Ok ==> arn !in dirs
    {
      var luck;
      o, luck := AnyOutcome();
      if o != Ok || arn !in dirs { return; }
      while dirs[arn].Dir? && dirs[arn].files != map[]
        invariant arn in dirs && dirs - {arn} == old(dirs) - {arn}
        invariant Ready(lock) && !Accepts(arn, lock)
        decreases if dirs[arn].Dir? then |dirs[arn].files| else 0
      {
        var files := dirs[arn].files;
        var path :| path in files;
        ContradictedMayChange(hash, lock.data, Loaded(disk.file), dirs, arn, files - {path});
        dirs := dirs[arn := Dir(files - {path})];
        o, luck := AnyOutcome();
        if o != Ok { return; }
      }
      dirs := dirs - {arn};
    }

    /** Extraction into a temporary directory that nothing else can see, then the marker: whatever way it ends, a marker
        that is not itself content is there only once all content is. */
    method ExtractToTemp(zip: Zip) returns (o: Outcome, files: Files)
      ensures o == Ok ==> files == Extract(zip)[MARKER := hash(zip)]
      ensures MARKER in files && (forall k :: 0 <= k < |zip| ==> zip[k].0 != MARKER) ==>
                files == Extract(zip)[MARKER := hash(zip)]
    {
      var luck;
      o, luck := AnyOutcome();            // MkdirTemp
      files := map[];
      if o != Ok { return; }
      for k := 0 to |zip|
        invariant files == Extract(zip[..k])
        invariant MARKER in files ==> exists j :: 0 <= j < k && zip[j].0 == MARKER
      {
        assert zip[..k + 1][..k] == zip[..k];
        files := files[zip[k].0 := zip[k].1];
        o, luck := AnyOutcome();
        if o != Ok { return; }
      }
      assert zip[..|zip|] == zip;
      files := files[MARKER := hash(zip)];
      o, luck := AnyOutcome();
    }

    /** fetch: verify, extract aside, clear the old directory, rename. */
    method Fetch(arn: Arn, reply: Reply, lock: Lock?) returns (o: Outcome)
      requires Ready(lock) && !Accepts(arn, lock)
      modifies this`dirs
      ensures OnDisk() && dirs - {arn} == old(dirs) - {arn}
      ensures o == Failed ==> Ready(lock)
      ensures o == Ok ==>
                && reply.Reply? && arn in dirs && dirs[arn].Dir? && IsExtraction(hash, dirs[arn].files, reply.zip)
                && hash(reply.zip) == reply.claimed
    {
      var luck;
      o, luck := AnyOutcome();
      if o != Ok { return; }
      // GetLayerVersion, download, and the check of the digest
      if reply.NoReply? || hash(reply.zip) != reply.claimed { return Failed; }
      var files;
      o, files := ExtractToTemp(reply.zip);
      if o != Ok { return; }
      o := RemoveAll(arn, lock);
      if o != Ok { return; }
      var renamed;
      o, renamed := AnyOutcome();
      if o == Ok || (o == Crashed && renamed) {
        assert IsExtraction(hash, files, reply.zip);
        dirs := dirs[arn := Dir(files)];
      }
    }

    /** ensureLayerFetched: nothing is fetched exactly when the directory is accepted, and then, with a lock, it is
        the whole content of the digest the lock records, or whole content if the lock records none. */
    method EnsureLayerFetched(arn: Arn, reply: Reply, lock: Lock?) returns (r: Result)
      requires Ready(lock)
      modifies this`dirs, lock, disk
      ensures OnDisk() && (r != Died ==> Ready(lock)) && dirs - {arn} == old(dirs) - {arn}
      ensures (r == Trusted) <==> old(Accepts(arn, lock))
      ensures r == Trusted ==> dirs == old(dirs)
      ensures r == Trusted || r == Warned ==>
                disk.file == old(disk.file) && (lock != null ==> lock.data == old(lock.data))
      ensures r == Trusted && lock != null ==>
                exists zip :: IsExtraction(hash, dirs[arn].files, zip)
                              && (arn in lock.data.layers ==> hash(zip) == lock.data.layers[arn])
      ensures r.Fetched? ==>
                && reply.Reply? && r.digest == reply.claimed == hash(reply.zip)
                && arn in dirs && dirs[arn].Dir? && IsExtraction(hash, dirs[arn].files, reply.zip)
      ensures r.Fetched? && lock != null ==> lock.data.layers == old(lock.data).layers[arn := r.digest]
    {
      if Accepts(arn, lock) {
        if lock != null { TrustedIsComplete(hash, lock.data, dirs, arn); }
        return Trusted;
      }
      var o := Fetch(arn, reply, lock);
      if o == Crashed { return Died; }
      if o == Failed { return Warned; }
      if lock == null { return Fetched(reply.claimed); }
      ghost var before, was := lock.data, Loaded(disk.file);
      ghost var renamed;
      o, renamed := lock.Record(RecordLayer(arn, reply.claimed));
      AfterRecord(hash, before, was, dirs, arn, reply.zip);
      if o == Crashed { return Died; }
      return Fetched(reply.claimed);
    }

    /** A change from outside that the code can find out: a cache directory vanishes, or is replaced by something that is
        none, or it changes so that the recorded digest contradicts it. */
    predicate Detectable(arn: Arn, node: Option<Node>, lock: Lock)
      reads lock, disk
    {
      node.Some? && node.value.Dir? ==>
        && Recorded(lock.data, arn).Some? && Recorded(lock.data, arn) == Recorded(Loaded(disk.file), arn)
        && CachedDigest(node.value.files) != Recorded(lock.data, arn)
    }

    method Damage(arn: Arn, node: Option<Node>, lock: Lock)
      requires Live(lock) && Detectable(arn, node, lock)
      modifies this`dirs
      ensures Live(lock) && dirs == if node.Some? then old(dirs)[arn := node.value] else old(dirs) - {arn}
    {
      if node.Some? && node.value.Dir? {
        ContradictedMayChange(hash, lock.data, Loaded(disk.file), dirs, arn, node.value.files);
      }
      dirs := if node.Some? then dirs[arn := node.value] else dirs - {arn};
    }

    /** What a later process finds: a directory that the lock file's record accepts is the whole content of the digest it
        records, or whole content if it records none. */
    ghost predicate Trustworthy()
      reads this, disk
    {
      var record := Loaded(disk.file);
      forall arn :: arn in dirs && dirs[arn].Dir? && Matches(Some(record), arn, dirs[arn].files) ==>
        exists zip :: IsExtraction(hash, dirs[arn].files, zip)
                      && (arn in record.layers ==> hash(zip) == record.layers[arn])
    }

    lemma OnDiskIsTrustworthy()
      requires OnDisk()
      ensures Trustworthy()
    {
      var record := Loaded(disk.file);
      forall arn | arn in dirs && dirs[arn].Dir? && Matches(Some(record), arn, dirs[arn].files)
        ensures exists zip :: IsExtraction(hash, dirs[arn].files, zip)
                              && (arn in record.layers ==> hash(zip) == record.layers[arn])
      {
        TrustedIsComplete(hash, record, dirs, arn);
      }
    }

    /** Any number of processes, each doing its jobs until it ends or dies, with damage between the jobs. Wherever the
        last of them stops, what a later one may trust is true. */
    method Processes(work: seq<seq<Job>>)
      requires OnDisk()
      modifies this`dirs, disk
      ensures OnDisk() && Trustworthy()
    {
      for p := 0 to |work|
        invariant OnDisk()
      {
        var lock := NewProcess();
        var k, died := 0, false;
        while k < |work[p]| && !died
          invariant k <= |work[p]| && OnDisk() && fresh(lock) && (!died ==> Live(lock))
        {
          match work[p][k] {
            case LayerJob(arn, reply) =>
              var r := EnsureLayerFetched(arn, reply, lock);
              died := r == Died;
            case ImageJob(tag, digest) =>
              ghost var mem, file := lock.data, Loaded(disk.file);
              var o;
              ghost var renamed;
              o, renamed := lock.Record(RecordImage(tag, digest));
              AfterOtherRecord(hash, mem, file, dirs, RecordImage(tag, digest));
              died := o == Crashed;
            case DamageJob(arn, node) =>
              if Detectable(arn, node, lock) { Damage(arn, node, lock); }
          }
          k := k + 1;
        }
      }
      OnDiskIsTrustworthy();
    }
  }

  lemma AfterOtherRecord(hash: Zip -> Digest, mem: Data, file: Data, dirs: map<Arn, Node>, op: Op)
    requires !op.RecordLayer? && Safe(hash, mem, dirs) && Safe(hash, file, dirs) && Agree(hash, mem, file, dirs)
    ensures var mem' := Mutate(mem, op);
            Safe(hash, mem', dirs) && Safe(hash, Normal(mem'), dirs)
            && Agree(hash, mem', file, dirs) && Agree(hash, mem', Normal(mem'), dirs)
  {
  }

  /** Recording the digest of the directory just put in place keeps memory and file right, saved or not. */
  lemma AfterRecord(hash: Zip -> Digest, mem: Data, file: Data, dirs: map<Arn, Node>, arn: Arn, zip: Zip)
    requires CleanDigests(hash) && arn in dirs && dirs[arn].Dir? && IsExtraction(hash, dirs[arn].files, zip)
    requires Safe(hash, mem, dirs - {arn}) && Safe(hash, file, dirs) && Agree(hash, mem, file, dirs - {arn})
    ensures var mem' := Mutate(mem, RecordLayer(arn, hash(zip)));
            Safe(hash, mem', dirs) && Safe(hash, Normal(mem'), dirs)
            && Agree(hash, mem', file, dirs) && Agree(hash, mem', Normal(mem'), dirs)
  {
    assert Complete(hash, dirs[arn].files);
    assert forall b :: b != arn && b in dirs ==> b in dirs - {arn} && (dirs - {arn})[b] == dirs[b];
  }

  /** A record without some of the entries: of the lock file as it was earlier, or of one that could not be read. */
  predicate Lacks(record: Data, lost: Data) {
    forall arn :: arn in lost.layers ==> arn in record.layers && record.layers[arn] == lost.layers[arn]
  }

  /** A process with such a record, or with none, accepts whatever is there for the entries that are missing; so it is not
      fooled exactly if all of that is whole. */
  lemma LostRecordIffWhole(hash: Zip -> Digest, record: Data, lost: Data, dirs: map<Arn, Node>)
    requires Safe(hash, record, dirs) && Lacks(record, lost)
    ensures Safe(hash, lost, dirs) <==>
            forall arn :: arn in dirs && dirs[arn].Dir? && arn !in lost.layers ==> Complete(hash, dirs[arn].files)
    ensures forall arn :: arn in dirs && dirs[arn].Dir? && arn !in lost.layers ==>
              Matches(Some(lost), arn, dirs[arn].files) && Matches(None, arn, dirs[arn].files)
    ensures Lacks(record, EMPTY_DATA)
  {
    if Safe(hash, lost, dirs) {
      forall arn | arn in dirs && dirs[arn].Dir? && arn !in lost.layers ensures Complete(hash, dirs[arn].files) {
        assert Recorded(lost, arn) == None;
      }
    }
  }

  /** And so it is: a directory that RemoveAll left half removed, and that every process with the record fetches again, is
      accepted by one without. */
  lemma LostRecordIsFooled(hash: Zip -> Digest, arn: Arn, digest: Digest)
    ensures var partial: Files := map["bin/tool" := "x"];
            var dirs: map<Arn, Node> := map[arn := Dir(partial)];
            var record := Mutate(EMPTY_DATA, RecordLayer(arn, digest));
            && Safe(hash, record, dirs) && !Matches(Some(record), arn, partial)
            && !Safe(hash, EMPTY_DATA, dirs) && Matches(Some(EMPTY_DATA), arn, partial)
  {
    var partial: Files := map["bin/tool" := "x"];
    var dirs: map<Arn, Node> := map[arn := Dir(partial)];
    var record := Mutate(EMPTY_DATA, RecordLayer(arn, digest));
    assert MARKER !in partial;
    LostRecordIffWhole(hash, record, EMPTY_DATA, dirs);
    assert arn in dirs && dirs[arn].Dir? && !Complete(hash, dirs[arn].files);
  }
}
