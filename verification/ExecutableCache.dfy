/**
 The judgehost's cache of deployed executables. A directory per type, id and hash holds the fetched
 files, what building made of them, and a `.deployed` marker once all went well.
 */
module ExecutableCache {
  import opened Wrappers
  import opened ExecutableHash

  datatype Key = Key(kind: string, id: string, hash: string)

  datatype OnDisk = OnDisk(content: string, mode: bool)

  /** fetched: the files as they came from the server. build: the build directory as it is now. */
  datatype ExecDir = ExecDir(fetched: seq<File>, build: map<string, OnDisk>, deployed: bool)

  datatype Error = UnexpectedHash | NoSource | BuildNotExecutable | BuildFailed | NoRun

  datatype Result = RunPath(run: OnDisk) | Error(error: Error)

  /** What the build script would do: fail, or leave this `run` file behind, if any. */
  datatype Building = Fails | Leaves(run: Option<string>)

  type Store = map<Key, ExecDir>

  /** Writing over a file keeps its mode, and the executable bit is only ever set. */
  function Put(build: map<string, OnDisk>, f: File): map<string, OnDisk> {
    build[f.filename := OnDisk(f.content, f.isExecutable || (f.filename in build && build[f.filename].mode))]
  }

  function Written(build: map<string, OnDisk>, files: seq<File>): map<string, OnDisk>
    decreases |files|
  {
    if files == [] then build
    else Written(Put(build, files[0]), files[1..])
  }

  /** The content of the build directory once `run` has been made, or the reason why it has not. */
  function Built(build: map<string, OnDisk>, sourceFound: bool, script: string,
                 building: Building): (map<string, OnDisk>, Option<Error>) {
    if "build" in build && !build["build"].mode then (build, Some(BuildNotExecutable))
    else if "build" !in build && "run" in build then (build, None)
    else if "build" !in build && !sourceFound then (build, Some(NoSource))
    else
      var withScript := if "build" in build then build else build["build" := OnDisk(script, true)];
      match building
      case Fails => (withScript, Some(BuildFailed))
      case Leaves(None) =>
        (if "run" in withScript then withScript["run" := withScript["run"].(mode := true)] else withScript, None)
      case Leaves(Some(run)) => (withScript["run" := OnDisk(run, true)], None)
  }

  predicate Runnable(build: map<string, OnDisk>) {
    "run" in build && build["run"].mode
  }

  function Wrapped(build: map<string, OnDisk>, wrapper: string): map<string, OnDisk>
    requires "run" in build
  {
    build["runjury" := build["run"]]["run" := OnDisk(wrapper, true)]
  }

  /** A directory made from scratch, and whether it was deployed. */
  function Deploy(md5: string -> string, wrapper: string, key: Key, combined: bool, files: seq<File>,
                  sourceFound: bool, script: string, building: Building): (ExecDir, Option<Error>)
  {
    var build := Written(map[], files);
    if CanonicalHash(md5, files) != key.hash then (ExecDir(files, build, false), Some(UnexpectedHash))
    else
      var (built, err) := Built(build, sourceFound, script, building);
      if err.Some? then (ExecDir(files, built, false), err)
      else if !Runnable(built) then (ExecDir(files, built, false), Some(NoRun))
      else if combined then (ExecDir(files, Wrapped(built, wrapper), true), None)
      else (ExecDir(files, built, true), None)
  }

  /** A deployed directory is used as it is, unless a combined request finds another `run` than the wrapper. */
  predicate Usable(store: Store, wrapper: string, key: Key, combined: bool) {
    && key in store && store[key].deployed
    && (combined ==> "run" in store[key].build && store[key].build["run"].content == wrapper)
  }

  /** Every deployed directory holds files with the right hash and an executable `run`. */
  ghost predicate Sound(md5: string -> string, store: Store) {
    forall key :: key in store && store[key].deployed ==>
      CanonicalHash(md5, store[key].fetched) == key.hash && Runnable(store[key].build)
  }

  class Cache {
    const md5: string -> string
    const wrapper: string
    var store: Store

    constructor (md5: string -> string, wrapper: string)
      ensures this.md5 == md5 && this.wrapper == wrapper && store == map[]
    {
      this.md5, this.wrapper, store := md5, wrapper, map[];
    }

    method FetchExecutable(key: Key, combined: bool, files: seq<File>, sourceFound: bool, script: string,
                           building: Building)
      returns (result: Result)
      requires Sound(md5, store)
      modifies `store
      ensures Sound(md5, store)
      ensures store == (if Usable(old(store), wrapper, key, combined) then old(store)
                        else old(store)[key := Deploy(md5, wrapper, key, combined, files, sourceFound, script,
                            building).0])
      ensures key in store
      ensures result.RunPath? ==>
                store[key].deployed && "run" in store[key].build && result.run == store[key].build["run"]
      ensures result.Error? ==> !store[key].deployed
      ensures result.Error? ==>
                Deploy(md5, wrapper, key, combined, files, sourceFound, script, building).1 == Some(result.error)
      ensures result.RunPath? && combined ==> result.run.content == wrapper
    {
      var mustFetch := true;
      if key in store && store[key].deployed {
        mustFetch := combined && store[key].build["run"].content != wrapper;
      }
      if !mustFetch {
        return RunPath(store[key].build["run"]);
      }
      var dir, err := MakeDirectory(key, combined, files, sourceFound, script, building);
      DeployedIff(md5, wrapper, key, combined, files, sourceFound, script, building);
      store := store[key := dir];
      if err.Some? {
        return Error(err.value);
      }
      return RunPath(dir.build["run"]);
    }

    /** Fetches, checks, builds and wraps; the directory is marked only if all of it went well. */
    method MakeDirectory(key: Key, combined: bool, files: seq<File>, sourceFound: bool, script: string,
                         building: Building)
      returns (dir: ExecDir, err: Option<Error>)
      ensures (dir, err) == Deploy(md5, wrapper, key, combined, files, sourceFound, script, building)
    {
      var build := WriteFiles(files);
      if key.hash != CanonicalHash(md5, files) {
        return ExecDir(files, build, false), Some(UnexpectedHash);
      }
      build, err := MakeRun(build, sourceFound, script, building);
      if err.Some? {
        return ExecDir(files, build, false), err;
      }
      if "run" !in build || !build["run"].mode {
        return ExecDir(files, build, false), Some(NoRun);
      }
      if combined {
        build := build["runjury" := build["run"]];
        build := build["run" := OnDisk(wrapper, true)];
      }
      return ExecDir(files, build, true), None;
    }

    /**
     Runs the build script unless `run` is there already, writing a script for the language found if there
     is none.
     */
    method MakeRun(fetched: map<string, OnDisk>, sourceFound: bool, script: string, building: Building)
      returns (build: map<string, OnDisk>, err: Option<Error>)
      ensures (build, err) == Built(fetched, sourceFound, script, building)
    {
      build := fetched;
      if "build" !in build {
        if "run" in build {
          return build, None;
        }
        if !sourceFound {
          return build, Some(NoSource);
        }
        build := build["build" := OnDisk(script, true)];
      } else if !build["build"].mode {
        return build, Some(BuildNotExecutable);
      }
      if building.Fails? {
        return build, Some(BuildFailed);
      }
      if building.run.Some? {
        build := build["run" := OnDisk(building.run.value, true)];
      } else if "run" in build {
        build := build["run" := build["run"].(mode := true)];
      }
      return build, None;
    }

    method WriteFiles(files: seq<File>) returns (build: map<string, OnDisk>)
      ensures build == Written(map[], files)
    {
      build := map[];
      var k := 0;
      while k < |files|
        invariant 0 <= k <= |files|
        invariant Written(map[], files) == Written(build, files[k..])
      {
        assert files[k..][1..] == files[k + 1..];
        ghost var before := build;
        var name, content := files[k].filename, files[k].content;
        build := build[name := if name in build then build[name].(content := content) else OnDisk(content, false)];
        if files[k].isExecutable {
          build := build[name := build[name].(mode := true)];
        }
        assert build == Put(before, files[k]);
        k := k + 1;
      }
    }
  }

  /** A hit and a fresh fetch that succeeds agree on the hash of the files they stand for. */
  lemma HitAgreesWithFetch(md5: string -> string, wrapper: string, store: Store, key: Key, combined: bool,
                           files: seq<File>,
                           sourceFound: bool, script: string, building: Building)
    requires Sound(md5, store) && Usable(store, wrapper, key, combined)
    requires Deploy(md5, wrapper, key, combined, files, sourceFound, script, building).0.deployed
    ensures CanonicalHash(md5, store[key].fetched) == CanonicalHash(md5, files)
  {
  }

  /** The marker appears exactly when the hash is right and building leaves an executable `run`. */
  lemma DeployedIff(md5: string -> string, wrapper: string, key: Key, combined: bool, files: seq<File>,
                    sourceFound: bool, script: string, building: Building)
    ensures var (dir, err) := Deploy(md5, wrapper, key, combined, files, sourceFound, script, building);
            var (built, failed) := Built(Written(map[], files), sourceFound, script, building);
            && (dir.deployed <==> err == None)
            && (dir.deployed <==> CanonicalHash(md5, files) == key.hash && failed == None && Runnable(built))
            && (dir.deployed ==> Runnable(dir.build))
  {
  }

  lemma {:induction false} WrittenNames(build: map<string, OnDisk>, files: seq<File>)
    ensures forall n :: n in Written(build, files) <==>
              n in build || exists i :: 0 <= i < |files| && files[i].filename == n
    decreases |files|
  {
    if files != [] {
      WrittenNames(Put(build, files[0]), files[1..]);
      forall n ensures n in Written(build, files) <==>
          n in build || exists i :: 0 <= i < |files| && files[i].filename == n {
        if i :| 0 <= i < |files[1..]| && files[1..][i].filename == n {
          assert files[i + 1].filename == n;
        }
        if i :| 1 <= i < |files| && files[i].filename == n {
          assert files[1..][i - 1].filename == n;
        }
      }
    }
  }

  ghost predicate SentExecutable(files: seq<File>, n: string) {
    exists i :: 0 <= i < |files| && files[i].filename == n && files[i].isExecutable
  }

  /** A file is executable if it was so before or any file of its name was sent as executable. */
  lemma {:induction false} WrittenMode(build: map<string, OnDisk>, files: seq<File>, n: string)
    ensures n in Written(build, files) && Written(build, files)[n].mode <==>
              (n in build && build[n].mode) || SentExecutable(files, n)
    decreases |files|
  {
    if files != [] {
      var rest := files[1..];
      WrittenMode(Put(build, files[0]), rest, n);
      assert SentExecutable(files, n) <==>
          (files[0].filename == n && files[0].isExecutable) || SentExecutable(rest, n) by {
        assert forall i :: 0 <= i < |rest| ==> rest[i] == files[i + 1];
        if i :| 1 <= i < |files| && files[i].filename == n && files[i].isExecutable {
          assert rest[i - 1].filename == n;
        }
      }
    }
  }

  ghost predicate Sent(files: seq<File>, n: string) {
    exists i :: 0 <= i < |files| && files[i].filename == n
  }

  lemma {:induction false} WrittenElsewhere(build: map<string, OnDisk>, files: seq<File>, n: string)
    requires n in build && !Sent(files, n)
    ensures n in Written(build, files) && Written(build, files)[n] == build[n]
    decreases |files|
  {
    if files != [] {
      var rest := files[1..];
      assert forall i :: 0 <= i < |rest| ==> rest[i] == files[i + 1];
      WrittenElsewhere(Put(build, files[0]), rest, n);
    }
  }

  /** Of a name sent several times the last content counts. */
  lemma {:induction false} LastContentCounts(build: map<string, OnDisk>, files: seq<File>, i: nat)
    requires i < |files| && !Sent(files[i + 1..], files[i].filename)
    ensures files[i].filename in Written(build, files) &&
            Written(build, files)[files[i].filename].content == files[i].content
    decreases |files|
  {
    if i == 0 {
      WrittenElsewhere(Put(build, files[0]), files[1..], files[0].filename);
    } else {
      assert files[1..][i..] == files[i + 1..];
      LastContentCounts(Put(build, files[0]), files[1..], i - 1);
    }
  }

  /** Deploying the same files for a combined and for a plain request, and which of the two serves the other kind. */
  lemma BothKindsOfDeployment(md5: string -> string, wrapper: string, store: Store, key: Key, files: seq<File>,
                                sourceFound: bool, script: string, building: Building)
    requires key !in store
    requires Deploy(md5, wrapper, key, true, files, sourceFound, script, building).0.deployed
    ensures var dir := Deploy(md5, wrapper, key, true, files, sourceFound, script, building).0;
            var plain := Deploy(md5, wrapper, key, false, files, sourceFound, script, building).0;
            && Usable(store[key := dir], wrapper, key, false) && dir.build["run"].content == wrapper
            && plain.deployed && dir.build["runjury"] == plain.build["run"]
            && Usable(store[key := plain], wrapper, key, false)
            && (Usable(store[key := plain], wrapper, key, true) <==> plain.build["run"].content == wrapper)
  {
  }

  // ----- which error is reported, and which `run` is served

  /** A build script is run: the one that was sent, or one written for the source found where no `run` was sent. */
  ghost predicate ScriptRuns(files: seq<File>, sourceFound: bool) {
    if Sent(files, "build") then SentExecutable(files, "build") else !Sent(files, "run") && sourceFound
  }

  lemma WrittenFiles(files: seq<File>, n: string)
    ensures n in Written(map[], files) <==> Sent(files, n)
    ensures n in Written(map[], files) ==> (Written(map[], files)[n].mode <==> SentExecutable(files, n))
  {
    WrittenNames(map[], files);
    WrittenMode(map[], files, n);
  }

  /** The script leaves no `run` and none was sent, or the one that was sent is used and is not executable. */
  ghost predicate LacksRun(files: seq<File>, runs: bool, building: Building) {
    if runs then building == Leaves(None) && !Sent(files, "run")
    else !Sent(files, "build") && Sent(files, "run") && !SentExecutable(files, "run")
  }

  /** Exactly when each of the errors is reported. */
  lemma DeployErrorIff(md5: string -> string, wrapper: string, key: Key, combined: bool, files: seq<File>,
                       sourceFound: bool, script: string, building: Building)
    ensures var err := Deploy(md5, wrapper, key, combined, files, sourceFound, script, building).1;
            var good, runs := CanonicalHash(md5, files) == key.hash, ScriptRuns(files, sourceFound);
            && (err == Some(UnexpectedHash) <==> !good)
            && (err == Some(BuildNotExecutable) <==> good && Sent(files, "build") && !SentExecutable(files, "build"))
            && (err == Some(NoSource) <==> good && !Sent(files, "build") && !Sent(files, "run") && !sourceFound)
            && (err == Some(BuildFailed) <==> good && runs && building.Fails?)
            && (err == Some(NoRun) <==> good && LacksRun(files, runs, building))
  {
    WrittenFiles(files, "build");
    WrittenFiles(files, "run");
  }

  /**
   The `run` of a deployed directory is what the script left behind, or else what was sent; a combined
   request hides it behind the wrapper. All other files but the script are as they were written.
   */
  lemma DeployedRun(md5: string -> string, wrapper: string, key: Key, combined: bool, files: seq<File>,
                    sourceFound: bool, script: string, building: Building)
    requires Deploy(md5, wrapper, key, combined, files, sourceFound, script, building).0.deployed
    ensures var build, sent := Deploy(md5, wrapper, key, combined, files, sourceFound, script, building).0.build,
                               Written(map[], files);
            && "run" in build && build["run"].mode && (combined ==> "runjury" in build)
            && (combined ==> build["run"].content == wrapper)
            && (var run := if combined then build["runjury"] else build["run"];
                && run.mode
                && (if ScriptRuns(files, sourceFound) && building != Leaves(None)
                    then building.Leaves? && run.content == building.run.value
                    else "run" in sent && run.content == sent["run"].content))
            && (forall n :: n in sent && n != "run" && n != "runjury" ==> n in build && build[n] == sent[n])
            && (ScriptRuns(files, sourceFound) && !Sent(files, "build") ==>
                  "build" in build && build["build"] == OnDisk(script, true))
  {
    WrittenFiles(files, "build");
    WrittenFiles(files, "run");
  }

  // ----- the hash certifies the contents

  /** A marked directory filed under the hash of files with the same names and bits holds just these files. */
  lemma DeployedHoldsFiles(md5: string -> string, store: Store, key: Key, files: seq<File>)
    requires Sound(md5, store) && key in store && store[key].deployed && key.hash == CanonicalHash(md5, files)
    requires DistinctNames(files) && DistinctNames(store[key].fetched)
    requires NamesAndBits(store[key].fetched) == NamesAndBits(files) && NoCollisions(md5, store[key].fetched, files)
    ensures multiset(store[key].fetched) == multiset(files)
  {
    HashCertifiesContents(md5, store[key].fetched, files);
  }

  // ----- any sequence of requests

  datatype Request = Request(key: Key, combined: bool, files: seq<File>, sourceFound: bool, script: string,
      building: Building)

  function Served(md5: string -> string, wrapper: string, store: Store, r: Request): Store {
    if Usable(store, wrapper, r.key, r.combined) then store
    else store[r.key := Deploy(md5, wrapper, r.key, r.combined, r.files, r.sourceFound, r.script, r.building).0]
  }

  function ServedAll(md5: string -> string, wrapper: string, store: Store, requests: seq<Request>): Store
    decreases |requests|
  {
    if requests == [] then store else ServedAll(md5, wrapper, Served(md5, wrapper, store, requests[0]), requests[1..])
  }

  /** Whatever the server sent and the scripts did, a marked directory holds files with the hash it is filed under. */
  lemma {:induction false} AlwaysSound(md5: string -> string, wrapper: string, store: Store, requests: seq<Request>)
    requires Sound(md5, store)
    ensures Sound(md5, ServedAll(md5, wrapper, store, requests))
    decreases |requests|
  {
    if requests != [] {
      var r := requests[0];
      DeployedIff(md5, wrapper, r.key, r.combined, r.files, r.sourceFound, r.script, r.building);
      AlwaysSound(md5, wrapper, Served(md5, wrapper, store, r), requests[1..]);
    }
  }

  /** So after any requests: what is served under a hash was made from the files of that hash. */
  lemma ServedFromTheFiles(md5: string -> string, wrapper: string, requests: seq<Request>, key: Key, files: seq<File>)
    requires var final := ServedAll(md5, wrapper, map[], requests);
             && key in final && final[key].deployed && key.hash == CanonicalHash(md5, files)
             && DistinctNames(files) && DistinctNames(final[key].fetched)
             && NamesAndBits(final[key].fetched) == NamesAndBits(files) && NoCollisions(md5, final[key].fetched, files)
    ensures multiset(ServedAll(md5, wrapper, map[], requests)[key].fetched) == multiset(files)
  {
    AlwaysSound(md5, wrapper, map[], requests);
    DeployedHoldsFiles(md5, ServedAll(md5, wrapper, map[], requests), key, files);
  }

  /** The last request for the key that was not served from the directory as it was: it made the directory. */
  function Maker(md5: string -> string, wrapper: string, store: Store, requests: seq<Request>,
                 key: Key): Option<Request>
    decreases |requests|
  {
    if requests == [] then None
    else
      var r := requests[0];
      var later := Maker(md5, wrapper, Served(md5, wrapper, store, r), requests[1..], key);
      if later.Some? then later
      else if r.key == key && !Usable(store, wrapper, key, r.combined) then Some(r) else None
  }

  function DeployedFor(md5: string -> string, wrapper: string, r: Request, combined: bool): ExecDir {
    Deploy(md5, wrapper, r.key, combined, r.files, r.sourceFound, r.script, r.building).0
  }

  lemma {:induction false} MakerMade(md5: string -> string, wrapper: string, store: Store, requests: seq<Request>,
                                     key: Key)
    ensures var final, maker := ServedAll(md5, wrapper, store, requests), Maker(md5, wrapper, store, requests, key);
            if maker.Some?
                then maker.value.key == key && key in final &&
                    final[key] == DeployedFor(md5, wrapper, maker.value, maker.value.combined)
            else (key in final <==> key in store) && (key in store ==> final[key] == store[key])
    decreases |requests|
  {
    if requests != [] {
      MakerMade(md5, wrapper, Served(md5, wrapper, store, requests[0]), requests[1..], key);
    }
  }

  /**
   After any sequence of requests, a plain request for a deployed directory is served the wrapper
   instead of the built `run` exactly if the directory was made for a combined request (or the built
   `run` happens to equal the wrapper).
   */
  lemma PlainRequestGetsWrapper(md5: string -> string, wrapper: string, requests: seq<Request>, key: Key)
    requires var final := ServedAll(md5, wrapper, map[], requests);
             key in final && final[key].deployed
    ensures var final, maker := ServedAll(md5, wrapper, map[], requests), Maker(md5, wrapper, map[], requests, key);
            && Usable(final, wrapper, key, false) && maker.Some? && "run" in final[key].build
            && var plain := DeployedFor(md5, wrapper, maker.value, false);
               plain.deployed && "run" in plain.build
               && (final[key].build["run"].content == wrapper <==>
                   maker.value.combined || plain.build["run"].content == wrapper)
  {
    MakerMade(md5, wrapper, map[], requests, key);
    var r := Maker(md5, wrapper, map[], requests, key).value;
    DeployedIff(md5, wrapper, r.key, r.combined, r.files, r.sourceFound, r.script, r.building);
    DeployedIff(md5, wrapper, r.key, false, r.files, r.sourceFound, r.script, r.building);
  }
}
