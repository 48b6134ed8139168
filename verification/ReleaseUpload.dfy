/** Uploading capture release assets: immutable, resumable, and checked before and after. */
module ReleaseUpload {
  import opened TextOrder

  datatype Asset = Asset(name: string, digest: string, uploaded: bool)

  datatype File = File(name: string, digest: string)

  /** How one upload ends. Anything but `Placed` also ends the attempt; `Broken` leaves an unusable asset. */
  datatype Upload = Placed | PlacedThenLost | Broken(digest: string) | NotPlaced

  datatype Attempt = Attempt(assets: seq<Asset>, succeeded: bool, calls: seq<string>)

  predicate NamesUnrepeated(assets: seq<Asset>) {
    forall i, j :: 0 <= i < j < |assets| ==> assets[i].name != assets[j].name
  }

  predicate FilesUnrepeated(files: seq<File>) {
    forall i, j :: 0 <= i < j < |files| ==> files[i].name != files[j].name
  }

  predicate Matches(asset: Asset, files: seq<File>) {
    asset.uploaded && File(asset.name, asset.digest) in files
  }

  predicate AllMatch(assets: seq<Asset>, files: seq<File>) {
    forall asset :: asset in assets ==> Matches(asset, files)
  }

  predicate Named(assets: seq<Asset>, name: string) {
    exists i :: 0 <= i < |assets| && assets[i].name == name
  }

  function InsertFile(file: File, files: seq<File>): (sorted: seq<File>)
    ensures multiset(sorted) == multiset(files) + multiset{file}
  {
    if files == [] then [file]
    else
      assert files == [files[0]] + files[1..];
      if CompareText(file.name, files[0].name).Greater? then [files[0]] + InsertFile(file, files[1..]) else [file] + files
  }

  /** The files not yet on the release, sorted by name. */
  function Missing(files: seq<File>, assets: seq<Asset>): (missing: seq<File>)
    ensures forall file :: file in missing <==> file in files && !Named(assets, file.name)
  {
    if files == [] then []
    else
      assert files == [files[0]] + files[1..];
      var rest := Missing(files[1..], assets);
      if Named(assets, files[0].name) then rest
      else
        var sorted := InsertFile(files[0], rest);
        assert forall file :: file in sorted <==> file in multiset(sorted);
        sorted
  }

  /** Upload in turn until one does not come back done. */
  function UploadEach(assets: seq<Asset>, missing: seq<File>, outcome: string -> Upload): Attempt
    decreases |missing|
  {
    if missing == [] then Attempt(assets, true, [])
    else
      var file := missing[0];
      match outcome(file.name)
      case Placed =>
        var rest := UploadEach(assets + [Asset(file.name, file.digest, true)], missing[1..], outcome);
        rest.(calls := [file.name] + rest.calls)
      case PlacedThenLost => Attempt(assets + [Asset(file.name, file.digest, true)], false, [file.name])
      case Broken(digest) => Attempt(assets + [Asset(file.name, digest, false)], false, [file.name])
      case NotPlaced => Attempt(assets, false, [file.name])
  }

  predicate Complete(assets: seq<Asset>, files: seq<File>) {
    |assets| == |files| && (forall file :: file in files ==> Named(assets, file.name)) && AllMatch(assets, files)
  }

  /** One run of the uploader over the release as it stands. */
  function UploadMissing(draft: bool, assets: seq<Asset>, files: seq<File>, outcome: string -> Upload): Attempt {
    if !NamesUnrepeated(assets) || !AllMatch(assets, files) then Attempt(assets, false, [])
    else
      var missing := Missing(files, assets);
      if !draft && missing != [] then Attempt(assets, false, [])
      else
        var uploaded := UploadEach(assets, missing, outcome);
        uploaded.(succeeded := uploaded.succeeded && Complete(uploaded.assets, files))
  }

  // ----- one attempt -----

  lemma {:induction false} UploadsOnlyAdd(assets: seq<Asset>, missing: seq<File>, outcome: string -> Upload)
    requires FilesUnrepeated(missing) && NamesUnrepeated(assets)
    requires forall file :: file in missing ==> !Named(assets, file.name)
    ensures var attempt := UploadEach(assets, missing, outcome);
      && assets <= attempt.assets && NamesUnrepeated(attempt.assets)
      && |attempt.calls| <= |missing|
      && (forall k :: 0 <= k < |attempt.calls| ==> attempt.calls[k] == missing[k].name)
      && (forall asset :: asset in attempt.assets ==> asset in assets || asset.name in attempt.calls)
    decreases |missing|
  {
    if missing != [] {
      var file := missing[0];
      assert file in missing;
      forall digest, uploaded ensures NamesUnrepeated(assets + [Asset(file.name, digest, uploaded)]) {}
      if outcome(file.name).Placed? {
        var next := assets + [Asset(file.name, file.digest, true)];
        forall other | other in missing[1..] ensures !Named(next, other.name) {
          assert other in missing;
          var i :| 0 <= i < |missing[1..]| && missing[1..][i] == other;
          assert missing[i + 1] == other;
        }
        UploadsOnlyAdd(next, missing[1..], outcome);
      }
    }
  }

  lemma {:induction false} MissingUnrepeated(files: seq<File>, assets: seq<Asset>)
    requires FilesUnrepeated(files)
    ensures FilesUnrepeated(Missing(files, assets))
  {
    if files != [] {
      MissingUnrepeated(files[1..], assets);
      var rest := Missing(files[1..], assets);
      forall file | file in rest ensures file.name != files[0].name {
        var i :| 0 <= i < |files[1..]| && files[1..][i] == file;
        assert files[i + 1] == file;
      }
      InsertUnrepeated(files[0], rest);
    }
  }

  lemma {:induction false} InsertUnrepeated(file: File, files: seq<File>)
    requires FilesUnrepeated(files) && forall other :: other in files ==> other.name != file.name
    ensures FilesUnrepeated(InsertFile(file, files))
  {
    if files != [] && CompareText(file.name, files[0].name).Greater? {
      InsertUnrepeated(file, files[1..]);
      var rest := InsertFile(file, files[1..]);
      forall other | other in rest ensures other.name != files[0].name {
        assert other in multiset(rest);
        if other != file {
          assert other in files[1..];
          var i :| 0 <= i < |files[1..]| && files[1..][i] == other;
          assert files[i + 1] == other;
        }
      }
    }
  }

  /** An attempt never touches an asset that exists, uploads only names that are absent, each at most
      once, and uploads nothing at all once anything on the release differs or a published release is
      incomplete. */
  lemma AttemptIsSafe(draft: bool, assets: seq<Asset>, files: seq<File>, outcome: string -> Upload)
    requires FilesUnrepeated(files)
    ensures var attempt := UploadMissing(draft, assets, files, outcome);
      && assets <= attempt.assets
      && (NamesUnrepeated(assets) ==> NamesUnrepeated(attempt.assets))
      && (forall name :: name in attempt.calls ==> !Named(assets, name) && exists file :: file in files && file.name == name)
      && (forall i, j :: 0 <= i < j < |attempt.calls| ==> attempt.calls[i] != attempt.calls[j])
      && (!AllMatch(assets, files) || !NamesUnrepeated(assets) || (!draft && Missing(files, assets) != []) ==>
          attempt == Attempt(assets, false, []))
  {
    hide CompareText;
    if NamesUnrepeated(assets) && AllMatch(assets, files) {
      MissingUnrepeated(files, assets);
      var missing := Missing(files, assets);
      UploadsOnlyAdd(assets, missing, outcome);
      hide Missing, UploadEach, AllMatch, Complete;
      forall k | 0 <= k < |UploadEach(assets, missing, outcome).calls| ensures missing[k] in missing && missing[k] in files {}
    }
  }

  /** Success means the release holds exactly the expected names, each uploaded with its expected digest. */
  lemma SuccessIsExact(draft: bool, assets: seq<Asset>, files: seq<File>, outcome: string -> Upload)
    requires FilesUnrepeated(files) && UploadMissing(draft, assets, files, outcome).succeeded
    ensures var final := UploadMissing(draft, assets, files, outcome).assets;
      forall name, digest ::
        (exists asset :: asset in final && asset.name == name && asset.digest == digest && asset.uploaded)
        <==> File(name, digest) in files
  {
    var final := UploadMissing(draft, assets, files, outcome).assets;
    AttemptIsSafe(draft, assets, files, outcome);
    assert Complete(final, files);
    hide UploadMissing;
    forall file | file in files ensures Asset(file.name, file.digest, true) in final {
      var i :| 0 <= i < |final| && final[i].name == file.name;
      assert final[i] in final;
      SameFile(files, File(final[i].name, final[i].digest), file);
    }
    forall name, digest | exists asset :: asset in final && asset.name == name && asset.digest == digest && asset.uploaded
      ensures File(name, digest) in files
    {
      var asset :| asset in final && asset.name == name && asset.digest == digest && asset.uploaded;
      assert Matches(asset, files);
    }
    forall name, digest | File(name, digest) in files
      ensures exists asset :: asset in final && asset.name == name && asset.digest == digest && asset.uploaded
    {
      assert Asset(name, digest, true) in final;
    }
  }

  lemma SameFile(files: seq<File>, a: File, b: File)
    requires FilesUnrepeated(files) && a in files && b in files && a.name == b.name
    ensures a == b
  {
    var i :| 0 <= i < |files| && files[i] == a;
    var j :| 0 <= j < |files| && files[j] == b;
  }

  // ----- interrupted and retried -----

  /** The release after any number of attempts, each over the assets the last one left. */
  function Retried(draft: bool, assets: seq<Asset>, files: seq<File>, outcomes: seq<string -> Upload>): seq<Asset>
    decreases |outcomes|
  {
    if outcomes == [] then assets
    else Retried(draft, UploadMissing(draft, assets, files, outcomes[0]).assets, files, outcomes[1..])
  }

  /** Over any number of interrupted attempts no asset is ever replaced, and no name appears twice. */
  lemma {:induction false} RetriesNeverReplace(draft: bool, assets: seq<Asset>, files: seq<File>, outcomes: seq<string -> Upload>)
    requires FilesUnrepeated(files) && NamesUnrepeated(assets)
    ensures assets <= Retried(draft, assets, files, outcomes)
    ensures NamesUnrepeated(Retried(draft, assets, files, outcomes))
    decreases |outcomes|
  {
    hide UploadMissing;
    if outcomes != [] {
      AttemptIsSafe(draft, assets, files, outcomes[0]);
      RetriesNeverReplace(draft, UploadMissing(draft, assets, files, outcomes[0]).assets, files, outcomes[1..]);
    }
  }

  predicate Unbroken(outcome: string -> Upload, files: seq<File>) {
    forall file :: file in files ==> !outcome(file.name).Broken?
  }

  predicate AllPlaced(outcome: string -> Upload, files: seq<File>) {
    forall file :: file in files ==> outcome(file.name).Placed?
  }

  lemma {:induction false} UploadsMatch(assets: seq<Asset>, missing: seq<File>, outcome: string -> Upload, files: seq<File>)
    requires AllMatch(assets, files) && Unbroken(outcome, missing) && forall file :: file in missing ==> file in files
    ensures AllMatch(UploadEach(assets, missing, outcome).assets, files)
    decreases |missing|
  {
    if missing != [] {
      var file := missing[0];
      assert file in missing;
      if outcome(file.name).Placed? {
        UploadsMatch(assets + [Asset(file.name, file.digest, true)], missing[1..], outcome, files);
      }
    }
  }

  lemma {:induction false} UploadsComplete(assets: seq<Asset>, missing: seq<File>, outcome: string -> Upload)
    requires AllPlaced(outcome, missing)
    ensures var attempt := UploadEach(assets, missing, outcome);
      && attempt.succeeded && assets <= attempt.assets && |attempt.assets| == |assets| + |missing|
      && forall file :: file in missing ==> Named(attempt.assets, file.name)
    decreases |missing|
  {
    if missing != [] {
      assert missing[0] in missing;
      var next := assets + [Asset(missing[0].name, missing[0].digest, true)];
      UploadsComplete(next, missing[1..], outcome);
      var final := UploadEach(assets, missing, outcome).assets;
      assert final[|assets|].name == missing[0].name;
      assert forall file :: file in missing ==> file == missing[0] || file in missing[1..];
    }
  }

  /** Resumability: from a draft that matches so far, whatever attempts were interrupted without leaving a
      broken asset, one attempt whose uploads all come back done succeeds. */
  lemma {:induction false} RetryCompletes(assets: seq<Asset>, files: seq<File>, outcomes: seq<string -> Upload>, last: string -> Upload)
    requires FilesUnrepeated(files) && NamesUnrepeated(assets) && AllMatch(assets, files)
    requires forall i :: 0 <= i < |outcomes| ==> Unbroken(outcomes[i], files)
    requires AllPlaced(last, files)
    ensures UploadMissing(true, Retried(true, assets, files, outcomes), files, last).succeeded
    decreases |outcomes|
  {
    var missing := Missing(files, assets);
    if outcomes == [] {
      MissingUnrepeated(files, assets);
      UploadsOnlyAdd(assets, missing, last);
      UploadsComplete(assets, missing, last);
      UploadsMatch(assets, missing, last, files);
      CompletedIsExact(assets, files, UploadEach(assets, missing, last).assets);
    } else {
      AttemptIsSafe(true, assets, files, outcomes[0]);
      assert Unbroken(outcomes[0], missing);
      UploadsMatch(assets, missing, outcomes[0], files);
      hide AllMatch, NamesUnrepeated, Unbroken, AllPlaced, FilesUnrepeated;
      var next := UploadMissing(true, assets, files, outcomes[0]).assets;
      RetryCompletes(next, files, outcomes[1..], last);
    }
  }

  /** Matching assets under distinct names that cover every file are exactly as many as the files. */
  lemma CompletedIsExact(assets: seq<Asset>, files: seq<File>, final: seq<Asset>)
    requires FilesUnrepeated(files) && NamesUnrepeated(final) && AllMatch(final, files)
    requires assets <= final && forall file :: file in Missing(files, assets) ==> Named(final, file.name)
    ensures Complete(final, files)
  {
    forall file | file in files ensures Named(final, file.name) {
      if Named(assets, file.name) {
        var i :| 0 <= i < |assets| && assets[i].name == file.name;
        assert final[i].name == file.name;
      } else {
        assert file in Missing(files, assets);
      }
    }
    var names, expected := AssetNames(final), FileNames(files);
    AssetNamesSize(final);
    FileNamesSize(files);
    forall name ensures name in names <==> name in expected {
      if name in names {
        var i :| 0 <= i < |final| && final[i].name == name;
        assert final[i] in final;
      }
    }
    assert names == expected;
  }

  function AssetNames(assets: seq<Asset>): (names: set<string>)
    ensures forall name :: name in names <==> Named(assets, name)
  {
    if assets == [] then {}
    else
      var rest := AssetNames(assets[1..]);
      assert forall name :: Named(assets, name) <==> name == assets[0].name || Named(assets[1..], name) by {
        forall name | Named(assets, name) && name != assets[0].name ensures Named(assets[1..], name) {
          var i :| 0 <= i < |assets| && assets[i].name == name;
          assert assets[1..][i - 1].name == name;
        }
        forall name | Named(assets[1..], name) ensures Named(assets, name) {
          var i :| 0 <= i < |assets[1..]| && assets[1..][i].name == name;
          assert assets[i + 1].name == name;
        }
      }
      {assets[0].name} + rest
  }

  lemma {:induction false} AssetNamesSize(assets: seq<Asset>)
    requires NamesUnrepeated(assets)
    ensures |AssetNames(assets)| == |assets|
  {
    if assets != [] { AssetNamesSize(assets[1..]); }
  }

  function FileNames(files: seq<File>): (names: set<string>)
    ensures forall name :: name in names <==> exists file :: file in files && file.name == name
  {
    if files == [] then {}
    else
      assert files == [files[0]] + files[1..];
      {files[0].name} + FileNames(files[1..])
  }

  lemma {:induction false} FileNamesSize(files: seq<File>)
    requires FilesUnrepeated(files)
    ensures |FileNames(files)| == |files|
  {
    if files != [] { FileNamesSize(files[1..]); }
  }

  lemma UploadNone(assets: seq<Asset>, outcome: string -> Upload)
    ensures UploadEach(assets, [], outcome) == Attempt(assets, true, [])
  {
  }

  lemma UploadFirst(assets: seq<Asset>, missing: seq<File>, outcome: string -> Upload)
    requires missing != []
    ensures var file := missing[0];
      UploadEach(assets, missing, outcome) ==
        match outcome(file.name)
        case Placed =>
          var rest := UploadEach(assets + [Asset(file.name, file.digest, true)], missing[1..], outcome);
          rest.(calls := [file.name] + rest.calls)
        case PlacedThenLost => Attempt(assets + [Asset(file.name, file.digest, true)], false, [file.name])
        case Broken(digest) => Attempt(assets + [Asset(file.name, digest, false)], false, [file.name])
        case NotPlaced => Attempt(assets, false, [file.name])
  {
  }

  // ----- what an attempt does -----

  /** The asset one upload of a file leaves, if any. */
  ghost predicate Uploaded(file: File, upload: Upload, asset: Asset) {
    match upload
    case NotPlaced => false
    case Broken(digest) => asset == Asset(name := file.name, digest := digest, uploaded := false)
    case _ => asset == Asset(name := file.name, digest := file.digest, uploaded := true)
  }

  /** Uploading goes on until one upload does not come back done. */
  lemma {:induction false} UploadsMean(assets: seq<Asset>, missing: seq<File>, outcome: string -> Upload)
    ensures var attempt := UploadEach(assets, missing, outcome);
      var n := |attempt.calls|;
      && n <= |missing| && (forall k :: 0 <= k < n ==> attempt.calls[k] == missing[k].name)
      && (forall k :: 0 <= k < n - 1 ==> outcome(missing[k].name).Placed?)
      && (attempt.succeeded <==> forall k :: 0 <= k < |missing| ==> outcome(missing[k].name).Placed?)
      && (if attempt.succeeded then n == |missing| else 0 < n && !outcome(missing[n - 1].name).Placed?)
    decreases |missing|
  {
    if missing != [] && outcome(missing[0].name).Placed? {
      var next := assets + [Asset(missing[0].name, missing[0].digest, true)];
      UploadsMean(next, missing[1..], outcome);
      forall k | 0 <= k < |missing| ensures missing[k] == if k == 0 then missing[0] else missing[1..][k - 1] {}
    }
  }

  /** `added` is what that many calls left, in order; only the last can have left nothing. */
  ghost predicate Left(missing: seq<File>, outcome: string -> Upload, calls: nat, added: seq<Asset>) {
    && calls <= |missing| && |added| <= calls <= |added| + 1
    && (|added| < calls ==> outcome(missing[|added|].name).NotPlaced?)
    && forall k :: 0 <= k < |added| ==> Uploaded(missing[k], outcome(missing[k].name), added[k])
  }

  lemma LeftCons(missing: seq<File>, outcome: string -> Upload, calls: nat, head: Asset, added: seq<Asset>)
    requires missing != [] && Uploaded(missing[0], outcome(missing[0].name), head)
    requires Left(missing[1..], outcome, calls, added)
    ensures Left(missing, outcome, calls + 1, [head] + added)
  {
    hide Uploaded;
    var all := [head] + added;
    forall k | 0 <= k < |all| ensures Uploaded(missing[k], outcome(missing[k].name), all[k]) {
      if 0 < k { assert missing[k] == missing[1..][k - 1] && all[k] == added[k - 1]; }
    }
  }

  /** Each call leaves what it uploaded behind what was there. */
  lemma {:induction false} UploadsLeave(assets: seq<Asset>, missing: seq<File>, outcome: string -> Upload) returns (added: seq<Asset>)
    ensures var attempt := UploadEach(assets, missing, outcome);
      attempt.assets == assets + added && Left(missing, outcome, |attempt.calls|, added)
    decreases |missing|
  {
    added := [];
    if missing != [] {
      var file := missing[0];
      match outcome(file.name) {
        case Placed =>
          var head := Asset(file.name, file.digest, true);
          var rest := UploadsLeave(assets + [head], missing[1..], outcome);
          LeftCons(missing, outcome, |UploadEach(assets + [head], missing[1..], outcome).calls|, head, rest);
          added := [head] + rest;
          assert assets + [head] + rest == assets + added;
          hide Left, Uploaded;
        case PlacedThenLost => added := [Asset(file.name, file.digest, true)];
        case Broken(digest) => added := [Asset(file.name, digest, false)];
        case NotPlaced =>
      }
    }
  }

  predicate Ascending(files: seq<File>) {
    forall i, j :: 0 <= i < j < |files| ==> !CompareText(files[i].name, files[j].name).Greater?
  }

  /** Missing files are uploaded in the order of their names. */
  lemma {:induction false} MissingOrder(files: seq<File>, assets: seq<Asset>)
    ensures Ascending(Missing(files, assets))
  {
    hide Ascending, InsertFile;
    if files == [] {
      NothingAscends();
    } else {
      MissingOrder(files[1..], assets);
      InsertOrder(files[0], Missing(files[1..], assets));
    }
  }

  lemma NothingAscends()
    ensures Ascending([])
  {
  }

  lemma {:induction false} InsertOrder(file: File, files: seq<File>)
    requires Ascending(files)
    ensures Ascending(InsertFile(file, files))
  {
    hide CompareText;
    if files == [] {
    } else if CompareText(file.name, files[0].name).Greater? {
      CompareTextLaws(file.name, files[0].name, file.name);
      InsertOrder(file, files[1..]);
      var rest := InsertFile(file, files[1..]);
      forall j | 0 <= j < |rest| ensures !CompareText(files[0].name, rest[j].name).Greater? {
        assert rest[j] in multiset(rest);
        assert rest[j] == file || rest[j] in files[1..];
      }
    } else {
      forall j | 0 <= j < |files| ensures !CompareText(file.name, files[j].name).Greater? {
        CompareTextLaws(file.name, files[0].name, files[j].name);
      }
    }
  }

  /** An attempt succeeds exactly when everything on the release matches under distinct names, a published one
      lacks nothing, and every upload of an absent file comes back done. */
  lemma SucceedsIff(draft: bool, assets: seq<Asset>, files: seq<File>, outcome: string -> Upload)
    requires FilesUnrepeated(files)
    ensures UploadMissing(draft, assets, files, outcome).succeeded <==>
      && (forall i, j :: 0 <= i < j < |assets| ==> assets[i].name != assets[j].name)
      && (forall asset :: asset in assets ==> asset.uploaded && File(asset.name, asset.digest) in files)
      && (forall file :: file in files && !Named(assets, file.name) ==> draft && outcome(file.name).Placed?)
  {
    hide CompareText, Missing, UploadEach, Complete;
    if NamesUnrepeated(assets) && AllMatch(assets, files) {
      var missing := Missing(files, assets);
      MissingUnrepeated(files, assets);
      UploadsMean(assets, missing, outcome);
      forall file ensures file in missing <==> file in files && !Named(assets, file.name) {}
      if missing != [] { assert missing[0] in missing; }
      if forall k :: 0 <= k < |missing| ==> outcome(missing[k].name).Placed? {
        PlacedCompletes(assets, files, outcome);
        forall file | file in missing ensures outcome(file.name).Placed? {}
      } else {
        var k :| 0 <= k < |missing| && !outcome(missing[k].name).Placed?;
        assert missing[k] in missing;
      }
    }
  }

  lemma PlacedCompletes(assets: seq<Asset>, files: seq<File>, outcome: string -> Upload)
    requires FilesUnrepeated(files) && NamesUnrepeated(assets) && AllMatch(assets, files)
    requires AllPlaced(outcome, Missing(files, assets))
    ensures Complete(UploadEach(assets, Missing(files, assets), outcome).assets, files)
  {
    var missing := Missing(files, assets);
    MissingUnrepeated(files, assets);
    UploadsOnlyAdd(assets, missing, outcome);
    UploadsComplete(assets, missing, outcome);
    UploadsMatch(assets, missing, outcome, files);
    CompletedIsExact(assets, files, UploadEach(assets, missing, outcome).assets);
  }

  // ----- the release as it changes -----

  class Release {
    const draft: bool
    var assets: seq<Asset>

    constructor (draft: bool, assets: seq<Asset>)
      ensures this.draft == draft && this.assets == assets
    {
      this.draft, this.assets := draft, assets;
    }

    /** Validate everything that exists before any upload. */
    method Validate(files: seq<File>) returns (valid: bool)
      ensures valid <==> NamesUnrepeated(assets) && AllMatch(assets, files)
    {
      hide Matches;
      var names: set<string> := {};
      for i := 0 to |assets|
        invariant NamesUnrepeated(assets[..i])
        invariant forall name :: name in names <==> exists j :: 0 <= j < i && assets[j].name == name
      {
        if assets[i].name in names {
          return false;
        }
        names := names + {assets[i].name};
      }
      assert assets[..|assets|] == assets;
      for i := 0 to |assets|
        invariant AllMatch(assets[..i], files)
      {
        if !Matches(assets[i], files) {
          assert assets[i] in assets;
          return false;
        }
        assert assets[..i + 1] == assets[..i] + [assets[i]];
      }
      assert assets[..|assets|] == assets;
      valid := true;
    }

    method UploadMissingFiles(files: seq<File>, outcome: string -> Upload) returns (succeeded: bool, calls: seq<string>)
      modifies this
      ensures Attempt(assets, succeeded, calls) == UploadMissing(draft, old(assets), files, outcome)
    {
      hide Missing, AllMatch, Complete, UploadEach, NamesUnrepeated;
      calls := [];
      var valid := Validate(files);
      if !valid {
        return false, [];
      }
      var missing := Missing(files, assets);
      if !draft && missing != [] {
        return false, [];
      }
      ghost var start := assets;
      assert missing[0..] == missing;
      for i := 0 to |missing|
        invariant UploadEach(start, missing, outcome) ==
          var rest := UploadEach(assets, missing[i..], outcome);
          rest.(calls := calls + rest.calls)
      {
        var file := missing[i];
        assert missing[i..][1..] == missing[i + 1..];
        UploadFirst(assets, missing[i..], outcome);
        calls := calls + [file.name];
        match outcome(file.name) {
          case Placed => assets := assets + [Asset(file.name, file.digest, true)];
          case PlacedThenLost =>
            assets := assets + [Asset(file.name, file.digest, true)];
            return false, calls;
          case Broken(digest) =>
            assets := assets + [Asset(file.name, digest, false)];
            return false, calls;
          case NotPlaced => return false, calls;
        }
      }
      assert missing[|missing|..] == [];
      UploadNone(assets, outcome);
      succeeded := Complete(assets, files);
    }
  }
}
