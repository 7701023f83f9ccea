/** The object key of a report: written by the executor, read back by the API service. */
module ReportKeys {
  import opened Wrappers
  import Sequences
  import opened Strings

  const JSON_LINES_EXTENSION := ".jsonl"

  datatype Place = Place(customer: string, cloud: string, tenant: string, region: string)

  /** A folder name. */
  predicate IsComponent(s: string) {
    s != "" && '/' !in s
  }

  predicate HasComponents(p: Place) {
    IsComponent(p.customer) && IsComponent(p.cloud) && IsComponent(p.tenant) && IsComponent(p.region)
  }

  predicate EndsWithSlash(s: string) {
    s != "" && s[|s| - 1] == '/'
  }

  // ----- the writer

  /** `os.path.join` of two parts */
  function PathJoin(a: string, b: string): string {
    if b != "" && b[0] == '/' then b
    else if a == "" || EndsWithSlash(a) then a + b
    else a + ['/'] + b
  }

  /** Where `save_report` writes. */
  function ReportPath(reportsDir: string, p: Place): string {
    PathJoin(PathJoin(PathJoin(PathJoin(reportsDir, p.customer), p.cloud), p.tenant), p.region + JSON_LINES_EXTENSION)
  }

  /** The key a file is uploaded under. */
  function UploadKey(file: string, resultsFolder: string, prefix: string, jobId: string): string {
    var folder := if prefix != "" then PathJoin(prefix, jobId) else jobId;
    PathJoin(folder, Strip(RemoveAll(file, resultsFolder), '/'))
  }

  method UploadKeys(files: seq<string>, resultsFolder: string, prefix: string, jobId: string)
    returns (keys: seq<string>)
    ensures |keys| == |files|
    ensures forall i | 0 <= i < |files| :: keys[i] == UploadKey(files[i], resultsFolder, prefix, jobId)
  {
    hide UploadKey;
    keys := [];
    for i := 0 to |files|
      invariant |keys| == i && forall k | 0 <= k < i :: keys[k] == UploadKey(files[k], resultsFolder, prefix, jobId)
    {
      keys := keys + [UploadKey(files[i], resultsFolder, prefix, jobId)];
    }
  }

  // ----- the readers

  function ReaderPrefix(prefix: string, jobId: string): string {
    if prefix != "" then prefix + ['/'] + jobId else jobId
  }

  /** `_parse_folders`; None where there are fewer than four folders and the lookup raises. */
  function ParseFolders(key: string, prefix: string): Option<Place> {
    var folders := Split(Strip(RemoveFirst(key, prefix), '/'), '/');
    if |folders| < 4 then None
    else Some(Place(folders[0], folders[1], folders[2], RemoveAll(folders[3], JSON_LINES_EXTENSION)))
  }

  /** The key parsing of `get_download_report`, from the right. */
  function ParseFromRight(key: string): Option<Place> {
    var folders := Split(key, '/');
    var n := |folders|;
    if n < 4 then None
    else Some(Place(folders[n - 4], folders[n - 3], folders[n - 2], RemoveAll(folders[n - 1], JSON_LINES_EXTENSION)))
  }

  /** An empty filter value lets everything through. */
  predicate Selects(expected: Place, actual: Place) {
    && (expected.customer == "" || expected.customer == actual.customer)
    && (expected.cloud == "" || expected.cloud == actual.cloud)
    && (expected.tenant == "" || expected.tenant == actual.tenant)
    && (expected.region == "" || expected.region == actual.region)
  }

  function SelectedBy(keys: seq<string>, prefix: string, expected: Place): seq<string> {
    Sequences.Filter(keys, key => ParseFolders(key, prefix).Some? && Selects(expected, ParseFolders(key, prefix).value))
  }

  /** The inner loop of `filter_result_files`. */
  method MatchesAll(expected: Place, actual: Place) returns (matches: bool)
    ensures matches == Selects(expected, actual)
  {
    var expectedValues := [expected.customer, expected.cloud, expected.tenant, expected.region];
    var actualValues := [actual.customer, actual.cloud, actual.tenant, actual.region];
    assert expectedValues[0] == expected.customer && expectedValues[1] == expected.cloud;
    assert expectedValues[2] == expected.tenant && expectedValues[3] == expected.region;
    for j := 0 to 4
      invariant forall k | 0 <= k < j :: expectedValues[k] == "" || expectedValues[k] == actualValues[k]
    {
      if expectedValues[j] != "" && expectedValues[j] != actualValues[j] {
        return false;
      }
    }
    return true;
  }

  method FilterResultFiles(keys: seq<string>, prefix: string, expected: Place) returns (filtered: Option<seq<string>>)
    ensures filtered == if exists key | key in keys :: ParseFolders(key, prefix).None? then None
                        else Some(SelectedBy(keys, prefix, expected))
  {
    hide ParseFolders, Selects;
    var kept: seq<string> := [];
    for i := 0 to |keys|
      invariant forall k | 0 <= k < i :: ParseFolders(keys[k], prefix).Some?
      invariant kept == SelectedBy(keys[..i], prefix, expected)
    {
      assert keys[i] in keys;
      var actual := ParseFolders(keys[i], prefix);
      if actual.None? {
        return None;
      }
      var matches := MatchesAll(expected, actual.value);
      Sequences.FilterNext(
        keys, i, key => ParseFolders(key, prefix).Some? && Selects(expected, ParseFolders(key, prefix).value));
      if matches {
        kept := kept + [keys[i]];
      }
    }
    assert keys[..|keys|] == keys;
    filtered := Some(kept);
  }

  function ReportsFor(keys: seq<string>, expected: Place): seq<Place>
    requires forall key | key in keys :: ParseFromRight(key).Some?
  {
    if keys == [] then []
    else
      var last := keys[|keys| - 1];
      assert last in keys;
      var rest := ReportsFor(keys[..|keys| - 1], expected);
      if Selects(expected, ParseFromRight(last).value) then rest + [ParseFromRight(last).value] else rest
  }

  /** The loop of `get_download_report`, which filters by customer, tenant and region. */
  method GetDownloadReport(keys: seq<string>, customer: string, tenant: string, region: string)
    returns (places: Option<seq<Place>>)
    ensures places.None? <==> exists key | key in keys :: ParseFromRight(key).None?
    ensures places.Some? ==> places.value == ReportsFor(keys, Place(customer, "", tenant, region))
  {
    hide ParseFromRight;
    var result: seq<Place> := [];
    for i := 0 to |keys|
      invariant forall key | key in keys[..i] :: ParseFromRight(key).Some?
      invariant result == ReportsFor(keys[..i], Place(customer, "", tenant, region))
    {
      assert keys[..i + 1][..i] == keys[..i];
      assert keys[i] in keys && keys[..i + 1] == keys[..i] + [keys[i]];
      var place := ParseFromRight(keys[i]);
      if place.None? {
        return None;
      }
      if customer != "" && place.value.customer != customer {
        continue;
      }
      if tenant != "" && place.value.tenant != tenant {
        continue;
      }
      if region != "" && place.value.region != region {
        continue;
      }
      result := result + [place.value];
    }
    assert keys[..|keys|] == keys;
    places := Some(result);
  }

  // ----- the round trip

  /** The path below the reports folder and below the job's prefix. */
  function Tail(p: Place): string {
    p.customer + ['/'] + (p.cloud + ['/'] + (p.tenant + ['/'] + (p.region + JSON_LINES_EXTENSION)))
  }

  lemma PathJoinComponent(a: string, b: string)
    requires a != "" && !EndsWithSlash(a) && b != "" && b[0] != '/' && !EndsWithSlash(b)
    ensures PathJoin(a, b) == a + ['/'] + b && PathJoin(a, b) != "" && !EndsWithSlash(PathJoin(a, b))
  {
    assert PathJoin(a, b)[|PathJoin(a, b)| - 1] == b[|b| - 1];
  }

  lemma ComponentEnds(s: string)
    requires IsComponent(s)
    ensures s != "" && s[0] != '/' && !EndsWithSlash(s)
  {}

  lemma FileEnds(region: string)
    requires IsComponent(region)
    ensures var file := region + JSON_LINES_EXTENSION;
            '/' !in file && file != "" && file[0] != '/' && !EndsWithSlash(file)
  {
    var file := region + JSON_LINES_EXTENSION;
    assert file[|file| - 1] == 'l' && file[0] == region[0];
  }

  lemma ReportPathIs(reportsDir: string, p: Place)
    requires reportsDir != "" && !EndsWithSlash(reportsDir) && HasComponents(p)
    ensures ReportPath(reportsDir, p) == reportsDir + (['/'] + Tail(p))
  {
    hide PathJoin, EndsWithSlash, IsComponent;
    ComponentEnds(p.customer);
    ComponentEnds(p.cloud);
    ComponentEnds(p.tenant);
    FileEnds(p.region);
    PathJoinComponent(reportsDir, p.customer);
    var path := PathJoin(reportsDir, p.customer);
    PathJoinComponent(path, p.cloud);
    var path2 := PathJoin(path, p.cloud);
    PathJoinComponent(path2, p.tenant);
    PathJoinComponent(PathJoin(path2, p.tenant), p.region + JSON_LINES_EXTENSION);
    Reassociate(reportsDir, p.customer, p.cloud, p.tenant, p.region + JSON_LINES_EXTENSION);
  }

  lemma Reassociate(a: string, b: string, c: string, d: string, e: string)
    ensures a + ['/'] + b + ['/'] + c + ['/'] + d + ['/'] + e ==
            a + (['/'] + (b + ['/'] + (c + ['/'] + (d + ['/'] + e))))
  {}

  lemma TailParts(p: Place)
    requires HasComponents(p)
    ensures Split(Tail(p), '/') == [p.customer, p.cloud, p.tenant, p.region + JSON_LINES_EXTENSION]
    ensures Tail(p) != "" && Tail(p)[0] != '/' && !EndsWithSlash(Tail(p))
  {
    FileEnds(p.region);
    FourParts(p.customer, p.cloud, p.tenant, p.region + JSON_LINES_EXTENSION);
    TailEnds(p);
  }

  lemma FourParts(a: string, b: string, c: string, d: string)
    requires '/' !in a && '/' !in b && '/' !in c && '/' !in d
    ensures Split(a + ['/'] + (b + ['/'] + (c + ['/'] + d)), '/') == [a, b, c, d]
  {
    hide Split;
    var cd := c + ['/'] + d;
    var bcd := b + ['/'] + cd;
    SplitPiece(d, "", '/');
    SplitPiece(c, d, '/');
    SplitPiece(b, cd, '/');
    SplitPiece(a, bcd, '/');
    assert Split(cd, '/') == [c, d] && Split(bcd, '/') == [b, c, d];
  }

  lemma TailEnds(p: Place)
    requires HasComponents(p)
    ensures Tail(p) != "" && Tail(p)[0] != '/' && !EndsWithSlash(Tail(p))
  {
    var file := p.region + JSON_LINES_EXTENSION;
    assert Tail(p)[0] == p.customer[0];
    assert Tail(p)[|Tail(p)| - 1] == file[|file| - 1] == 'l';
  }

  lemma StripBetween(s: string)
    requires s != "" && s[0] != '/' && !EndsWithSlash(s)
    ensures Strip(s, '/') == s && Strip(['/'] + s, '/') == s
  {
    assert (['/'] + s)[1..] == s;
  }

  lemma {:induction false} StripShrinks(s: string, c: char)
    ensures |Strip(s, c)| <= |s|
  {}

  /** A reports folder as the executor makes it: a path with a name at its end. */
  predicate IsReportsDir(s: string) {
    |s| >= 2 && !EndsWithSlash(s)
  }

  lemma RemoveReportsDir(file: string, dir: string)
    requires dir != ""
    ensures RemoveAll(dir + file, dir) == RemoveAll(file, dir)
  {
    assert (dir + file)[|dir|..] == file;
  }

  /** The upload puts the path below the job's folder exactly when the reports folder's name does not
      come up again in it: the replacement removes every occurrence. */
  lemma UploadKeyIff(reportsDir: string, p: Place, prefix: string, jobId: string)
    requires IsReportsDir(reportsDir) && HasComponents(p) && IsComponent(jobId)
    ensures var folder := if prefix != "" then PathJoin(prefix, jobId) else jobId;
            UploadKey(ReportPath(reportsDir, p), reportsDir, prefix, jobId) == folder + ['/'] + Tail(p)
            <==> !Contains(['/'] + Tail(p), reportsDir)
  {
    hide Strip, RemoveAll, Tail, ReportPath;
    var folder := if prefix != "" then PathJoin(prefix, jobId) else jobId;
    assert folder[|folder| - 1] == jobId[|jobId| - 1];
    var below := ['/'] + Tail(p);
    ReportPathIs(reportsDir, p);
    RemoveReportsDir(below, reportsDir);
    RemoveAllAbsent(below, reportsDir);
    TailParts(p);
    StripBetween(Tail(p));
    var stripped := Strip(RemoveAll(below, reportsDir), '/');
    StripShrinks(RemoveAll(below, reportsDir), '/');
    if Contains(below, reportsDir) {
      assert |stripped| < |Tail(p)|;
      assert |PathJoin(folder, stripped)| < |folder + ['/'] + Tail(p)|;
    }
  }

  /** The region survives both readers exactly when it does not itself hold the extension. */
  lemma RegionIff(region: string)
    ensures RemoveAll(region + JSON_LINES_EXTENSION, JSON_LINES_EXTENSION) == region <==>
            !Contains(region, JSON_LINES_EXTENSION)
  {
    RemoveAppended(region, JSON_LINES_EXTENSION);
    RemoveAllAbsent(region, JSON_LINES_EXTENSION);
  }

  lemma RemovePrefix(prefix: string, rest: string)
    requires rest != ""
    ensures RemoveFirst(prefix + rest, prefix) == rest
  {
    assert (prefix + rest)[|prefix|..] == rest;
  }

  /** The reader with the job's prefix recovers the place from the uploaded key. */
  lemma ParseFoldersOfKey(readerPrefix: string, p: Place)
    requires HasComponents(p)
    ensures ParseFolders(readerPrefix + ['/'] + Tail(p), readerPrefix) == Some(p) <==>
            !Contains(p.region, JSON_LINES_EXTENSION)
  {
    hide RemoveFirst, Strip, Split, RemoveAll, Tail, Contains;
    assert readerPrefix + ['/'] + Tail(p) == readerPrefix + (['/'] + Tail(p));
    RemovePrefix(readerPrefix, ['/'] + Tail(p));
    TailParts(p);
    StripBetween(Tail(p));
    RegionIff(p.region);
  }

  lemma ParseFromRightOfKey(folder: string, p: Place)
    requires HasComponents(p)
    ensures ParseFromRight(folder + ['/'] + Tail(p)) == Some(p) <==> !Contains(p.region, JSON_LINES_EXTENSION)
  {
    hide Split, RemoveAll, Tail, Contains;
    SplitConcat(folder, Tail(p), '/');
    TailParts(p);
    RegionIff(p.region);
  }

  /** The round trip, writer to readers. */
  lemma ReportKeyRoundTrip(reportsDir: string, p: Place, prefix: string, jobId: string)
    requires IsReportsDir(reportsDir) && HasComponents(p) && IsComponent(jobId) && !EndsWithSlash(prefix)
    requires !Contains(['/'] + Tail(p), reportsDir)
    ensures var key := UploadKey(ReportPath(reportsDir, p), reportsDir, prefix, jobId);
            && (ParseFolders(key, ReaderPrefix(prefix, jobId)) == Some(p) <==>
                !Contains(p.region, JSON_LINES_EXTENSION))
            && (ParseFromRight(key) == Some(p) <==> !Contains(p.region, JSON_LINES_EXTENSION))
  {
    hide UploadKey, ReportPath, ParseFolders, ParseFromRight, Contains, Tail;
    UploadKeyIff(reportsDir, p, prefix, jobId);
    assert ReaderPrefix(prefix, jobId) == if prefix != "" then PathJoin(prefix, jobId) else jobId;
    ParseFoldersOfKey(ReaderPrefix(prefix, jobId), p);
    ParseFromRightOfKey(ReaderPrefix(prefix, jobId), p);
  }

  /** Filtering by any of the written values keeps the uploaded key, filtering by another value drops it. */
  lemma UploadedKeyIsSelected(reportsDir: string, p: Place, prefix: string, jobId: string, expected: Place)
    requires IsReportsDir(reportsDir) && HasComponents(p) && IsComponent(jobId) && !EndsWithSlash(prefix)
    requires !Contains(['/'] + Tail(p), reportsDir) && !Contains(p.region, JSON_LINES_EXTENSION)
    ensures var key := UploadKey(ReportPath(reportsDir, p), reportsDir, prefix, jobId);
            SelectedBy([key], ReaderPrefix(prefix, jobId), expected) ==
            if && expected.customer in {"", p.customer} && expected.cloud in {"", p.cloud}
               && expected.tenant in {"", p.tenant} && expected.region in {"", p.region}
            then [key] else []
  {
    hide UploadKey, ReportPath, ParseFolders, ParseFromRight, Contains, Tail, ReaderPrefix;
    ReportKeyRoundTrip(reportsDir, p, prefix, jobId);
  }

  /** The readers list objects below their own prefix: they see the key exactly when the storage prefix
      does not end in a slash, since only the writer joins it as a path. */
  lemma ReaderListsKeyIff(reportsDir: string, p: Place, prefix: string, jobId: string)
    requires IsReportsDir(reportsDir) && HasComponents(p) && IsComponent(jobId)
    requires !Contains(['/'] + Tail(p), reportsDir)
    ensures StartsWith(UploadKey(ReportPath(reportsDir, p), reportsDir, prefix, jobId), ReaderPrefix(prefix, jobId))
            <==> !EndsWithSlash(prefix)
  {
    hide UploadKey, ReportPath, Contains, Tail;
    UploadKeyIff(reportsDir, p, prefix, jobId);
    var folder := if prefix != "" then PathJoin(prefix, jobId) else jobId;
    var key := folder + ['/'] + Tail(p);
    if EndsWithSlash(prefix) {
      assert key[|prefix|] == jobId[0] && ReaderPrefix(prefix, jobId)[|prefix|] == '/';
    } else {
      assert key[..|folder|] == folder == ReaderPrefix(prefix, jobId);
    }
  }

  // ----- the folder the executor makes

  /** `<working directory>/<job id>/reports` */
  function JobReportsDir(workDir: string, jobId: string): string {
    workDir + ['/'] + (jobId + "/reports")
  }

  /** A name between two slashes is one of the pieces, and not the last. */
  lemma BetweenSlashes(before: string, name: string, rest: string)
    requires '/' !in name
    ensures var pieces := Split(before + ['/'] + (name + ['/'] + rest), '/');
            exists i :: 0 <= i < |pieces| - 1 && pieces[i] == name
  {
    hide Split;
    SplitConcat(before, name + ['/'] + rest, '/');
    SplitPiece(name, rest, '/');
    var pieces := Split(before + ['/'] + (name + ['/'] + rest), '/');
    assert pieces[|Split(before, '/')|] == name;
  }

  lemma BelowParts(p: Place)
    requires HasComponents(p)
    ensures Split(['/'] + Tail(p), '/') == ["", p.customer, p.cloud, p.tenant, p.region + JSON_LINES_EXTENSION]
  {
    hide Split, Tail;
    TailParts(p);
    SplitConcat("", Tail(p), '/');
    assert "" + ['/'] + Tail(p) == ['/'] + Tail(p);
    SplitPiece("", "", '/');
  }

  lemma Occurrence(s: string, sub: string, i: nat)
    requires OccursAt(s, sub, i)
    ensures s == s[..i] + sub + s[i + |sub|..]
  {}

  lemma FolderBetween(front: string, workDir: string, jobId: string, rest: string)
    ensures front + JobReportsDir(workDir, jobId) + rest ==
            (front + workDir) + ['/'] + (jobId + ['/'] + ("reports" + rest))
  {
    assert "/reports" == ['/'] + "reports";
  }

  /** The reports folder holds the job's id as a folder, so it comes up below itself only if the id is also
      the customer, the cloud or the tenant. */
  lemma FolderDoesNotRecur(workDir: string, jobId: string, p: Place)
    requires HasComponents(p) && IsComponent(jobId)
    requires jobId != p.customer && jobId != p.cloud && jobId != p.tenant
    ensures !Contains(['/'] + Tail(p), JobReportsDir(workDir, jobId))
  {
    hide Split, Tail, Contains, JobReportsDir;
    var below, dir := ['/'] + Tail(p), JobReportsDir(workDir, jobId);
    if Contains(below, dir) {
      ContainsOccurs(below, dir);
      var i: nat :| OccursAt(below, dir, i);
      var before, rest := below[..i] + workDir, "reports" + below[i + |dir|..];
      assert below == below[..i] + dir + below[i + |dir|..] by {
        Occurrence(below, dir, i);
      }
      FolderBetween(below[..i], workDir, jobId, below[i + |dir|..]);
      BetweenSlashes(before, jobId, rest);
      BelowParts(p);
    }
  }

  lemma ContainsOccurs(s: string, sub: string)
    requires Contains(s, sub)
    ensures exists i: nat :: OccursAt(s, sub, i)
  {}

  /** What the executor uploads, both readers recover. */
  lemma JobReportRoundTrip(workDir: string, p: Place, prefix: string, jobId: string)
    requires HasComponents(p) && IsComponent(jobId) && !EndsWithSlash(prefix)
    requires jobId != p.customer && jobId != p.cloud && jobId != p.tenant
    requires !Contains(p.region, JSON_LINES_EXTENSION)
    ensures var dir := JobReportsDir(workDir, jobId);
            var key := UploadKey(ReportPath(dir, p), dir, prefix, jobId);
            ParseFolders(key, ReaderPrefix(prefix, jobId)) == Some(p) && ParseFromRight(key) == Some(p)
  {
    hide UploadKey, ReportPath, ParseFolders, ParseFromRight, Contains, Tail, ReaderPrefix;
    var dir := JobReportsDir(workDir, jobId);
    FolderDoesNotRecur(workDir, jobId, p);
    assert dir[|dir| - 1] == 's';
    ReportKeyRoundTrip(dir, p, prefix, jobId);
  }

  lemma SameTailSamePlace(p: Place, q: Place)
    requires HasComponents(p) && HasComponents(q) && Tail(p) == Tail(q)
    ensures p == q
  {
    hide Split, Tail;
    TailParts(p);
    TailParts(q);
    var file := p.region + JSON_LINES_EXTENSION;
    var pieces := Split(Tail(p), '/');
    assert pieces[0] == p.customer == q.customer && pieces[1] == p.cloud == q.cloud;
    assert pieces[2] == p.tenant == q.tenant;
    assert pieces[3] == file == q.region + JSON_LINES_EXTENSION;
    assert p.region == file[..|file| - |JSON_LINES_EXTENSION|];
  }

  /** No upload overwrites another: the reports of different places get different keys, in every region. */
  lemma UploadsStayApart(workDir: string, prefix: string, jobId: string, places: seq<Place>, keys: seq<string>)
    requires IsComponent(jobId) && Sequences.Distinct(places) && |keys| == |places|
    requires forall p | p in places ::
               HasComponents(p) && jobId != p.customer && jobId != p.cloud && jobId != p.tenant
    requires forall i | 0 <= i < |keys| ::
               var dir := JobReportsDir(workDir, jobId);
               keys[i] == UploadKey(ReportPath(dir, places[i]), dir, prefix, jobId)
    ensures Sequences.Distinct(keys)
  {
    hide UploadKey, ReportPath, Contains, Tail, HasComponents;
    var dir := JobReportsDir(workDir, jobId);
    assert dir[|dir| - 1] == 's';
    var folder := if prefix != "" then PathJoin(prefix, jobId) else jobId;
    forall i, j | 0 <= i < j < |keys| ensures keys[i] != keys[j] {
      var p, q := places[i], places[j];
      assert p in places && q in places;
      FolderDoesNotRecur(workDir, jobId, p);
      FolderDoesNotRecur(workDir, jobId, q);
      UploadKeyIff(dir, p, prefix, jobId);
      UploadKeyIff(dir, q, prefix, jobId);
      if keys[i] == keys[j] {
        SameEnd(folder + ['/'], Tail(p), Tail(q));
        SameTailSamePlace(p, q);
      }
    }
  }

  lemma SameEnd(a: string, b: string, c: string)
    requires a + b == a + c
    ensures b == c
  {
    assert b == (a + b)[|a|..] && c == (a + c)[|a|..];
  }

  /** The key of a report, folder by folder. */
  function WrittenOut(prefix: string, jobId: string, p: Place): string {
    (if prefix != "" then prefix + "/" + jobId else jobId) + "/" + p.customer + "/" + p.cloud + "/" + p.tenant + "/"
    + p.region + ".jsonl"
  }

  lemma TailWrittenOut(folder: string, p: Place)
    ensures folder + ['/'] + Tail(p) ==
            folder + "/" + p.customer + "/" + p.cloud + "/" + p.tenant + "/" + p.region + ".jsonl"
  {
    var file := p.region + JSON_LINES_EXTENSION;
    var path := folder + "/" + p.customer + "/" + p.cloud + "/" + p.tenant + "/";
    assert path + file == path + p.region + ".jsonl";
    Reassociate(folder, p.customer, p.cloud, p.tenant, file);
    assert folder + ['/'] + Tail(p) == folder + (['/'] + Tail(p));
  }

  lemma WrittenOutIs(workDir: string, p: Place, prefix: string, jobId: string)
    requires HasComponents(p) && IsComponent(jobId) && !EndsWithSlash(prefix)
    requires jobId != p.customer && jobId != p.cloud && jobId != p.tenant
    ensures var dir := JobReportsDir(workDir, jobId);
            UploadKey(ReportPath(dir, p), dir, prefix, jobId) == WrittenOut(prefix, jobId, p)
  {
    var dir := JobReportsDir(workDir, jobId);
    assert dir[|dir| - 1] == 's';
    var folder := if prefix != "" then PathJoin(prefix, jobId) else jobId;
    assert folder == if prefix != "" then prefix + "/" + jobId else jobId;
    hide UploadKey, ReportPath, Contains, JobReportsDir, Tail, PathJoin, IsComponent, EndsWithSlash;
    FolderDoesNotRecur(workDir, jobId, p);
    UploadKeyIff(dir, p, prefix, jobId);
    TailWrittenOut(folder, p);
  }

  /** From the places reported on to the keys of a job: the reports are written and uploaded one by one. */
  method UploadReports(workDir: string, prefix: string, jobId: string, places: seq<Place>) returns (keys: seq<string>)
    requires IsComponent(jobId) && !EndsWithSlash(prefix) && Sequences.Distinct(places)
    requires forall p | p in places :: HasComponents(p) && !Contains(p.region, JSON_LINES_EXTENSION)
    requires forall p | p in places :: jobId != p.customer && jobId != p.cloud && jobId != p.tenant
    ensures |keys| == |places| && Sequences.Distinct(keys)
    ensures forall i | 0 <= i < |keys| :: ParseFolders(keys[i], ReaderPrefix(prefix, jobId)) == Some(places[i])
    ensures forall i | 0 <= i < |keys| :: ParseFromRight(keys[i]) == Some(places[i])
    ensures forall i | 0 <= i < |keys| ::
              keys[i] == (if prefix != "" then prefix + "/" + jobId else jobId) + "/" + places[i].customer + "/"
                         + places[i].cloud + "/" + places[i].tenant + "/" + places[i].region + ".jsonl"
  {
    hide UploadKey, ReportPath, ParseFolders, ParseFromRight, Contains, ReaderPrefix, HasComponents, EndsWithSlash,
         JobReportsDir;
    var dir := JobReportsDir(workDir, jobId);
    var files: seq<string> := [];
    for i := 0 to |places|
      invariant |files| == i && forall k | 0 <= k < i :: files[k] == ReportPath(dir, places[k])
    {
      files := files + [ReportPath(dir, places[i])];
    }
    keys := UploadKeys(files, dir, prefix, jobId);
    UploadsStayApart(workDir, prefix, jobId, places, keys);
    forall i | 0 <= i < |keys|
      ensures ParseFolders(keys[i], ReaderPrefix(prefix, jobId)) == Some(places[i])
      ensures ParseFromRight(keys[i]) == Some(places[i])
      ensures keys[i] == WrittenOut(prefix, jobId, places[i])
    {
      assert places[i] in places;
      WrittenOutIs(workDir, places[i], prefix, jobId);
      JobReportRoundTrip(workDir, places[i], prefix, jobId);
    }
  }
}
