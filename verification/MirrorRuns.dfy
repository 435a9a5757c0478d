/**
  Rollback, and any sequence of promotions and rollbacks of the mirror, one at a time.
 */
module MirrorRuns {
  import opened Common
  import opened Text
  import opened Traces
  import opened MirrorRegistry
  import opened GitlabMirror

  // `\d+\.\d+\.\d+`
  predicate IsReleaseVersion(version: string) {
    var parts := Split(version, '.');
    |parts| == 3 && forall i :: 0 <= i < 3 ==> parts[i] != "" && forall j :: 0 <= j < |parts[i]| ==> '0' <= parts[i][j] <= '9'
  }

  predicate IsNumber(s: string) {
    s != "" && forall i :: 0 <= i < |s| ==> s[i] in "0123456789"
  }

  // A release version is three numbers with dots between them.
  lemma VersionMeans(version: string)
    ensures IsReleaseVersion(version) <==>
            exists a, b, c :: IsNumber(a) && IsNumber(b) && IsNumber(c) && version == Dotted(a, b, c)
  {
    if IsReleaseVersion(version) {
      VersionHasNumbers(version);
    }
    forall a, b, c | IsNumber(a) && IsNumber(b) && IsNumber(c)
      ensures IsReleaseVersion(Dotted(a, b, c))
    {
      NumbersAreVersion(a, b, c);
    }
  }

  function Dotted(a: string, b: string, c: string): string {
    a + "." + (b + "." + c)
  }

  lemma VersionHasNumbers(version: string)
    requires IsReleaseVersion(version)
    ensures exists a, b, c :: IsNumber(a) && IsNumber(b) && IsNumber(c) && version == Dotted(a, b, c)
  {
    var parts := Split(version, '.');
    SplitMeans(version, '.');
    assert JoinWith(parts[1..], '.') == parts[1] + "." + parts[2];
    assert IsNumber(parts[0]) && IsNumber(parts[1]) && IsNumber(parts[2]);
    assert version == Dotted(parts[0], parts[1], parts[2]);
  }

  lemma NumbersAreVersion(a: string, b: string, c: string)
    requires IsNumber(a) && IsNumber(b) && IsNumber(c)
    ensures IsReleaseVersion(Dotted(a, b, c))
  {
    NoDot(a);
    NoDot(b);
    NoDot(c);
    var bc := b + "." + c;
    SplitOff(c, "", '.');
    SplitOff(b, c, '.');
    SplitOff(a, bc, '.');
    assert Dotted(a, b, c) == a + ['.'] + bc && bc == b + ['.'] + c;
    var parts := Split(Dotted(a, b, c), '.');
    assert parts == [a] + ([b] + [c]);
    assert parts[0] == a && parts[1] == b && parts[2] == c;
  }

  lemma NoDot(s: string)
    requires IsNumber(s)
    ensures '.' !in s && forall i :: 0 <= i < |s| ==> '0' <= s[i] <= '9'
  {
  }

  lemma StableIsNoVersion()
    ensures !IsReleaseVersion("stable")
  {
    var s := "stable";
    assert Split(s[6..], '.') == [""];
    assert |Split(s[5..], '.')| == 1;
    assert |Split(s[4..], '.')| == 1;
    assert |Split(s[3..], '.')| == 1;
    assert |Split(s[2..], '.')| == 1;
    assert |Split(s[1..], '.')| == 1;
  }

  // Points the stable file back at metadata that is already there.
  method RollbackStable(server: Registry, version: string) returns (r: Result<Url, MirrorError>)
    modifies server
    ensures Through(old(server.trace), server.trace, SafeFrom(old(server.blobs))) && Safe(old(server.blobs), server.blobs)
    ensures var key := Key(version, METADATA_NAME);
            if key in old(server.blobs) then Either(old(server.blobs), STABLE_KEY, old(server.blobs)[key])(server.blobs)
            else server.blobs == old(server.blobs)
    ensures r.Ok? ==>
              && IsReleaseVersion(version) && Key(version, METADATA_NAME) in old(server.blobs)
              && var body := old(server.blobs)[Key(version, METADATA_NAME)];
                 && ValidMetadataBytes(body, version, r.value) && r.value.Package? && r.value.key.version == version && r.value.key in server.blobs
                 && (Stable(server.blobs) == Some(body) || Some(body) in old(server.older))
    // On a server that answers, it succeeds exactly for complete releases.
    ensures old(server.Honest()) ==> (r.Ok? <==> Rollbackable(old(server.blobs), version))
    // On one that serves reads, exactly when the stable file then is the release's metadata.
    ensures old(server.ReadsServed()) ==>
              (r.Ok? <==> Rollbackable(old(server.blobs), version)
                          && Stable(server.blobs) == Some(old(server.blobs)[Key(version, METADATA_NAME)]))
  {
    if !IsReleaseVersion(version) {
      return Err(Invalid);
    }
    StableIsNoVersion();
    var found := FindRelease(server, version);
    if found.Err? {
      return Err(found.error);
    }
    var body, url := found.value.0, found.value.1;
    var expected := Package(Key(version, LastSegment(url)));
    ghost var safe := SafeFrom(server.blobs);
    assert Safe(server.blobs, server.blobs[STABLE_KEY := body]);
    var stable := PromoteStable(server, body);
    ThroughChain(old(server.trace), old(server.trace), server.trace, safe, Either(old(server.blobs), STABLE_KEY, body), safe);
    if stable.Err? {
      return Err(stable.error);
    }
    if !ValidMetadataBytes(stable.value, version, expected) {
      return Err(Invalid);
    }
    r := Ok(url);
  }

  // The metadata of a release and the address of its installer, both there.
  method FindRelease(server: Registry, version: string) returns (r: Result<(Blob, Url), MirrorError>)
    requires IsReleaseVersion(version) && version != "stable"
    modifies server`clock
    ensures server.clock > old(server.clock)
    ensures r.Ok? ==>
              var key := Key(version, METADATA_NAME);
              && key in server.blobs && r.value.0 == server.blobs[key] && ValidMetadataBytes(r.value.0, version, r.value.1)
              && r.value.1.Package? && r.value.1.key.version == version && r.value.1.key in server.blobs
    ensures old(server.ReadsServed()) ==> (r.Ok? <==> Rollbackable(server.blobs, version))
  {
    var key := Key(version, METADATA_NAME);
    var downloaded := Download(server, key);
    if downloaded.Err? {
      return Err(downloaded.error);
    }
    if downloaded.value.None? {
      return Err(Missing);
    }
    var body := downloaded.value.value;
    if !body.Json? || body.meta.platform.None? || body.meta.platform.value.url.None? {
      return Err(Invalid);
    }
    var url := body.meta.platform.value.url.value;
    var expected := Package(Key(version, LastSegment(url)));
    if !ValidMetadata(body.meta, version, expected) {
      return Err(Invalid);
    }
    var there := Exists(server, url);
    if there != Ok(true) {
      return Err(if there.Err? then there.error else Missing);
    }
    return Ok((body, url));
  }

  // The release is complete in the registry.
  predicate Rollbackable(blobs: Blobs, version: string) {
    && IsReleaseVersion(version)
    && var key := Key(version, METADATA_NAME);
       && key in blobs && blobs[key].Json?
       && var platform := blobs[key].meta.platform;
       && platform.Some? && platform.value.url.Some?
       && var url := platform.value.url.value;
          url.Package? && url.key in blobs && ValidMetadata(blobs[key].meta, version, Package(Key(version, url.key.name)))
  }

  datatype Job =
    | Promotion(source: Metadata, name: string, installer: Blob, signature: string)
    | Rollback(version: string)

  // Whatever the server does, through any sequence of jobs and after every single write: versioned
  // files never change, and the stable file is the first one, or the metadata of a release whose
  // files are there.
  method RunJobs(server: Registry, jobs: seq<Job>)
    requires forall i :: 0 <= i < |jobs| && jobs[i].Promotion? ==> jobs[i].name != METADATA_NAME
    modifies server
    ensures Through(old(server.trace), server.trace, SafeFrom(old(server.blobs))) && Safe(old(server.blobs), server.blobs)
  {
    ghost var safe := SafeFrom(server.blobs);
    for i := 0 to |jobs|
      invariant Through(old(server.trace), server.trace, safe) && Safe(old(server.blobs), server.blobs)
    {
      ghost var trace, blobs := server.trace, server.blobs;
      match jobs[i] {
        case Promotion(source, name, installer, signature) =>
          var _ := PromoteRelease(server, source, name, installer, signature);
          PromotionIsSafe(trace, server.trace, blobs, server.blobs, Prepare(source, name, installer, signature));
        case Rollback(version) =>
          var _ := RollbackStable(server, version);
      }
      SafeRuns(old(server.trace), trace, server.trace, old(server.blobs), blobs, server.blobs);
    }
  }

  lemma PromotionIsSafe(t0: seq<Blobs>, t: seq<Blobs>, before: Blobs, now: Blobs, prepared: Result<Release, MirrorError>)
    requires prepared.Ok? ==> prepared.value.WellFormed()
    requires if prepared.Err? then now == before && t == t0
             else IsStage(before, prepared.value, now) && Through(t0, t, StageOf(before, prepared.value))
    ensures Through(t0, t, SafeFrom(before)) && Safe(before, now)
  {
    if prepared.Ok? {
      forall now | IsStage(before, prepared.value, now)
        ensures Safe(before, now)
      {
        StagesAreSafe(before, prepared.value, now);
      }
      ThroughWeaken(t0, t, StageOf(before, prepared.value), SafeFrom(before));
    }
  }

  lemma SafeRuns(t0: seq<Blobs>, t1: seq<Blobs>, t2: seq<Blobs>, first: Blobs, before: Blobs, now: Blobs)
    requires Through(t0, t1, SafeFrom(first)) && Safe(first, before)
    requires Through(t1, t2, SafeFrom(before)) && Safe(before, now)
    ensures Through(t0, t2, SafeFrom(first)) && Safe(first, now)
  {
    forall s | Safe(before, s)
      ensures Safe(first, s)
    {
      SafeChain(first, before, s);
    }
    ThroughChain(t0, t1, t2, SafeFrom(first), SafeFrom(before), SafeFrom(first));
  }

  // A promotion that stopped anywhere is finished by promoting again once the server answers.
  method Resume(server: Registry, ghost before: Blobs, rel: Release) returns (r: Result<Url, MirrorError>)
    requires rel.WellFormed() && Compatible(before, rel) && IsStage(before, rel, server.blobs) && server.Honest()
    modifies server
    ensures r.Ok? && server.blobs == Promoted(before, rel)
    ensures Through(old(server.trace), server.trace, StageOf(before, rel))
    ensures Consistent(server.blobs)
  {
    ghost var stopped := server.blobs;
    StagesConverge(before, rel, stopped);
    r := Promote(server, rel);
    ThroughWeaken(old(server.trace), server.trace, StageOf(stopped, rel), StageOf(before, rel));
    assert Stable(server.blobs) == Some(rel.meta);
  }
}
