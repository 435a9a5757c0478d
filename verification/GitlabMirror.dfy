/**
  Promotion of a release in the mirror, `scripts/gitlab_mirror.py`: installer, then versioned
  metadata, then the stable pointer, each checked back before the next.
 */
module GitlabMirror {
  import opened Common
  import opened Text
  import opened Traces
  import opened MirrorRegistry

  // --- what every state must satisfy ------------------------------------------------------------

  function Stable(blobs: Blobs): Option<Blob> { Lookup(blobs, STABLE_KEY) }

  // The stable file is the metadata under its own version key, and names a file that is there.
  ghost predicate Consistent(blobs: Blobs) {
    && STABLE_KEY in blobs && blobs[STABLE_KEY].Json?
    && var meta := blobs[STABLE_KEY].meta;
       && meta.version.Some? && meta.platform.Some? && meta.platform.value.url.Some?
       && Lookup(blobs, Key(meta.version.value, METADATA_NAME)) == Stable(blobs)
       && var url := meta.platform.value.url.value;
          url.Package? && url.key.version == meta.version.value && url.key in blobs
  }

  // Versioned files stay as they are once written.
  ghost predicate Grows(before: Blobs, now: Blobs) {
    forall key :: key in before && key != STABLE_KEY ==> key in now && now[key] == before[key]
  }

  ghost predicate Safe(before: Blobs, now: Blobs) {
    Grows(before, now) && (Stable(now) == Stable(before) || Consistent(now))
  }

  ghost function SafeFrom(before: Blobs): Blobs -> bool {
    now => Safe(before, now)
  }

  lemma SafeChain(a: Blobs, b: Blobs, c: Blobs)
    requires Safe(a, b) && Safe(b, c)
    ensures Safe(a, c)
    ensures Consistent(a) ==> Consistent(c)
  {
  }

  // --- metadata ---------------------------------------------------------------------------------

  // `str.strip` also takes the four separator controls for blanks.
  predicate IsBlank(c: char) { IsWhitespace(c) || 0x1C <= c as int <= 0x1F }

  // Python's blanks: Rust's and the four separators.
  lemma WhichAreBlankToo(c: char)
    ensures IsBlank(c) <==> c as int in BLANKS + {28, 29, 30, 31}
  {
    WhichAreBlank(c);
  }

  function Strip(s: string): (t: string)
    ensures t == "" <==> forall i :: 0 <= i < |s| ==> IsBlank(s[i])
    decreases |s|
  {
    if s == "" then ""
    else if IsBlank(s[0]) then Strip(s[1..])
    else if IsBlank(s[|s| - 1]) then Strip(s[..|s| - 1])
    else s
  }

  lemma {:induction false} StripMeans(s: string) returns (front: string, back: string)
    ensures Around(s, front, Strip(s), back)
    ensures Strip(s) != "" ==> !IsBlank(Strip(s)[0]) && !IsBlank(Strip(s)[|Strip(s)| - 1])
    decreases s
  {
    front, back := "", "";
    if s != "" {
      if IsBlank(s[0]) {
        var f, b := StripMeans(s[1..]);
        InFront(s, f, Strip(s[1..]), b);
        front, back := [s[0]] + f, b;
      } else if IsBlank(s[|s| - 1]) {
        var f, b := StripMeans(s[..|s| - 1]);
        Behind(s, f, Strip(s[..|s| - 1]), b);
        front, back := f, b + [s[|s| - 1]];
      }
    }
  }

  // Blanks around a text.
  ghost predicate Around(s: string, front: string, text: string, back: string) {
    && s == front + text + back
    && (forall i :: 0 <= i < |front| ==> IsBlank(front[i]))
    && (forall i :: 0 <= i < |back| ==> IsBlank(back[i]))
  }

  lemma InFront(s: string, front: string, text: string, back: string)
    requires s != "" && IsBlank(s[0]) && Around(s[1..], front, text, back)
    ensures Around(s, [s[0]] + front, text, back)
  {
    assert s == [s[0]] + s[1..];
  }

  lemma Behind(s: string, front: string, text: string, back: string)
    requires s != "" && IsBlank(s[|s| - 1]) && Around(s[..|s| - 1], front, text, back)
    ensures Around(s, front, text, back + [s[|s| - 1]])
  {
    assert s == s[..|s| - 1] + [s[|s| - 1]];
  }

  // The stable file of the registry.
  lemma WhereTheStableFileIs()
    ensures STABLE_KEY.version == "stable" && STABLE_KEY.name == METADATA_NAME == "latest.json"
  {
  }

  predicate ValidMetadata(meta: Metadata, version: string, url: Url) {
    && meta.version == Some(version) && meta.platform.Some?
    && var platform := meta.platform.value;
       platform.signature.Some? && Strip(platform.signature.value) != "" && platform.url == Some(url)
  }

  predicate ValidMetadataBytes(body: Blob, version: string, url: Url) {
    body.Json? && ValidMetadata(body.meta, version, url)
  }

  // The error of a request, not one of a check.
  predicate IsRequestError(error: MirrorError) { error.Http? || error.Network? }

  // --- client steps -----------------------------------------------------------------------------

  // Writes a file that must not change any more.
  method EnsureImmutable(server: Registry, key: Key, body: Blob) returns (r: Result<Blob, MirrorError>)
    modifies server
    ensures server.clock > old(server.clock)
    ensures Through(old(server.trace), server.trace, Either(old(server.blobs), key, body))
    ensures if server.trace == old(server.trace) then server.blobs == old(server.blobs) && server.older == old(server.older)
            else server.blobs == old(server.blobs)[key := body] && (key in old(server.blobs) ==> key == STABLE_KEY)
    ensures key != STABLE_KEY ==> server.older == old(server.older)
    ensures r.Ok? ==> r.value == body && (Lookup(server.blobs, key) == Some(body) || (key == STABLE_KEY && Some(body) in old(server.older)))
    // However the writes are treated and answered, as long as reads are served the answer is the
    // truth: another content is a conflict, and else Ok says exactly that the file is there, even
    // when no reply said so.
    ensures old(server.ReadsServed()) ==>
              match Lookup(old(server.blobs), key)
              case Some(other) => if other == body then r == Ok(body) else r == Err(Conflict)
              case None => if Lookup(server.blobs, key) == Some(body) then r == Ok(body) else r.Err? && IsRequestError(r.error)
    ensures old(server.ReadsServed()) && Lookup(old(server.blobs), key) == None ==>
              (Lookup(server.blobs, key) == Some(body) <==> server.trace != old(server.trace))
    ensures (old(server.Honest()) && Lookup(old(server.blobs), key) in {None, Some(body)}) ==>
              r.Ok? && server.blobs == old(server.blobs)[key := body]
  {
    var existing := Download(server, key);
    if existing.Err? {
      return Err(existing.error);
    }
    if existing.value.Some? {
      return if existing.value.value == body then Ok(body) else Err(Conflict);
    }
    var uploaded := Upload(server, key, body);
    if uploaded.Err? {
      // The write may have landed although its reply says nothing of it.
      existing := Download(server, key);
      if existing.Err? || existing.value.None? {
        return Err(uploaded.error);
      }
      return if existing.value.value == body then Ok(body) else Err(Conflict);
    }
    r := VerifyBlob(server, key, body);
  }

  // Ok means that the stable file is `body`, unless `body` was an older copy of it to begin with.
  method PromoteStable(server: Registry, body: Blob) returns (r: Result<Blob, MirrorError>)
    modifies server
    ensures server.clock > old(server.clock)
    ensures Through(old(server.trace), server.trace, Either(old(server.blobs), STABLE_KEY, body))
    ensures Either(old(server.blobs), STABLE_KEY, body)(server.blobs)
    ensures r.Ok? ==> r.value == body && (server.blobs == old(server.blobs)[STABLE_KEY := body] || Some(body) in old(server.older))
    ensures old(server.Honest()) ==> r.Ok? && server.blobs == old(server.blobs)[STABLE_KEY := body]
    // However the writes are treated, as long as reads are served the answer is the truth.
    ensures old(server.ReadsServed()) ==>
              if Stable(server.blobs) == Some(body) then r == Ok(body) else r.Err? && IsRequestError(r.error)
    // A read of that copy is taken for the answer, and nothing is written.
    ensures (server.onRead(old(server.clock)) == ServeOlder(Some(body)) && Some(body) in old(server.older)) ==>
              r.Ok? && server.blobs == old(server.blobs)
  {
    var current := Download(server, STABLE_KEY);
    if current.Err? {
      return Err(current.error);
    }
    if current.value == Some(body) {
      return Ok(body);
    }
    var uploaded := Upload(server, STABLE_KEY, body);
    if uploaded.Err? {
      current := Download(server, STABLE_KEY);
      return if current == Ok(Some(body)) then Ok(body) else Err(uploaded.error);
    }
    r := VerifyBlob(server, STABLE_KEY, body);
  }

  // The other half: whenever `body` is an older copy that a read may still be given, and not the
  // stable file itself, some server lets the promotion succeed without writing anything.
  method StaleCopyIsTakenForSuccess(blobs: Blobs, older: set<Option<Blob>>, body: Blob) returns (server: Registry, r: Result<Blob, MirrorError>)
    requires Some(body) in older && Stable(blobs) != Some(body)
    ensures fresh(server) && r == Ok(body) && server.blobs == blobs && Stable(server.blobs) != Some(body)
  {
    server := new Registry(blobs, older, n => ServeOlder(Some(body)), n => Serve);
    r := PromoteStable(server, body);
  }

  // --- promotion of a release -------------------------------------------------------------------

  datatype Release = Release(version: string, name: string, installer: Blob, meta: Blob) {
    function InstallerKey(): Key { Key(version, name) }
    function MetadataKey(): Key { Key(version, METADATA_NAME) }

    ghost predicate WellFormed() {
      name != METADATA_NAME && ValidMetadataBytes(meta, version, Package(InstallerKey()))
    }
  }

  function Installed(blobs: Blobs, rel: Release): Blobs { blobs[rel.InstallerKey() := rel.installer] }
  function Published(blobs: Blobs, rel: Release): Blobs { Installed(blobs, rel)[rel.MetadataKey() := rel.meta] }
  function Promoted(blobs: Blobs, rel: Release): Blobs { Published(blobs, rel)[STABLE_KEY := rel.meta] }

  predicate Fits(blobs: Blobs, key: Key, body: Blob) {
    Lookup(blobs, key) in {None, Some(body)}
  }

  // Neither file of the release exists with another content.
  predicate Compatible(blobs: Blobs, rel: Release) {
    Fits(blobs, rel.InstallerKey(), rel.installer) && Fits(blobs, rel.MetadataKey(), rel.meta)
  }

  ghost predicate Conflicts(blobs: Blobs, rel: Release) {
    !Fits(blobs, rel.InstallerKey(), rel.installer)
  }

  // The states a promotion passes through.
  ghost predicate IsStage(before: Blobs, rel: Release, now: Blobs) {
    || now == before
    || (Fits(before, rel.InstallerKey(), rel.installer)
        && (now == Installed(before, rel)
            || ((Fits(before, rel.MetadataKey(), rel.meta) || rel.MetadataKey() == STABLE_KEY)
                && (now == Published(before, rel) || now == Promoted(before, rel)))))
  }

  ghost function StageOf(before: Blobs, rel: Release): Blobs -> bool {
    now => IsStage(before, rel, now)
  }

  // What `promote_release` checks before it sends anything.
  function Prepare(source: Metadata, name: string, installer: Blob, signature: string): (r: Result<Release, MirrorError>)
    ensures r.Ok? <==>
              && installer != Bytes([]) && source.version.Some? && source.version.value != "" && source.platform.Some?
              && Strip(signature) != "" && source.platform.value.signature == Some(Strip(signature))
    ensures (r.Ok? && name != METADATA_NAME) ==> r.value.WellFormed()
    ensures r.Err? ==> r.error == Invalid
    // The release is the source's own, but for the address.
    ensures r.Ok? ==>
              && r.value.name == name && r.value.installer == installer && Some(r.value.version) == source.version
              && r.value.meta.Json? && r.value.meta.meta.(platform := source.platform) == source
  {
    if installer == Bytes([]) || source.version in {None, Some("")} then Err(Invalid)
    else if source.platform.None? || source.platform.value.signature != Some(Strip(signature)) || Strip(signature) == "" then Err(Invalid)
    else
      var version := source.version.value;
      var platform := source.platform.value.(url := Some(Package(Key(version, name))));
      StripTwice(signature);
      Ok(Release(version, name, installer, Json(source.(platform := Some(platform)), 0)))
  }

  lemma {:induction false} StripTwice(s: string)
    ensures Strip(Strip(s)) == Strip(s)
    decreases |s|
  {
    if s == "" {
    } else if IsBlank(s[0]) {
      StripTwice(s[1..]);
    } else if IsBlank(s[|s| - 1]) {
      StripTwice(s[..|s| - 1]);
    }
  }

  lemma StagesAreSafe(before: Blobs, rel: Release, now: Blobs)
    requires rel.WellFormed() && IsStage(before, rel, now)
    ensures Safe(before, now)
  {
  }

  // Wherever a promotion stopped, promoting again from there goes through stages of the first
  // and ends in the same registry.
  lemma StagesConverge(before: Blobs, rel: Release, stopped: Blobs)
    requires rel.WellFormed() && IsStage(before, rel, stopped)
    ensures Promoted(stopped, rel) == Promoted(before, rel)
    ensures Compatible(before, rel) ==> Compatible(stopped, rel)
    ensures forall now :: IsStage(stopped, rel, now) ==> IsStage(before, rel, now)
  {
    SameGoal(before, rel, stopped);
    forall now | IsStage(stopped, rel, now)
      ensures IsStage(before, rel, now)
    {
      StagesOfStages(before, rel, stopped, now);
    }
  }

  lemma SameGoal(before: Blobs, rel: Release, stopped: Blobs)
    requires rel.WellFormed() && IsStage(before, rel, stopped)
    ensures Promoted(stopped, rel) == Promoted(before, rel)
  {
  }

  lemma StagesOfStages(before: Blobs, rel: Release, stopped: Blobs, now: Blobs)
    requires rel.WellFormed() && IsStage(before, rel, stopped) && IsStage(stopped, rel, now)
    ensures IsStage(before, rel, now)
  {
    SameGoal(before, rel, stopped);
    if stopped != before {
      if stopped == Installed(before, rel) {
        FromInstalled(before, rel, now);
      } else if stopped == Published(before, rel) {
        FromPublished(before, rel, now);
      } else {
        FromPromoted(before, rel, now);
      }
    }
  }

  lemma FromInstalled(before: Blobs, rel: Release, now: Blobs)
    requires rel.WellFormed() && Fits(before, rel.InstallerKey(), rel.installer) && IsStage(Installed(before, rel), rel, now)
    ensures IsStage(before, rel, now)
  {
    assert Installed(Installed(before, rel), rel) == Installed(before, rel);
  }

  lemma FromPublished(before: Blobs, rel: Release, now: Blobs)
    requires rel.WellFormed() && IsStage(before, rel, Published(before, rel)) && IsStage(Published(before, rel), rel, now)
    ensures IsStage(before, rel, now)
  {
    var stopped := Published(before, rel);
    assert Installed(stopped, rel) == stopped && Published(stopped, rel) == stopped;
  }

  lemma FromPromoted(before: Blobs, rel: Release, now: Blobs)
    requires rel.WellFormed() && IsStage(before, rel, Promoted(before, rel)) && IsStage(Promoted(before, rel), rel, now)
    ensures IsStage(before, rel, now)
  {
    var stopped := Promoted(before, rel);
    assert Installed(stopped, rel) == stopped && Published(stopped, rel) == stopped;
  }

  // The installer's name comes from a search for `*-setup.exe`.
  method PromoteRelease(server: Registry, source: Metadata, name: string, installer: Blob, signature: string)
      returns (r: Result<Url, MirrorError>)
    requires name != METADATA_NAME
    modifies server
    ensures var prepared := Prepare(source, name, installer, signature);
            if prepared.Err? then r == Err(prepared.error) && server.blobs == old(server.blobs) && server.trace == old(server.trace)
            else
              var rel := prepared.value;
              && IsStage(old(server.blobs), rel, server.blobs)
              && Through(old(server.trace), server.trace, StageOf(old(server.blobs), rel))
              && (r.Ok? ==>
                    && r.value == Package(rel.InstallerKey())
                    && (server.blobs == Promoted(old(server.blobs), rel) || Some(rel.meta) in old(server.older)))
              && ((old(server.Honest()) && Compatible(old(server.blobs), rel)) ==>
                    r.Ok? && server.blobs == Promoted(old(server.blobs), rel))
              && ((old(server.ReadsServed()) && Compatible(old(server.blobs), rel)) ==>
                    (r.Ok? <==> server.blobs == Promoted(old(server.blobs), rel)))
              && ((old(server.ReadsServed()) && Conflicts(old(server.blobs), rel)) ==>
                    r == Err(Conflict) && server.blobs == old(server.blobs))
  {
    var prepared := Prepare(source, name, installer, signature);
    if prepared.Err? {
      return Err(prepared.error);
    }
    r := Promote(server, prepared.value);
  }

  method Promote(server: Registry, rel: Release) returns (r: Result<Url, MirrorError>)
    requires rel.WellFormed()
    modifies server
    ensures IsStage(old(server.blobs), rel, server.blobs)
    ensures Through(old(server.trace), server.trace, StageOf(old(server.blobs), rel))
    ensures r.Ok? ==>
              && r.value == Package(rel.InstallerKey())
              && (server.blobs == Promoted(old(server.blobs), rel) || Some(rel.meta) in old(server.older))
    ensures (old(server.Honest()) && Compatible(old(server.blobs), rel)) ==>
              r.Ok? && server.blobs == Promoted(old(server.blobs), rel)
    ensures (old(server.ReadsServed()) && Compatible(old(server.blobs), rel)) ==>
              (r.Ok? <==> server.blobs == Promoted(old(server.blobs), rel))
    ensures (old(server.ReadsServed()) && Conflicts(old(server.blobs), rel)) ==>
              r == Err(Conflict) && server.blobs == old(server.blobs)
  {
    ghost var first := server.blobs;
    var published := Publish(server, rel);
    if published.Err? {
      return Err(published.error);
    }
    ghost var t2, b2 := server.trace, server.blobs;
    var stable := PromoteStable(server, rel.meta);
    WrittenStage(old(server.trace), t2, server.trace, first, b2, server.blobs, rel, STABLE_KEY, rel.meta);
    if stable.Err? {
      return Err(stable.error);
    }
    if !ValidMetadataBytes(stable.value, rel.version, Package(rel.InstallerKey())) {
      return Err(Invalid);
    }
    r := Ok(Package(rel.InstallerKey()));
  }

  // The installer, checked back, and then the metadata under its version.
  method Publish(server: Registry, rel: Release) returns (r: Result<(), MirrorError>)
    requires rel.WellFormed()
    modifies server
    ensures server.clock > old(server.clock) && IsStage(old(server.blobs), rel, server.blobs)
    ensures Through(old(server.trace), server.trace, StageOf(old(server.blobs), rel))
    ensures r.Ok? ==>
              && IsStage(old(server.blobs), rel, Promoted(old(server.blobs), rel))
              && server.blobs[STABLE_KEY := rel.meta] == Promoted(old(server.blobs), rel)
              && (server.older == old(server.older) || server.blobs == Promoted(old(server.blobs), rel))
    ensures (old(server.Honest()) && Compatible(old(server.blobs), rel)) ==> r.Ok?
    // The installer has been read back, after the first look whether it is there.
    ensures r.Ok? ==> Shows(server.Seen(rel.InstallerKey()), rel.installer, old(server.clock) + 1, server.clock)
    ensures (old(server.ReadsServed()) && Compatible(old(server.blobs), rel) && r.Err?) ==>
              server.blobs != Promoted(old(server.blobs), rel)
    ensures (old(server.ReadsServed()) && Conflicts(old(server.blobs), rel)) ==>
              r == Err(Conflict) && server.blobs == old(server.blobs)
  {
    ghost var first := server.blobs;
    var installed := Install(server, rel);
    if installed.Err? {
      return Err(installed.error);
    }
    ghost var t1, b1, sight := server.trace, server.blobs, server.Seen(rel.InstallerKey());
    var published := EnsureImmutable(server, rel.MetadataKey(), rel.meta);
    WrittenStage(old(server.trace), t1, server.trace, first, b1, server.blobs, rel, rel.MetadataKey(), rel.meta);
    if published.Err? {
      return Err(published.error);
    }
    if !ValidMetadataBytes(published.value, rel.version, Package(rel.InstallerKey())) {
      return Err(Invalid);
    }
    assert server.Seen(rel.InstallerKey()) == sight;
    r := Ok(());
  }

  // The installer, and once more to check it.
  method Install(server: Registry, rel: Release) returns (r: Result<(), MirrorError>)
    requires rel.WellFormed()
    modifies server
    ensures server.clock > old(server.clock) && IsStage(old(server.blobs), rel, server.blobs) && server.older == old(server.older)
    ensures Through(old(server.trace), server.trace, StageOf(old(server.blobs), rel))
    ensures server.blobs == old(server.blobs) || server.blobs == Installed(old(server.blobs), rel)
    ensures r.Ok? ==>
              && server.blobs == Installed(old(server.blobs), rel) && Fits(old(server.blobs), rel.InstallerKey(), rel.installer)
              && Shows(server.Seen(rel.InstallerKey()), rel.installer, old(server.clock) + 1, server.clock)
    ensures (old(server.Honest()) && Compatible(old(server.blobs), rel)) ==> r.Ok?
    ensures (old(server.ReadsServed()) && Compatible(old(server.blobs), rel) && r.Err?) ==>
              Lookup(server.blobs, rel.InstallerKey()) == None
    ensures (old(server.ReadsServed()) && Conflicts(old(server.blobs), rel)) ==>
              r == Err(Conflict) && server.blobs == old(server.blobs)
  {
    ghost var first := server.blobs;
    var installed := EnsureImmutable(server, rel.InstallerKey(), rel.installer);
    WrittenStage(old(server.trace), old(server.trace), server.trace, first, first, server.blobs, rel, rel.InstallerKey(), rel.installer);
    if installed.Err? {
      return Err(installed.error);
    }
    var verified := VerifyBlob(server, rel.InstallerKey(), rel.installer);
    if verified.Err? {
      return Err(verified.error);
    }
    r := Ok(());
  }

  // One more write of a promotion.
  lemma WrittenStage(t0: seq<Blobs>, t1: seq<Blobs>, t2: seq<Blobs>, first: Blobs, before: Blobs, now: Blobs, rel: Release, key: Key, body: Blob)
    requires Through(t0, t1, StageOf(first, rel)) && Through(t1, t2, Either(before, key, body))
    requires IsStage(first, rel, before)
    requires t2 != t1 ==> IsStage(first, rel, before[key := body])
    ensures Through(t0, t2, StageOf(first, rel))
  {
    if t2 != t1 {
      ThroughChain(t0, t1, t2, StageOf(first, rel), Either(before, key, body), StageOf(first, rel));
    }
  }
}
