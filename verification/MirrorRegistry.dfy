/**
  The package registry that `scripts/gitlab_mirror.py` talks to, and the client's requests: bounded
  retries over replies that may fail, get lost after the write landed, or serve an older copy of
  the stable key.
 */
module MirrorRegistry {
  import opened Common
  import opened Traces

  datatype Key = Key(version: string, name: string)

  const METADATA_NAME := "latest.json"
  const STABLE_KEY := Key("stable", METADATA_NAME)

  // Package addresses are one to one with keys; the last path segment of one is its file name.
  datatype Url = Package(key: Key) | Foreign(lastSegment: string)

  datatype Platform = Platform(url: Option<Url>, signature: Option<string>)
  datatype Metadata = Metadata(version: Option<string>, platform: Option<Platform>, rest: nat)

  // A file is a JSON object in one of its layouts, or something else.
  datatype Blob = Json(meta: Metadata, layout: nat) | Bytes(data: seq<nat>)

  type Blobs = map<Key, Blob>

  function Lookup(blobs: Blobs, key: Key): Option<Blob> {
    if key in blobs then Some(blobs[key]) else None
  }

  function LastSegment(url: Url): string {
    if url.Package? then url.key.name else url.lastSegment
  }

  datatype MirrorError = Http(code: nat) | Network | Mismatch | Conflict | Missing | Invalid

  predicate IsRetryable(code: nat) { code in {408, 425, 429} || 500 <= code < 600 }

  // How the server treats one request.
  datatype Behaviour =
    | Serve
    | ServeOlder(copy: Option<Blob>)           // a read of the stable key may see an older copy
    | Answer(code: nat, landed: bool)          // another status; a write may have landed all the same
    | Lose(landed: bool)                       // no reply at all

  datatype Reply = Reply(code: nat, body: Option<Blob>) | NoReply

  function Found(file: Option<Blob>): Reply {
    if file.Some? then Reply(200, file) else Reply(404, None)
  }

  // Only the stable key can lag behind.
  function GetReply(behaviour: Behaviour, file: Option<Blob>, older: set<Option<Blob>>): Reply {
    match behaviour
    case Serve => Found(file)
    case ServeOlder(copy) => Found(if copy in older then copy else file)
    case Answer(code, _) => if code == 200 || code == 404 then Found(file) else Reply(code, None)
    case Lose(_) => NoReply
  }

  // A write lands, or not; the reply says so only when it is 200 or 201.
  predicate Lands(behaviour: Behaviour) {
    match behaviour
    case Answer(code, landed) => landed || code in {200, 201}
    case Lose(landed) => landed
    case _ => true
  }

  function PutReply(behaviour: Behaviour): Reply {
    match behaviour
    case Answer(code, _) => Reply(code, None)
    case Lose(_) => NoReply
    case _ => Reply(201, None)
  }

  function HeadReply(behaviour: Behaviour, there: bool, package: bool): Reply {
    match behaviour
    case Answer(code, _) => Reply(if code == 200 && package then if there then 200 else 404 else code, None)
    case Lose(_) => NoReply
    case _ => Reply(if there then 200 else 404, None)
  }

  // How reads of a file are treated, the file, and the older copies they may show.
  datatype Sight = Sight(onRead: nat -> Behaviour, file: Option<Blob>, older: set<Option<Blob>>)

  // What a read at time `n` is answered.
  function ReadAt(sight: Sight, n: nat): Reply {
    GetReply(sight.onRead(n), sight.file, sight.older)
  }

  class Registry {
    var blobs: Blobs
    var older: set<Option<Blob>>               // what reads of the stable key may still be given
    var clock: nat                             // requests so far
    const onRead: nat -> Behaviour              // how the request at some time is treated, if it reads
    const onWrite: nat -> Behaviour             // and if it writes
    ghost var trace: seq<Blobs>                // `blobs` after every write that landed

    constructor (blobs: Blobs, older: set<Option<Blob>>, onRead: nat -> Behaviour, onWrite: nat -> Behaviour)
      ensures this.blobs == blobs && this.older == older && this.onRead == onRead && this.onWrite == onWrite && clock == 0 && trace == []
    {
      this.blobs, this.older, this.onRead, this.onWrite, clock, trace := blobs, older, onRead, onWrite, 0, [];
    }

    // From here on every read is served.
    ghost predicate ReadsServed()
      reads this
    {
      forall n: nat :: n >= clock ==> onRead(n) == Serve
    }

    // From here on every request is served.
    ghost predicate Honest()
      reads this
    {
      ReadsServed() && forall n: nat :: n >= clock ==> onWrite(n) == Serve
    }

    // What reads of a file are answered, as long as nothing is written.
    ghost function Seen(key: Key): Sight
      reads this
    {
      Sight(onRead, Lookup(blobs, key), if key == STABLE_KEY then older else {})
    }

    // What a read may find.
    ghost predicate Readable(key: Key, answer: Option<Blob>)
      reads this`blobs, this`older
    {
      answer == Lookup(blobs, key) || (key == STABLE_KEY && answer in older)
    }

    method Get(key: Key) returns (reply: Reply)
      modifies this`clock
      ensures clock == old(clock) + 1 && reply == ReadAt(Seen(key), old(clock))
    {
      reply := GetReply(onRead(clock), Lookup(blobs, key), if key == STABLE_KEY then older else {});
      clock := clock + 1;
    }

    method Put(key: Key, body: Blob) returns (reply: Reply)
      modifies this
      ensures clock == old(clock) + 1 && reply == PutReply(onWrite(old(clock)))
      ensures if Lands(onWrite(old(clock))) then
                && blobs == old(blobs)[key := body] && trace == old(trace) + [blobs]
                && older == if key == STABLE_KEY then old(older) + {Lookup(old(blobs), key)} else old(older)
              else blobs == old(blobs) && trace == old(trace) && older == old(older)
    {
      var behaviour := onWrite(clock);
      clock := clock + 1;
      if Lands(behaviour) {
        older := if key == STABLE_KEY then older + {Lookup(blobs, key)} else older;
        blobs := blobs[key := body];
        trace := trace + [blobs];
      }
      reply := PutReply(behaviour);
    }

    method Head(url: Url) returns (reply: Reply)
      modifies this`clock
      ensures clock == old(clock) + 1
      ensures reply == HeadReply(onRead(old(clock)), url.Package? && url.key in blobs, url.Package?)
    {
      reply := HeadReply(onRead(clock), url.Package? && url.key in blobs, url.Package?);
      clock := clock + 1;
    }
  }

  // --- states a single write can leave behind ---------------------------------------------------

  function Either(before: Blobs, key: Key, body: Blob): Blobs -> bool {
    now => now == before || now == before[key := body]
  }

  const REQUEST_ATTEMPTS := 3

  // --- requests ---------------------------------------------------------------------------------

  // Answers after which a request is sent again: none at all, a server error, or one of the three
  // codes that ask to come back.
  predicate Transient(reply: Reply) {
    reply.NoReply? || reply.code / 100 == 5 || reply.code == 408 || reply.code == 425 || reply.code == 429
  }

  // What a request comes to whose last answer is `reply`.
  function Failure(reply: Reply): MirrorError {
    if reply.NoReply? then Network else Http(reply.code)
  }

  // At most three requests, each but the last answered by a transient failure; the last answer
  // decides.
  method Download(server: Registry, key: Key) returns (r: Result<Option<Blob>, MirrorError>)
    modifies server`clock
    ensures old(server.clock) < server.clock <= old(server.clock) + 3
    ensures forall n :: old(server.clock) <= n < server.clock - 1 ==> Transient(ReadAt(server.Seen(key), n))
    ensures server.clock < old(server.clock) + 3 ==> !Transient(ReadAt(server.Seen(key), server.clock - 1))
    ensures !Transient(ReadAt(server.Seen(key), old(server.clock))) ==> server.clock == old(server.clock) + 1
    ensures var last := ReadAt(server.Seen(key), server.clock - 1);
            r == if last.Reply? && last.code == 200 then Ok(last.body)
                 else if last.Reply? && last.code == 404 then Ok(None)
                 else Err(Failure(last))
    ensures r.Ok? ==> server.Readable(key, r.value)
  {
    ghost var sight := server.Seen(key);
    for attempt := 0 to REQUEST_ATTEMPTS
      invariant attempt < REQUEST_ATTEMPTS && server.clock == old(server.clock) + attempt
      invariant server.Seen(key) == sight
      invariant forall n :: old(server.clock) <= n < server.clock ==> Transient(ReadAt(sight, n))
    {
      var reply := server.Get(key);
      match reply
      case Reply(code, body) =>
        if 200 <= code < 300 {
          return if code == 200 then Ok(body) else Err(Http(code));
        } else if code == 404 {
          return Ok(None);
        } else if !IsRetryable(code) || attempt == REQUEST_ATTEMPTS - 1 {
          return Err(Http(code));
        }
      case NoReply =>
        if attempt == REQUEST_ATTEMPTS - 1 {
          return Err(Network);
        }
    }
    assert false;
  }

  // The same for writes; the file is there exactly if one of them landed, whatever the answers
  // say.
  method Upload(server: Registry, key: Key, body: Blob) returns (r: Result<(), MirrorError>)
    modifies server
    ensures old(server.clock) < server.clock <= old(server.clock) + 3
    ensures forall n :: old(server.clock) <= n < server.clock - 1 ==> Transient(PutReply(server.onWrite(n)))
    ensures server.clock < old(server.clock) + 3 ==> !Transient(PutReply(server.onWrite(server.clock - 1)))
    ensures var last := PutReply(server.onWrite(server.clock - 1));
            r == if last.Reply? && last.code in {200, 201} then Ok(()) else Err(Failure(last))
    ensures Landed(server, old(server.clock), server.clock) <==> server.trace != old(server.trace)
    ensures if server.trace == old(server.trace) then server.blobs == old(server.blobs) && server.older == old(server.older)
            else server.blobs == old(server.blobs)[key := body]
    ensures r.Ok? ==> server.trace != old(server.trace)
    ensures Through(old(server.trace), server.trace, Either(old(server.blobs), key, body))
    ensures key != STABLE_KEY ==> server.older == old(server.older)
  {
    ghost var either := Either(server.blobs, key, body);
    for attempt := 0 to REQUEST_ATTEMPTS
      invariant attempt < REQUEST_ATTEMPTS && server.clock == old(server.clock) + attempt
      invariant forall n :: old(server.clock) <= n < server.clock ==> Transient(PutReply(server.onWrite(n)))
      invariant Through(old(server.trace), server.trace, either)
      invariant Landed(server, old(server.clock), server.clock) <==> server.trace != old(server.trace)
      invariant if server.trace == old(server.trace) then server.blobs == old(server.blobs) && server.older == old(server.older)
                else server.blobs == old(server.blobs)[key := body]
      invariant key != STABLE_KEY ==> server.older == old(server.older)
    {
      ghost var before := server.trace;
      var reply := server.Put(key, body);
      LandedOneMore(server, old(server.clock), server.clock - 1);
      if server.trace != before {
        ThroughGrows(old(server.trace), before, either);
        ThroughStep(old(server.trace), before, server.blobs, either);
      }
      match reply
      case Reply(code, _) =>
        if 200 <= code < 300 {
          return if code == 200 || code == 201 then Ok(()) else Err(Http(code));
        } else if !IsRetryable(code) || attempt == REQUEST_ATTEMPTS - 1 {
          return Err(Http(code));
        }
      case NoReply =>
        if attempt == REQUEST_ATTEMPTS - 1 {
          return Err(Network);
        }
    }
    assert false;
  }

  // Some write from then until now has landed.
  ghost predicate Landed(server: Registry, from: nat, until: nat) {
    exists n :: from <= n < until && Lands(server.onWrite(n))
  }

  lemma LandedOneMore(server: Registry, from: nat, n: nat)
    requires from <= n
    ensures Landed(server, from, n + 1) <==> Landed(server, from, n) || Lands(server.onWrite(n))
  {
  }

  method Exists(server: Registry, url: Url) returns (r: Result<bool, MirrorError>)
    modifies server`clock
    ensures server.clock == old(server.clock) + 1
    ensures var reply := HeadReply(server.onRead(old(server.clock)), url.Package? && url.key in server.blobs, url.Package?);
            r == if reply.NoReply? then Err(Network)
                 else if reply.code == 200 then Ok(true)
                 else if reply.code == 404 || reply.code / 100 == 2 then Ok(false)
                 else Err(Http(reply.code))
    ensures (r == Ok(true) && url.Package?) ==> url.key in server.blobs
    ensures server.onRead(old(server.clock)) == Serve ==> r == Ok(url.Package? && url.key in server.blobs)
  {
    var reply := server.Head(url);
    match reply
    case Reply(code, _) =>
      r := if 200 <= code < 300 then Ok(code == 200) else if code == 404 then Ok(false) else Err(Http(code));
    case NoReply => r := Err(Network);
  }

  // A read that shows the file as it is, or that there is none, without failing.
  predicate Prompt(reply: Reply) { reply.Reply? && reply.code in {200, 404} }

  // Size and digest agree only on the same content.  An older copy is no reason to give up: while
  // the reads do not fail, six of them are tried for the expected content.
  method VerifyBlob(server: Registry, key: Key, expected: Blob) returns (r: Result<Blob, MirrorError>)
    modifies server`clock
    ensures server.clock > old(server.clock)
    ensures r.Ok? ==> r.value == expected && server.Readable(key, Some(expected))
    ensures r.Ok? ==> Shows(server.Seen(key), expected, old(server.clock), server.clock)
    ensures (forall n :: old(server.clock) <= n < old(server.clock) + 6 ==> Prompt(ReadAt(server.Seen(key), n))) ==>
              && (r.Ok? <==> Shows(server.Seen(key), expected, old(server.clock), old(server.clock) + 6))
              && (r.Err? ==> r == Err(if ShowsAny(server.Seen(key), old(server.clock), old(server.clock) + 6) then Mismatch else Missing))
    ensures ReadAt(server.Seen(key), old(server.clock)) == Reply(200, Some(expected)) ==> r.Ok?
  {
    var mismatch := false;
    ghost var sight := server.Seen(key);
    ghost var prompt := forall n :: old(server.clock) <= n < old(server.clock) + 6 ==> Prompt(ReadAt(sight, n));
    for attempt := 0 to 6
      invariant server.clock >= old(server.clock) + attempt && server.Seen(key) == sight
      invariant attempt == 0 ==> server.clock == old(server.clock)
      invariant prompt ==> server.clock == old(server.clock) + attempt && !Shows(sight, expected, old(server.clock), server.clock)
      invariant prompt ==> (mismatch <==> ShowsAny(sight, old(server.clock), server.clock))
      invariant attempt > 0 ==> ReadAt(sight, old(server.clock)) != Reply(200, Some(expected))
    {
      ghost var before := server.clock;
      var downloaded := Download(server, key);
      assert prompt ==> Prompt(ReadAt(sight, before)) && server.clock == before + 1;
      if downloaded.Err? {
        return Err(downloaded.error);
      }
      if downloaded.value.Some? {
        if downloaded.value.value == expected {
          assert ReadAt(sight, server.clock - 1) == Reply(200, Some(expected));
          return Ok(expected);
        }
        mismatch := true;
      }
    }
    r := Err(if mismatch then Mismatch else Missing);
  }

  // One of the reads from then until now shows the file, whatever is in it.
  ghost predicate ShowsAny(sight: Sight, from: nat, until: nat) {
    exists n :: from <= n < until && ReadAt(sight, n).Reply? && ReadAt(sight, n).code == 200
  }

  // One of the reads from then until now shows that content.
  ghost predicate Shows(sight: Sight, expected: Blob, from: nat, until: nat) {
    exists n :: from <= n < until && ReadAt(sight, n) == Reply(200, Some(expected))
  }
}
