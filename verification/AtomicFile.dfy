/**
  Replacing file contents, `src-tauri/src/atomic_file.rs`: the in-place rewrite with rollback
  and the temp-and-rename replacement, under arbitrary partial writes, faults and crashes.
 */
module AtomicFile {
  import opened Common

  type Bytes = seq<int>

  // How the system answers one call to `write`.
  datatype WriteReply = Wrote(n: nat) | Interrupted | Failed

  // An answer on which `write_all` gives up.
  predicate IsTrouble(reply: WriteReply) { reply.Failed? || reply == Wrote(0) }

  // How many of the answers to come are failures.
  ghost function Troubles(replies: seq<WriteReply>): nat {
    if replies == [] then 0 else Troubles(replies[1..]) + if IsTrouble(replies[0]) then 1 else 0
  }

  // An open file handle: contents, cursor, and whatever the system is going to answer.
  class Target {
    var content: Bytes
    var cursor: nat
    var replies: seq<WriteReply>   // answers to coming writes; none left means healthy
    var answers: seq<bool>         // the same for the other calls

    constructor (content: Bytes, replies: seq<WriteReply>, answers: seq<bool>)
      ensures this.content == content && this.replies == replies && this.answers == answers
    {
      this.content, this.replies, this.answers, cursor := content, replies, answers, 0;
    }

    // The failures to come.
    ghost function Ahead(): nat
      reads this
    {
      Troubles(replies) + Failures(answers)
    }

    // Does the next of the other calls work?
    method Works() returns (ok: bool)
      modifies this`answers
      ensures answers == Drop(old(answers), 1) && (ok <==> old(answers) == [] || old(answers)[0])
      ensures Failures(answers) == Failures(old(answers)) - if ok then 0 else 1
    {
      ok := true;
      if answers != [] {
        ok, answers := answers[0], answers[1..];
      }
    }

    // Each of the calls may fail, in which case it has no effect.
    method SeekToStart() returns (ok: bool)
      modifies this`cursor, this`answers
      ensures cursor == (if ok then 0 else old(cursor)) && Ahead() == old(Ahead()) - if ok then 0 else 1
      ensures answers == Drop(old(answers), 1)
    {
      ok := Works();
      if ok { cursor := 0; }
    }

    method TruncateAll() returns (ok: bool)
      modifies this`content, this`answers
      ensures content == (if ok then [] else old(content)) && Ahead() == old(Ahead()) - if ok then 0 else 1
      ensures answers == Drop(old(answers), 1)
    {
      ok := Works();
      if ok { content := []; }
    }

    method Sync() returns (ok: bool)
      modifies this`answers
      ensures Ahead() == old(Ahead()) - (if ok then 0 else 1) && answers == Drop(old(answers), 1)
    {
      ok := Works();
    }

    // One `write`: some prefix of the buffer, possibly empty, or an error.
    method Write(buf: Bytes) returns (reply: WriteReply)
      requires cursor == |content| && buf != []
      modifies this`content, this`cursor, this`replies
      ensures cursor == |content|
      ensures reply.Wrote? ==> reply.n <= |buf| && content == old(content) + buf[..reply.n]
      ensures !reply.Wrote? ==> content == old(content)
      ensures |replies| < |old(replies)| || (replies == old(replies) == [] && reply == Wrote(|buf|))
      ensures Troubles(replies) == Troubles(old(replies)) - if IsTrouble(reply) then 1 else 0
    {
      if replies == [] {
        reply := Wrote(|buf|);
      } else {
        reply := replies[0];
        replies := replies[1..];
        if reply.Wrote? && reply.n > |buf| {
          reply := Wrote(|buf|);
        }
      }
      if reply.Wrote? {
        content := content + buf[..reply.n];
        cursor := |content|;
      }
    }

    // `write_all`: repeats short writes and interruptions, gives up on an error or on a write
    // of nothing.
    method WriteAll(buf: Bytes) returns (ok: bool)
      requires cursor == |content|
      modifies this`content, this`cursor, this`replies
      ensures cursor == |content|
      ensures ok ==> content == old(content) + buf
      ensures !ok ==> exists n :: 0 <= n <= |buf| && content == old(content) + buf[..n]
      ensures Troubles(replies) == Troubles(old(replies)) - if ok then 0 else 1
    {
      var done := 0;
      while done < |buf|
        invariant 0 <= done <= |buf| && cursor == |content|
        invariant content == old(content) + buf[..done] && Troubles(replies) == Troubles(old(replies))
        decreases |replies| + |buf| - done
      {
        var reply := Write(buf[done..]);
        match reply
        case Wrote(n) =>
          if n == 0 {
            return false;
          }
          assert buf[..done] + buf[done..][..n] == buf[..done + n];
          done := done + n;
        case Interrupted =>
        case Failed =>
          return false;
      }
      assert buf[..|buf|] == buf;
      return true;
    }

    // Stops at the first call that fails.
    method Rewrite(body: Bytes) returns (ok: bool)
      modifies this
      ensures ok ==> content == body
      ensures !ok ==> content == old(content) || content <= body
      ensures ok ==> answers == Drop(old(answers), 3)
      ensures Ahead() == old(Ahead()) - if ok then 0 else 1
    {
      ok := SeekToStart();
      if !ok { return; }
      ok := TruncateAll();
      if !ok { return; }
      ok := WriteAll(body);
      if !ok { return; }
      ok := Sync();
    }

    // The outcome reported by overwrite_or_restore is the truth about the file: the new body,
    // or exactly the original, or, when the rollback failed as well, what was there before or
    // a piece of one of the two texts from its beginning.  And it is decided by how many calls
    // fail on the way: after one failure the original is put back, so only a second one can
    // leave the file damaged.
    method OverwriteOrRestore(body: Bytes, original: Bytes) returns (outcome: Outcome)
      modifies this
      ensures outcome == Written ==> content == body
      ensures outcome == Restored ==> content == original
      ensures outcome == Damaged ==> content == old(content) || content <= body || content <= original
      ensures Ahead() == old(Ahead()) - match outcome { case Written => 0 case Restored => 1 case Damaged => 2 }
    {
      var written := Rewrite(body);
      if written {
        return Written;
      }
      var restored := Rewrite(original);
      return if restored then Restored else Damaged;
    }
  }

  datatype Outcome = Written | Restored | Damaged

  // --- replacement through a temporary file ---------------------------------------------------

  datatype ReplaceOutcome = Replaced | Refused | Crashed

  type Ending = o: ReplaceOutcome | o != Replaced witness Refused

  // Where it ends early, if anywhere: creating the file is step 0, each piece a step, then the
  // sync and the rename.
  datatype Stop = Never | Stop(at: nat, how: Ending)

  // A directory with every state it has been in.
  class Directory {
    var files: map<string, Bytes>
    ghost var trace: seq<map<string, Bytes>>

    constructor (files: map<string, Bytes>)
      ensures this.files == files && trace == [files]
    {
      this.files, trace := files, [files];
    }

    // The present state is the last one recorded.
    ghost predicate Recorded()
      reads this
    {
      trace != [] && trace[|trace| - 1] == files
    }

    method Record()
      modifies this`trace
      ensures trace == old(trace) + [files] && Recorded()
    {
      trace := trace + [files];
    }

    // Writes `body` to a new file, a piece at a time.  `stop` says at which step the program is
    // refused or dies, if it comes so far.
    method WriteTemp(tmp: string, body: Bytes, stop: Stop) returns (outcome: ReplaceOutcome)
      requires Recorded()
      modifies this
      ensures Recorded() && (outcome == Replaced ==> |trace| == |old(trace)| + |body| + 1)
      ensures tmp !in old(files) ==> (tmp in files <==> (stop.Stop? ==> stop.at > 0))
      ensures outcome == if tmp in old(files) then Refused else if stop.Stop? && stop.at <= |body| + 1 then stop.how else Replaced
      ensures outcome == Replaced ==> files == old(files)[tmp := body]
      ensures files - {tmp} == old(files) - {tmp} && (tmp in old(files) ==> files == old(files))
      ensures |old(trace)| <= |trace| && trace[..|old(trace)|] == old(trace)
      ensures forall i :: |old(trace)| <= i < |trace| ==> trace[i] - {tmp} == old(files) - {tmp}
    {
      if tmp in files {
        return Refused;
      }
      if stop.Stop? && stop.at == 0 {
        return stop.how;
      }
      files := files[tmp := []];
      Record();
      var done := 0;
      while done < |body|
        invariant 0 <= done <= |body| && tmp in files && files == old(files)[tmp := body[..done]]
        invariant stop.Stop? ==> stop.at > done
        invariant Recorded() && |trace| == |old(trace)| + done + 1
        invariant |old(trace)| <= |trace| && trace[..|old(trace)|] == old(trace)
        invariant forall i :: |old(trace)| <= i < |trace| ==> trace[i] - {tmp} == old(files) - {tmp}
      {
        done := done + 1;
        if stop.Stop? && stop.at == done {
          return stop.how;
        }
        files := files[tmp := body[..done]];
        Record();
      }
      assert body[..|body|] == body;
      return if stop.Stop? && stop.at == |body| + 1 then stop.how else Replaced;
    }

    // Crash safety: in every state on the way the destination holds its old contents or all
    // of the new body, nothing but the destination and the temporary file changes, and an
    // error leaves the destination as it was.  A temporary file left over is such an error, and
    // is cleared away.
    method WriteBytesReplace(to: string, tmp: string, body: Bytes, stop: Stop, removes: bool) returns (outcome: ReplaceOutcome)
      requires to != tmp && Recorded()
      modifies this
      ensures Recorded() && (outcome == Replaced ==> |trace| == |old(trace)| + |body| + 2)
      ensures outcome == if tmp in old(files) then Refused else if stop.Stop? && stop.at <= |body| + 2 then stop.how else Replaced
      ensures outcome == Replaced ==> files == old(files)[to := body]
      ensures outcome == Refused ==> files - {tmp} == old(files) - {tmp} && (removes ==> tmp !in files)
      // Without the clearing, or when the program dies, the temporary file stays.
      ensures outcome != Replaced && (outcome == Crashed || !removes) ==> (tmp in files <==> tmp in old(files) || (stop.Stop? ==> stop.at > 0))
      ensures files - {tmp} in {old(files) - {tmp}, old(files)[to := body] - {tmp}}
      ensures |old(trace)| <= |trace| && trace[..|old(trace)|] == old(trace)
      ensures forall i :: |old(trace)| <= i < |trace| ==>
                trace[i] - {tmp} == old(files) - {tmp} || trace[i] - {tmp} == old(files)[to := body] - {tmp}
    {
      outcome := WriteTemp(tmp, body, stop);
      if outcome == Replaced && stop.Stop? && stop.at == |body| + 2 {
        outcome := stop.how;
      }
      if outcome == Crashed {
        return;
      }
      if outcome == Replaced {
        files := files[to := files[tmp]] - {tmp};
        Record();
        assert files == old(files)[to := body];
        return;
      }
      if removes {
        files := files - {tmp};
        Record();
      }
    }
  }
}
