/**
  The managed block of the hosts file: finding it, taking it out, and what the scan accepts.
 */
module HostsMarkers {
  import opened Common
  import opened Text

  const BEGIN_MARKER := "# >>> 190x4 Ninety (DPI hosts) >>>"
  const END_MARKER := "# <<< 190x4 Ninety (DPI hosts) <<<"

  predicate IsBegin(p: string) { Trim(p) == BEGIN_MARKER }
  predicate IsEnd(p: string) { Trim(p) == END_MARKER }
  predicate IsMarker(p: string) { IsBegin(p) || IsEnd(p) }

  ghost predicate NoMarkers(ps: seq<string>) {
    forall i :: 0 <= i < |ps| ==> !IsMarker(ps[i])
  }

  datatype HostsError = Nested | StrayEnd | Unterminated | Several | NotOneByte | Io

  // How far a scan has come: the pieces outside of blocks, the pieces inside, the number of
  // blocks begun, and whether one is open.
  datatype Scan = Scan(foreign: seq<string>, inner: seq<string>, blocks: nat, open: bool) | Bad(error: HostsError)

  function Step(s: Scan, p: string): Scan {
    if s.Bad? then s
    else if IsBegin(p) then if s.open then Bad(Nested) else s.(blocks := s.blocks + 1, open := true)
    else if IsEnd(p) then if s.open then s.(open := false) else Bad(StrayEnd)
    else if s.open then s.(inner := s.inner + [p])
    else s.(foreign := s.foreign + [p])
  }

  const NOTHING_SEEN := Scan([], [], 0, false)

  function Walk(s: Scan, ps: seq<string>): Scan {
    if ps == [] then s else Step(Walk(s, ps[..|ps| - 1]), ps[|ps| - 1])
  }

  // What `strip_managed_block` makes of a whole file.
  function Conclude(s: Scan): Result<Scan, HostsError> {
    if s.Bad? then Err(s.error)
    else if s.open then Err(Unterminated)
    else if s.blocks > 1 then Err(Several)
    else Ok(s)
  }

  // --- what a scan means ------------------------------------------------------------------------

  lemma BeginIsNotEnd(p: string)
    ensures !(IsBegin(p) && IsEnd(p))
  {
    assert BEGIN_MARKER[2] != END_MARKER[2];
  }

  lemma NoMarkersOn(ps: seq<string>, p: string)
    ensures NoMarkers(ps + [p]) <==> NoMarkers(ps) && !IsMarker(p)
  {
    if NoMarkers(ps + [p]) {
      assert (ps + [p])[|ps|] == p;
      assert forall i :: 0 <= i < |ps| ==> (ps + [p])[i] == ps[i];
    }
  }

  // A block that is still open.
  ghost predicate OpenBlock(ps: seq<string>, x: seq<string>, begin: string, y: seq<string>) {
    ps == x + [begin] + y && NoMarkers(x) && IsBegin(begin) && NoMarkers(y)
  }

  // One block, with the text before, inside and after it.
  ghost predicate OneBlock(ps: seq<string>, x: seq<string>, begin: string, y: seq<string>, end: string, z: seq<string>) {
    && ps == x + [begin] + y + [end] + z
    && NoMarkers(x) && IsBegin(begin) && NoMarkers(y) && IsEnd(end) && NoMarkers(z)
  }

  // Where a scan that has met no error, and no second block, stands.
  ghost predicate Stands(ps: seq<string>, s: Scan) {
    s.Scan? && s.blocks <= 1 ==>
      if s.blocks == 0 then s == Scan(ps, [], 0, false) && NoMarkers(ps)
      else if s.open then exists begin :: OpenBlock(ps, s.foreign, begin, s.inner)
      else exists x, begin, end, z :: OneBlock(ps, x, begin, s.inner, end, z) && s.foreign == x + z
  }

  lemma {:induction false} WalkStands(ps: seq<string>)
    ensures Stands(ps, Walk(NOTHING_SEEN, ps))
    decreases |ps|
  {
    if ps != [] {
      var init, p := ps[..|ps| - 1], ps[|ps| - 1];
      WalkStands(init);
      assert ps == init + [p];
      StepStands(init, Walk(NOTHING_SEEN, init), p);
    }
  }

  lemma StepStands(ps: seq<string>, s: Scan, p: string)
    requires Stands(ps, s)
    ensures Stands(ps + [p], Step(s, p))
  {
    BeginIsNotEnd(p);
    if s.Scan? && s.blocks == 0 {
      NoMarkersOn(ps, p);
      if IsBegin(p) {
        assert OpenBlock(ps + [p], ps, p, []);
      }
    } else if s.Scan? && s.blocks == 1 && s.open {
      StepInBlock(ps, s, p);
    } else if s.Scan? && s.blocks == 1 && !IsMarker(p) {
      StepAfterBlock(ps, s, p);
    }
  }

  lemma StepInBlock(ps: seq<string>, s: Scan, p: string)
    requires s.Scan? && s.blocks == 1 && s.open && Stands(ps, s) && !(IsBegin(p) && IsEnd(p))
    ensures Stands(ps + [p], Step(s, p))
  {
    var begin :| OpenBlock(ps, s.foreign, begin, s.inner);
    NoMarkersOn(s.inner, p);
    if IsEnd(p) {
      assert OneBlock(ps + [p], s.foreign, begin, s.inner, p, []);
      assert s.foreign + [] == s.foreign;
    } else if !IsMarker(p) {
      assert OpenBlock(ps + [p], s.foreign, begin, s.inner + [p]);
    }
  }

  lemma StepAfterBlock(ps: seq<string>, s: Scan, p: string)
    requires s.Scan? && s.blocks == 1 && !s.open && Stands(ps, s) && !IsMarker(p)
    ensures Stands(ps + [p], Step(s, p))
  {
    var x, begin, end, z :| OneBlock(ps, x, begin, s.inner, end, z) && s.foreign == x + z;
    NoMarkersOn(z, p);
    assert OneBlock(ps + [p], x, begin, s.inner, end, z + [p]);
    assert s.foreign + [p] == x + (z + [p]);
  }

  // A file is accepted if and only if it has no marker line at all, or one block: a BEGIN line,
  // later an END line, and no other marker; what is kept is all the rest, in order.
  lemma AcceptedMeans(ps: seq<string>)
    ensures Conclude(Walk(NOTHING_SEEN, ps)).Ok? <==>
            NoMarkers(ps) || exists x, begin, y, end, z :: OneBlock(ps, x, begin, y, end, z)
    ensures NoMarkers(ps) ==> Walk(NOTHING_SEEN, ps) == Scan(ps, [], 0, false)
    ensures forall x, begin, y, end, z :: OneBlock(ps, x, begin, y, end, z) ==> Walk(NOTHING_SEEN, ps) == Scan(x + z, y, 1, false)
  {
    WalkStands(ps);
    if NoMarkers(ps) {
      WalkPlain(NOTHING_SEEN, ps);
      assert [] + ps == ps;
    }
    forall x, begin, y, end, z | OneBlock(ps, x, begin, y, end, z)
      ensures Walk(NOTHING_SEEN, ps) == Scan(x + z, y, 1, false)
    {
      WalkAround(x, begin, y, end, z);
    }
  }

  lemma {:induction false} WalkSplit(s: Scan, a: seq<string>, b: seq<string>)
    ensures Walk(s, a + b) == Walk(Walk(s, a), b)
    decreases |b|
  {
    if b == [] {
      assert a + b == a;
    } else {
      assert (a + b)[..|a + b| - 1] == a + b[..|b| - 1];
      WalkSplit(s, a, b[..|b| - 1]);
    }
  }

  lemma WalkOne(s: Scan, p: string)
    ensures Walk(s, [p]) == Step(s, p)
  {
    assert [p][..0] == [];
    assert Walk(s, []) == s;
  }

  lemma {:induction false} WalkPlain(s: Scan, ps: seq<string>)
    requires s.Scan? && NoMarkers(ps)
    ensures Walk(s, ps) == if s.open then s.(inner := s.inner + ps) else s.(foreign := s.foreign + ps)
    decreases |ps|
  {
    if ps != [] {
      var init, p := ps[..|ps| - 1], ps[|ps| - 1];
      WalkPlain(s, init);
      assert ps == init + [p];
    }
  }

  lemma WalkAround(x: seq<string>, begin: string, y: seq<string>, end: string, z: seq<string>)
    requires NoMarkers(x) && IsBegin(begin) && NoMarkers(y) && IsEnd(end) && NoMarkers(z)
    ensures Walk(NOTHING_SEEN, x + [begin] + y + [end] + z) == Scan(x + z, y, 1, false)
  {
    BeginIsNotEnd(end);
    WalkSplit(NOTHING_SEEN, x + [begin] + y + [end], z);
    WalkSplit(NOTHING_SEEN, x + [begin] + y, [end]);
    WalkSplit(NOTHING_SEEN, x + [begin], y);
    WalkSplit(NOTHING_SEEN, x, [begin]);
    WalkPlain(NOTHING_SEEN, x);
    var s1 := Scan(x, [], 0, false);
    assert [] + x == x;
    WalkOne(s1, begin);
    var s2 := Scan(x, [], 1, true);
    WalkPlain(s2, y);
    assert [] + y == y;
    var s3 := Scan(x, y, 1, true);
    WalkOne(s3, end);
    WalkPlain(Scan(x, y, 1, false), z);
  }

  // A marker inside the block ruins the file, wherever it stands.
  lemma MarkerInsideIsRefused(x: seq<string>, begin: string, y: seq<string>, end: string)
    requires NoMarkers(x) && IsBegin(begin) && !NoMarkers(y) && IsEnd(end)
    ensures Conclude(Walk(NOTHING_SEEN, x + [begin] + y + [end])).Err?
  {
    WalkSplit(NOTHING_SEEN, x + [begin] + y, [end]);
    WalkSplit(NOTHING_SEEN, x + [begin], y);
    WalkSplit(NOTHING_SEEN, x, [begin]);
    WalkPlain(NOTHING_SEEN, x);
    WalkOne(Scan([] + x, [], 0, false), begin);
    Spoiled(Scan([] + x, [], 1, true), y);
    WalkOne(Walk(NOTHING_SEEN, x + [begin] + y), end);
    BeginIsNotEnd(end);
  }

  // After a marker the block is over, or there are several, or the scan has failed.
  ghost predicate Doomed(t: Scan) {
    t.Bad? || t.blocks > 1 || (t.blocks == 1 && !t.open)
  }

  lemma {:induction false} Spoiled(s: Scan, y: seq<string>)
    requires s.Scan? && s.open && s.blocks == 1
    ensures !NoMarkers(y) ==> Doomed(Walk(s, y))
    ensures NoMarkers(y) ==> Walk(s, y).Scan? && Walk(s, y).open && Walk(s, y).blocks == 1
    decreases |y|
  {
    if y != [] {
      var init, p := y[..|y| - 1], y[|y| - 1];
      Spoiled(s, init);
      BeginIsNotEnd(p);
      NoMarkersOn(init, p);
      assert y == init + [p];
    }
  }
}
