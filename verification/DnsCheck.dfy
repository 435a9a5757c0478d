/**
  The DNS probe of `src-tauri/src/dnscheck.rs`: the query builder, the name reader with
  compression pointers (RFC 1035 section 4.1.4) and the response check.
 */
module DnsCheck {
  import opened Common

  type byte = x: int | 0 <= x < 0x100
  type Message = seq<byte>
  type Label = seq<byte>

  datatype DnsError =
    | InvalidOrCyclic | TruncatedPointer | PointerOutside | UnsupportedType | TruncatedLabel
    | TruncatedFields
    | ShortPacket | Mismatch | BadRcode(rcode: nat) | BadQdcount(count: nat) | DifferentQuestion | NoRecords
    | EmptyHost | EmptyLabel | LabelTooLong(len: nat) | HostTooLong

  // --- what a name on the wire means ------------------------------------------------------

  function Lower(b: byte): byte {
    if 65 <= b <= 90 then b + 32 else b
  }

  // The same letter in either case, or the same byte.
  predicate SameLetter(a: byte, b: byte) {
    a == b || (65 <= a <= 90 && b == a + 32) || (65 <= b <= 90 && a == b + 32)
  }

  predicate SameLetters(a: seq<byte>, b: seq<byte>) {
    |a| == |b| && forall i :: 0 <= i < |a| ==> SameLetter(a[i], b[i])
  }

  // Folding takes exactly the two cases of a letter together, and leaves no capital.
  lemma FoldingMeans(a: seq<byte>, b: seq<byte>)
    ensures LowerAll(a) == LowerAll(b) <==> SameLetters(a, b)
    ensures forall i :: 0 <= i < |a| ==> !(65 <= LowerAll(a)[i] <= 90) && SameLetter(a[i], LowerAll(a)[i])
  {
    if LowerAll(a) == LowerAll(b) {
      assert |a| == |b|;
      forall i | 0 <= i < |a|
        ensures SameLetter(a[i], b[i])
      {
        assert LowerAll(a)[i] == LowerAll(b)[i];
      }
    }
  }

  function LowerAll(bytes: seq<byte>): (lower: seq<byte>)
    ensures |lower| == |bytes|
    ensures forall i :: 0 <= i < |bytes| ==> lower[i] == Lower(bytes[i])
  {
    seq(|bytes|, i requires 0 <= i < |bytes| => Lower(bytes[i]))
  }

  // What stands at one position of a message: the two high bits select the kind.
  datatype Hop =
    | Bad(error: DnsError)
    | Jump(to: nat)
    | Take(part: Label, next: nat)
    | Root(next: nat)

  function PointerOf(high: int, low: int): nat
    requires 0 <= high && 0 <= low
  {
    high % 0x40 * 0x100 + low
  }

  function HopAt(m: Message, c: nat): Hop {
    if c >= |m| then Bad(InvalidOrCyclic)
    else if m[c] >= 0xC0 then
      if c + 1 >= |m| then Bad(TruncatedPointer)
      else
        var pointer: nat := PointerOf(m[c], m[c + 1]);
        if pointer >= |m| then Bad(PointerOutside) else Jump(pointer)
    else if m[c] >= 0x40 then Bad(UnsupportedType)
    else if m[c] == 0 then Root(c + 1)
    else if c + 1 + m[c] > |m| then Bad(TruncatedLabel)
    else Take(LowerAll(m[c + 1..c + 1 + m[c]]), c + 1 + m[c])
  }

  // A pointer to `p`, as section 4.1.4 of RFC 1035 writes it: two set bits and fourteen for the
  // position.
  lemma PointersPoint(m: Message, c: nat, p: nat)
    requires p < 0x4000 && p < |m| && c + 1 < |m|
    requires m[c] == 0xC0 + p / 0x100 && m[c + 1] == p % 0x100
    ensures HopAt(m, c) == Jump(p)
  {
  }

  // Following the name from `c` reaches the root label after exactly `n` hops.
  ghost predicate Ends(m: Message, c: nat, n: nat)
    decreases n
  {
    match HopAt(m, c)
    case Bad(_) => false
    case Root(_) => n == 0
    case Jump(to) => n > 0 && Ends(m, to, n - 1)
    case Take(_, next) => n > 0 && Ends(m, next, n - 1)
  }

  ghost function LabelsFrom(m: Message, c: nat, n: nat): seq<Label>
    requires Ends(m, c, n)
    decreases n
  {
    match HopAt(m, c)
    case Root(_) => []
    case Jump(to) => LabelsFrom(m, to, n - 1)
    case Take(part, next) => [part] + LabelsFrom(m, next, n - 1)
  }

  // The labels as they are spelled in the message.
  ghost function SpelledFrom(m: Message, c: nat, n: nat): seq<Label>
    requires Ends(m, c, n)
    decreases n
  {
    match HopAt(m, c)
    case Root(_) => []
    case Jump(to) => SpelledFrom(m, to, n - 1)
    case Take(_, next) => [m[c + 1..next]] + SpelledFrom(m, next, n - 1)
  }

  // Two names with the same labels are spelled with the same letters.
  ghost predicate SameNames(a: seq<Label>, b: seq<Label>) {
    |a| == |b| && forall i :: 0 <= i < |a| ==> SameLetters(a[i], b[i])
  }

  lemma {:induction false} SpelledAlike(m: Message, c: nat, n: nat)
    requires Ends(m, c, n)
    ensures |SpelledFrom(m, c, n)| == |LabelsFrom(m, c, n)|
    ensures forall i :: 0 <= i < |LabelsFrom(m, c, n)| ==> LabelsFrom(m, c, n)[i] == LowerAll(SpelledFrom(m, c, n)[i])
    decreases n
  {
    match HopAt(m, c)
    case Root(_) =>
    case Jump(to) => SpelledAlike(m, to, n - 1);
    case Take(_, next) => SpelledAlike(m, next, n - 1);
  }

  // Where the message continues after the name: behind the root label or the first pointer.
  ghost function EndFrom(m: Message, c: nat, n: nat): nat
    requires Ends(m, c, n)
    decreases n
  {
    match HopAt(m, c)
    case Root(next) => next
    case Jump(_) => c + 2
    case Take(_, next) => EndFrom(m, next, n - 1)
  }

  // The position after `n` hops, if there are that many.
  ghost function Walk(m: Message, c: nat, n: nat): Option<nat>
    decreases n
  {
    if n == 0 then Some(c)
    else match HopAt(m, c)
         case Jump(to) => Walk(m, to, n - 1)
         case Take(_, next) => Walk(m, next, n - 1)
         case _ => None
  }

  datatype Name = Name(labels: seq<Label>, end: nat)

  // The meaning of a name, independent of how it is read: it ends, with these labels, there.
  ghost predicate Denotes(m: Message, start: nat, name: Name) {
    exists n: nat :: Ends(m, start, n) && LabelsFrom(m, start, n) == name.labels && EndFrom(m, start, n) == name.end
  }

  lemma {:induction false} EndsOnce(m: Message, c: nat, i: nat, j: nat)
    requires Ends(m, c, i) && Ends(m, c, j)
    ensures i == j
    decreases i
  {
    match HopAt(m, c)
    case Root(_) =>
    case Jump(to) => EndsOnce(m, to, i - 1, j - 1);
    case Take(_, next) => EndsOnce(m, next, i - 1, j - 1);
  }

  lemma NamesAreUnique(m: Message, start: nat, a: Name, b: Name)
    requires Denotes(m, start, a) && Denotes(m, start, b)
    ensures a == b
  {
    var i: nat :| Ends(m, start, i) && LabelsFrom(m, start, i) == a.labels && EndFrom(m, start, i) == a.end;
    var j: nat :| Ends(m, start, j) && LabelsFrom(m, start, j) == b.labels && EndFrom(m, start, j) == b.end;
    EndsOnce(m, start, i, j);
  }

  lemma {:induction false} WalkSteps(m: Message, c: nat, n: nat)
    requires Walk(m, c, n).Some?
    ensures var hop := HopAt(m, Walk(m, c, n).value);
            Walk(m, c, n + 1) == (match hop case Jump(to) => Some(to) case Take(_, next) => Some(next) case _ => None)
    decreases n
  {
    if n > 0 {
      match HopAt(m, c)
      case Jump(to) => WalkSteps(m, to, n - 1);
      case Take(_, next) => WalkSteps(m, next, n - 1);
    }
  }

  // A name that ends does so from every position on its way, sooner the further it is.
  lemma {:induction false} EndsFromHere(m: Message, c: nat, k: nat, at: nat, n: nat)
    requires Walk(m, c, k) == Some(at) && Ends(m, c, n)
    ensures k <= n && Ends(m, at, n - k)
    decreases k
  {
    if k > 0 {
      var hop := HopAt(m, c);
      var next := if hop.Jump? then hop.to else hop.next;
      NextOnTheWay(m, c, k, at, n, next);
      EndsFromHere(m, next, k - 1, at, n - 1);
    }
  }

  lemma NextOnTheWay(m: Message, c: nat, k: nat, at: nat, n: nat, next: nat)
    requires Walk(m, c, k) == Some(at) && Ends(m, c, n) && k > 0
    requires (HopAt(m, c).Jump? && next == HopAt(m, c).to) || (HopAt(m, c).Take? && next == HopAt(m, c).next)
    ensures Walk(m, next, k - 1) == Some(at) && n > 0 && Ends(m, next, n - 1)
  {
  }

  // Coming back to a position means that the name never ends.
  lemma NoWayOutOfACycle(m: Message, c: nat, i: nat, j: nat, at: nat, n: nat)
    requires i < j && Walk(m, c, i) == Some(at) && Walk(m, c, j) == Some(at)
    ensures !Ends(m, c, n)
  {
    if Ends(m, c, n) {
      EndsFromHere(m, c, i, at, n);
      EndsFromHere(m, c, j, at, n);
      EndsOnce(m, at, n - i, n - j);
    }
  }

  // What the first `n` hops from `c` have collected: labels and the position after the name.
  ghost predicate Collected(m: Message, c: nat, n: nat, at: nat, labels: seq<Label>, end: Option<nat>) {
    forall k: nat :: Ends(m, at, k) ==>
      && Ends(m, c, n + k)
      && LabelsFrom(m, c, n + k) == labels + LabelsFrom(m, at, k)
      && EndFrom(m, c, n + k) == if end.Some? then end.value else EndFrom(m, at, k)
  }

  lemma CollectJump(m: Message, c: nat, n: nat, at: nat, labels: seq<Label>, end: Option<nat>)
    requires Collected(m, c, n, at, labels, end) && HopAt(m, at).Jump?
    ensures Collected(m, c, n + 1, HopAt(m, at).to, labels, if end.Some? then end else Some(at + 2))
  {
    var to := HopAt(m, at).to;
    forall k: nat | Ends(m, to, k)
      ensures Ends(m, c, n + 1 + k) && LabelsFrom(m, c, n + 1 + k) == labels + LabelsFrom(m, to, k)
      ensures EndFrom(m, c, n + 1 + k) == if end.Some? then end.value else at + 2
    {
      assert Ends(m, at, k + 1) && n + (k + 1) == n + 1 + k;
    }
  }

  lemma CollectLabel(m: Message, c: nat, n: nat, at: nat, labels: seq<Label>, end: Option<nat>)
    requires Collected(m, c, n, at, labels, end) && HopAt(m, at).Take?
    ensures Collected(m, c, n + 1, HopAt(m, at).next, labels + [HopAt(m, at).part], end)
  {
    var next, part := HopAt(m, at).next, HopAt(m, at).part;
    forall k: nat | Ends(m, next, k)
      ensures Ends(m, c, n + 1 + k)
      ensures LabelsFrom(m, c, n + 1 + k) == labels + [part] + LabelsFrom(m, next, k)
      ensures EndFrom(m, c, n + 1 + k) == if end.Some? then end.value else EndFrom(m, next, k)
    {
      CollectLabelAt(m, c, n, at, labels, end, k);
    }
  }

  lemma CollectLabelAt(m: Message, c: nat, n: nat, at: nat, labels: seq<Label>, end: Option<nat>, k: nat)
    requires Collected(m, c, n, at, labels, end) && HopAt(m, at).Take? && Ends(m, HopAt(m, at).next, k)
    ensures Ends(m, c, n + 1 + k)
    ensures LabelsFrom(m, c, n + 1 + k) == labels + [HopAt(m, at).part] + LabelsFrom(m, HopAt(m, at).next, k)
    ensures EndFrom(m, c, n + 1 + k) == if end.Some? then end.value else EndFrom(m, HopAt(m, at).next, k)
  {
    var next, part := HopAt(m, at).next, HopAt(m, at).part;
    LabelInFront(m, at, part, next, k);
    assert n + (k + 1) == n + 1 + k;
    assert LabelsFrom(m, c, n + (k + 1)) == labels + ([part] + LabelsFrom(m, next, k));
  }

  lemma LabelInFront(m: Message, at: nat, part: Label, next: nat, n: nat)
    requires HopAt(m, at) == Take(part, next) && Ends(m, next, n)
    ensures Ends(m, at, n + 1) && LabelsFrom(m, at, n + 1) == [part] + LabelsFrom(m, next, n)
    ensures EndFrom(m, at, n + 1) == EndFrom(m, next, n)
  {
  }

  // --- reading a name ------------------------------------------------------------------------

  // Why a name cannot be read: a malformed position on the way, or a position seen before.
  ghost predicate Explains(m: Message, start: nat, error: DnsError) {
    exists n: nat :: Walk(m, start, n).Some? &&
      (|| HopAt(m, Walk(m, start, n).value) == Bad(error)
       || (error == InvalidOrCyclic && exists k: nat :: k < n && Walk(m, start, k) == Walk(m, start, n)))
  }

  lemma Indices(n: nat) returns (all: set<nat>)
    ensures |all| == n && forall i: nat :: i in all <==> i < n
  {
    all := {};
    for i := 0 to n
      invariant |all| == i && forall j: nat :: j in all <==> j < i
    {
      all := all + {i};
    }
  }

  lemma VisitedFits(m: Message, visited: set<nat>)
    requires forall v :: v in visited ==> v < |m|
    ensures |visited| <= |m|
  {
    var all := Indices(|m|);
    SubsetIsSmaller(visited, all);
  }

  lemma {:induction false} SubsetIsSmaller(a: set<nat>, b: set<nat>)
    requires a <= b
    ensures |a| <= |b|
  {
    if a != {} {
      var x :| x in a;
      SubsetIsSmaller(a - {x}, b - {x});
    }
  }

  lemma BadHopIsFatal(m: Message, start: nat, n: nat, at: nat)
    requires Walk(m, start, n) == Some(at) && HopAt(m, at).Bad?
    ensures Explains(m, start, HopAt(m, at).error)
    ensures forall name :: !Denotes(m, start, name)
  {
    forall i: nat | Ends(m, start, i) ensures false { EndsFromHere(m, start, n, at, i); }
  }

  lemma CycleIsFatal(m: Message, start: nat, k: nat, n: nat, at: nat)
    requires k < n && Walk(m, start, k) == Some(at) && Walk(m, start, n) == Some(at)
    ensures Explains(m, start, InvalidOrCyclic)
    ensures forall name :: !Denotes(m, start, name)
  {
    forall i: nat ensures !Ends(m, start, i) { NoWayOutOfACycle(m, start, k, n, at, i); }
  }

  lemma RootIsTheEnd(m: Message, start: nat, n: nat, at: nat, labels: seq<Label>, end: Option<nat>)
    requires Collected(m, start, n, at, labels, end) && HopAt(m, at).Root?
    ensures Denotes(m, start, Name(labels, if end.Some? then end.value else at + 1))
  {
    assert Ends(m, at, 0);
    assert Ends(m, start, n + 0);
  }

  // The positions of the first `n` hops are within the message.
  ghost predicate Visited(m: Message, start: nat, n: nat, visited: set<nat>) {
    forall v :: v in visited ==> v < |m| && exists k: nat :: k < n && Walk(m, start, k) == Some(v)
  }

  // Where the loop of the reader stands after `n` hops.
  ghost predicate Reading(m: Message, start: nat, n: nat, cursor: nat, labels: seq<Label>, end: Option<nat>) {
    Walk(m, start, n) == Some(cursor) && Collected(m, start, n, cursor, labels, end)
  }

  lemma ReadJump(m: Message, start: nat, n: nat, cursor: nat, labels: seq<Label>, end: Option<nat>)
    requires Reading(m, start, n, cursor, labels, end) && HopAt(m, cursor).Jump?
    ensures Reading(m, start, n + 1, HopAt(m, cursor).to, labels, if end.Some? then end else Some(cursor + 2))
  {
    WalkSteps(m, start, n);
    CollectJump(m, start, n, cursor, labels, end);
  }

  lemma ReadLabel(m: Message, start: nat, n: nat, cursor: nat, labels: seq<Label>, end: Option<nat>)
    requires Reading(m, start, n, cursor, labels, end) && HopAt(m, cursor).Take?
    ensures Reading(m, start, n + 1, HopAt(m, cursor).next, labels + [HopAt(m, cursor).part], end)
  {
    WalkSteps(m, start, n);
    CollectLabel(m, start, n, cursor, labels, end);
  }

  lemma VisitOne(m: Message, start: nat, n: nat, cursor: nat, visited: set<nat>)
    requires Visited(m, start, n, visited) && Walk(m, start, n) == Some(cursor) && cursor < |m| && cursor !in visited
    ensures Visited(m, start, n + 1, visited + {cursor})
    ensures |visited| < |visited + {cursor}| <= |m|
  {
    forall v | v in visited + {cursor}
      ensures v < |m| && exists k: nat :: k < n + 1 && Walk(m, start, k) == Some(v)
    {
      if v in visited {
        var k: nat :| k < n && Walk(m, start, k) == Some(v);
        assert k < n + 1;
      }
    }
    VisitedFits(m, visited + {cursor});
  }

  // Reads exactly the names that mean something, and terminates on every byte string: each
  // turn of the loop visits a new position.
  method ReadDnsName(m: Message, start: nat) returns (r: Result<Name, DnsError>)
    ensures r.Ok? ==> Denotes(m, start, r.value)
    ensures r.Err? ==> Explains(m, start, r.error)
    ensures r.Err? ==> forall name :: !Denotes(m, start, name)
  {
    var labels: seq<Label> := [];
    var cursor: nat := start;
    var consumedEnd: Option<nat> := None;
    var visited: set<nat> := {};
    ghost var n: nat := 0;
    while true
      invariant Reading(m, start, n, cursor, labels, consumedEnd) && Visited(m, start, n, visited)
      decreases |m| - |visited|
    {
      if cursor >= |m| {
        BadHopIsFatal(m, start, n, cursor);
        return Err(InvalidOrCyclic);
      }
      if cursor in visited {
        ghost var k: nat :| k < n && Walk(m, start, k) == Some(cursor);
        CycleIsFatal(m, start, k, n, cursor);
        return Err(InvalidOrCyclic);
      }
      VisitOne(m, start, n, cursor, visited);
      visited := visited + {cursor};
      var len := m[cursor];
      if len >= 0xC0 {
        if cursor + 1 >= |m| {
          BadHopIsFatal(m, start, n, cursor);
          return Err(TruncatedPointer);
        }
        var pointer := PointerOf(len, m[cursor + 1]);
        if pointer >= |m| {
          BadHopIsFatal(m, start, n, cursor);
          return Err(PointerOutside);
        }
        ReadJump(m, start, n, cursor, labels, consumedEnd);
        if consumedEnd.None? {
          consumedEnd := Some(cursor + 2);
        }
        cursor := pointer;
        n := n + 1;
        continue;
      }
      if len >= 0x40 {
        BadHopIsFatal(m, start, n, cursor);
        return Err(UnsupportedType);
      }
      if len == 0 {
        RootIsTheEnd(m, start, n, cursor, labels, consumedEnd);
        return Ok(Name(labels, if consumedEnd.Some? then consumedEnd.value else cursor + 1));
      }
      var end := cursor + 1 + len;
      if end > |m| {
        BadHopIsFatal(m, start, n, cursor);
        return Err(TruncatedLabel);
      }
      ReadLabel(m, start, n, cursor, labels, consumedEnd);
      labels := labels + [LowerAll(m[cursor + 1..end])];
      cursor := end;
      n := n + 1;
    }
  }

  // Every name lies inside the message and consumes at least one byte.
  lemma {:induction false} NamesStayInBounds(m: Message, start: nat, n: nat)
    requires Ends(m, start, n)
    ensures start < EndFrom(m, start, n) <= |m|
    ensures forall i :: 0 <= i < |LabelsFrom(m, start, n)| ==> 1 <= |LabelsFrom(m, start, n)[i]| <= 63
    decreases n
  {
    match HopAt(m, start)
    case Root(_) =>
    case Jump(to) => NamesStayInBounds(m, to, n - 1);
    case Take(_, next) => NamesStayInBounds(m, next, n - 1);
  }

  // Compression is transparent, on every message: a pointer at `p` to `q` reads as the name
  // at `q`, whenever either of them can be read at all, and takes two bytes.
  lemma PointersAreTransparent(m: Message, p: nat, labels: seq<Label>, end: nat)
    requires HopAt(m, p).Jump?
    ensures Denotes(m, p, Name(labels, end)) <==>
            end == p + 2 && exists e :: Denotes(m, HopAt(m, p).to, Name(labels, e))
  {
    var q := HopAt(m, p).to;
    if Denotes(m, p, Name(labels, end)) {
      var n: nat :| Ends(m, p, n) && LabelsFrom(m, p, n) == labels && EndFrom(m, p, n) == end;
      assert Ends(m, q, n - 1);
      assert Denotes(m, q, Name(labels, EndFrom(m, q, n - 1)));
    }
    if exists e :: Denotes(m, q, Name(labels, e)) {
      var e :| Denotes(m, q, Name(labels, e));
      var n: nat :| Ends(m, q, n) && LabelsFrom(m, q, n) == labels && EndFrom(m, q, n) == e;
      assert Ends(m, p, n + 1);
      assert Denotes(m, p, Name(labels, p + 2));
    }
  }
}
