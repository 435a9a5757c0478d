/**
  The rest of the DNS probe of `src-tauri/src/dnscheck.rs`: building the A query for a host,
  parsing a question and deciding whether a response answers the query.
 */
module DnsProbe {
  import opened Common
  import opened Text
  import opened DnsCheck

  // --- the query --------------------------------------------------------------------------

  function Octet(n: int): byte
    requires 0 <= n < 0x100
  {
    n
  }

  // The bytes of a Rust `char`.
  function Utf8(c: char): (bytes: Label)
    ensures 1 <= |bytes| <= 4
  {
    var n := c as int;
    if n < 0x80 then [Octet(n)]
    else if n < 0x800 then [Octet(0xC0 + n / 0x40), Octet(0x80 + n % 0x40)]
    else if n < 0x10000 then [Octet(0xE0 + n / 0x1000), Octet(0x80 + n / 0x40 % 0x40), Octet(0x80 + n % 0x40)]
    else [Octet(0xF0 + n / 0x40000), Octet(0x80 + n / 0x1000 % 0x40), Octet(0x80 + n / 0x40 % 0x40), Octet(0x80 + n % 0x40)]
  }

  // Section 3 of RFC 3629, read backwards: the number of the character at the head of `bytes`.
  function FromUtf8(bytes: seq<byte>): int
    requires bytes != []
  {
    if bytes[0] < 0x80 then ByteAt(bytes, 0)
    else if bytes[0] < 0xE0 then (ByteAt(bytes, 0) - 0xC0) * 0x40 + Tail(bytes, 1)
    else if bytes[0] < 0xF0 then ((ByteAt(bytes, 0) - 0xE0) * 0x40 + Tail(bytes, 1)) * 0x40 + Tail(bytes, 2)
    else (((ByteAt(bytes, 0) - 0xF0) * 0x40 + Tail(bytes, 1)) * 0x40 + Tail(bytes, 2)) * 0x40 + Tail(bytes, 3)
  }

  function ByteAt(bytes: seq<byte>, i: nat): int {
    if i < |bytes| then bytes[i] else 0
  }

  // The six bits of a byte that continues a character.
  function Tail(bytes: seq<byte>, i: nat): int {
    ByteAt(bytes, i) - 0x80
  }

  // The bytes of a character tell it, whatever follows.
  lemma Utf8ComesBack(c: char, rest: seq<byte>)
    ensures FromUtf8(Utf8(c) + rest) == c as int
    ensures forall i :: 1 <= i < |Utf8(c)| ==> 0x80 <= Utf8(c)[i] < 0xC0
  {
    var bytes, n := Utf8(c) + rest, c as int;
    assert forall i :: 0 <= i < |Utf8(c)| ==> ByteAt(bytes, i) == Utf8(c)[i];
    SixBits(n);
    SixBits(n / 0x40);
    SixBits(n / 0x1000);
  }

  lemma SixBits(n: nat)
    ensures n / 0x40 * 0x40 + n % 0x40 == n
    ensures n / 0x40 / 0x40 == n / 0x1000 && n / 0x1000 / 0x40 == n / 0x40000
  {
  }

  // Every character has its shortest form, and the first byte tells how long that is.
  lemma LengthFromHead(c: char)
    ensures |Utf8(c)| == if c as int < 0x80 then 1 else if c as int < 0x800 then 2 else if c as int < 0x10000 then 3 else 4
    ensures |Utf8(c)| == if Utf8(c)[0] < 0x80 then 1 else if Utf8(c)[0] < 0xE0 then 2 else if Utf8(c)[0] < 0xF0 then 3 else 4
  {
  }

  // Different texts have different bytes.
  lemma {:induction false} Utf8IsOneToOne(s: string, t: string)
    requires Utf8All(s) == Utf8All(t)
    ensures s == t
    decreases |s|
  {
    if s != "" && t != "" {
      Utf8ComesBack(s[0], Utf8All(s[1..]));
      Utf8ComesBack(t[0], Utf8All(t[1..]));
      LengthFromHead(s[0]);
      LengthFromHead(t[0]);
      assert s[0] == t[0];
      assert Utf8All(s)[|Utf8(s[0])|..] == Utf8All(s[1..]);
      assert Utf8All(t)[|Utf8(t[0])|..] == Utf8All(t[1..]);
      Utf8IsOneToOne(s[1..], t[1..]);
    }
  }

  function Utf8All(s: string): (bytes: Label)
    ensures bytes == [] <==> s == ""
  {
    if s == "" then [] else Utf8(s[0]) + Utf8All(s[1..])
  }

  function TrimDots(s: string): string {
    if s != "" && s[|s| - 1] == '.' then TrimDots(s[..|s| - 1]) else s
  }

  // The host as it is queried: surrounding whitespace and trailing dots removed.
  function Queried(host: string): string {
    TrimDots(Trim(host))
  }

  function HostLabels(host: string): seq<Label> {
    var parts := Split(Queried(host), '.');
    seq(|parts|, i requires 0 <= i < |parts| => Utf8All(parts[i]))
  }

  // A host is queried without the blanks around it and the dots behind it, and its labels are the
  // texts between the dots that are left.
  lemma HostMeans(host: string) returns (front: string, dots: string, back: string)
    ensures host == front + (Queried(host) + dots) + back && Blank(front) && Blank(back)
    ensures forall i :: 0 <= i < |dots| ==> dots[i] == '.'
    ensures Queried(host) != "" ==> Queried(host)[|Queried(host)| - 1] != '.'
    ensures AreLabels(Split(Queried(host), '.'), Queried(host), HostLabels(host))
  {
    front, back := TrimMeans(host);
    dots := TrimDotsMeans(Trim(host));
    SplitMeans(Queried(host), '.');
  }

  // The texts between the dots, and their bytes.
  ghost predicate AreLabels(parts: seq<string>, name: string, labels: seq<Label>) {
    && parts != [] && JoinWith(parts, '.') == name && (forall part :: part in parts ==> '.' !in part)
    && |labels| == |parts| && forall i :: 0 <= i < |parts| ==> labels[i] == Utf8All(parts[i])
  }

  lemma {:induction false} TrimDotsMeans(s: string) returns (dots: string)
    ensures s == TrimDots(s) + dots && forall i :: 0 <= i < |dots| ==> dots[i] == '.'
    ensures TrimDots(s) != "" ==> TrimDots(s)[|TrimDots(s)| - 1] != '.'
  {
    dots := "";
    if s != "" && s[|s| - 1] == '.' {
      var rest := TrimDotsMeans(s[..|s| - 1]);
      dots := rest + ".";
    }
  }

  predicate Fits(labels: seq<Label>) {
    forall i :: 0 <= i < |labels| ==> 1 <= |labels[i]| <= 63
  }

  // Section 3.1 of RFC 1035: each label behind its length byte.
  function Wire(labels: seq<Label>): Message
    requires Fits(labels)
  {
    if labels == [] then [] else [Octet(|labels[0]|)] + labels[0] + Wire(labels[1..])
  }

  lemma {:induction false} WireAppends(labels: seq<Label>, part: Label)
    requires Fits(labels) && 1 <= |part| <= 63
    ensures Wire(labels + [part]) == Wire(labels) + [Octet(|part|)] + part
    decreases labels
  {
    if labels == [] {
      assert labels + [part] == [part];
      assert Wire([part][1..]) == [];
    } else {
      assert (labels + [part])[1..] == labels[1..] + [part];
      WireAppends(labels[1..], part);
    }
  }

  // Section 2.3.4 of RFC 1035: labels of 1 to 63 bytes, names of at most 255.
  predicate Accepted(host: string) {
    && Queried(host) != ""
    && Fits(HostLabels(host))
    && |Wire(HostLabels(host))| + 1 <= 255
  }

  const QUESTION_TAIL: Message := [0, 1, 0, 1]

  function Query(id0: byte, id1: byte, labels: seq<Label>): Message
    requires Fits(labels)
  {
    [id0, id1, 1, 0, 0, 1, 0, 0, 0, 0, 0, 0] + Wire(labels) + [0] + QUESTION_TAIL
  }

  // The length of the encoded name, if every label can be encoded.
  method NameLength(labels: seq<Label>) returns (r: Result<nat, DnsError>)
    ensures r.Ok? <==> Fits(labels)
    ensures r.Ok? ==> r.value == |Wire(labels)| + 1
    ensures r.Err? ==>
              (r.error.EmptyLabel? && [] in labels)
              || (r.error.LabelTooLong? && exists part :: part in labels && |part| == r.error.len > 63)
  {
    var total := 1;
    for i := 0 to |labels|
      invariant Fits(labels[..i]) && total == |Wire(labels[..i])| + 1
    {
      if labels[i] == [] {
        return Err(EmptyLabel);
      }
      if |labels[i]| > 63 {
        assert labels[i] in labels;
        return Err(LabelTooLong(|labels[i]|));
      }
      WireAppends(labels[..i], labels[i]);
      assert labels[..i + 1] == labels[..i] + [labels[i]];
      total := total + 1 + |labels[i]|;
    }
    assert labels[..|labels|] == labels;
    return Ok(total);
  }

  method BuildDnsQuery(host: string, id0: byte, id1: byte) returns (r: Result<Message, DnsError>)
    ensures r.Ok? <==> Accepted(host)
    ensures r.Ok? ==> r.value == Query(id0, id1, HostLabels(host))
    ensures r == Err(EmptyHost) <==> Queried(host) == ""
    ensures r == Err(HostTooLong) <==> Queried(host) != "" && Fits(HostLabels(host)) && !Accepted(host)
    ensures r == Err(EmptyLabel) ==> [] in HostLabels(host)
    ensures r.Err? && r.error.LabelTooLong? ==> exists part :: part in HostLabels(host) && |part| == r.error.len > 63
  {
    if Queried(host) == "" {
      return Err(EmptyHost);
    }
    var labels := HostLabels(host);
    var checked := NameLength(labels);
    if checked.Err? {
      return Err(checked.error);
    }
    var total := checked.value;
    if total > 255 {
      return Err(HostTooLong);
    }
    var p := PushName([id0, id1, 1, 0, 0, 1, 0, 0, 0, 0, 0, 0], labels);
    return Ok(p + [0] + QUESTION_TAIL);
  }

  method PushName(header: Message, labels: seq<Label>) returns (p: Message)
    requires Fits(labels)
    ensures p == header + Wire(labels)
  {
    p := header;
    for i := 0 to |labels|
      invariant p == header + Wire(labels[..i])
    {
      WireAppends(labels[..i], labels[i]);
      assert labels[..i + 1] == labels[..i] + [labels[i]];
      p := p + [Octet(|labels[i]|)] + labels[i];
    }
    assert labels[..|labels|] == labels;
  }

  // --- questions and answers ----------------------------------------------------------------

  datatype Question = Question(labels: seq<Label>, qtype: nat, qclass: nat)

  function BigEndian(m: Message, at: nat): nat
    requires at + 2 <= |m|
  {
    var high: int, low: int := m[at], m[at + 1];
    high * 0x100 + low
  }

  // Two bytes are a number in network order.
  lemma NetworkOrder(m: Message, at: nat, n: nat)
    requires at + 2 <= |m| && n < 0x10000
    ensures BigEndian(m, at) == n <==> m[at] == n / 0x100 && m[at + 1] == n % 0x100
  {
  }

  ghost predicate AsksAt(m: Message, start: nat, end: nat, q: Question) {
    && Denotes(m, start, Name(q.labels, end)) && end + 4 <= |m|
    && q.qtype == BigEndian(m, end) && q.qclass == BigEndian(m, end + 2)
  }

  // The question that stands at `start`.
  ghost predicate Asks(m: Message, start: nat, q: Question) {
    exists end :: AsksAt(m, start, end, q)
  }

  lemma QuestionsAreUnique(m: Message, start: nat, a: Question, b: Question)
    requires Asks(m, start, a) && Asks(m, start, b)
    ensures a == b
  {
    var i :| AsksAt(m, start, i, a);
    var j :| AsksAt(m, start, j, b);
    NamesAreUnique(m, start, Name(a.labels, i), Name(b.labels, j));
  }

  method ParseDnsQuestion(m: Message, start: nat) returns (r: Result<Question, DnsError>)
    ensures r.Ok? ==> Asks(m, start, r.value)
    ensures r.Err? ==> forall q :: !Asks(m, start, q)
    ensures r.Err? ==> if r.error == TruncatedFields then exists name :: Denotes(m, start, name) && name.end + 4 > |m|
                       else NameError(r.error) && Explains(m, start, r.error)
  {
    var name := ReadDnsName(m, start);
    if name.Err? {
      OnlyNameErrors(m, start, name.error);
      return Err(name.error);
    }
    var end := name.value.end;
    if end + 4 > |m| {
      forall q | Asks(m, start, q) ensures false {
        var e :| AsksAt(m, start, e, q);
        NamesAreUnique(m, start, name.value, Name(q.labels, e));
      }
      return Err(TruncatedFields);
    }
    r := Ok(Question(name.value.labels, BigEndian(m, end), BigEndian(m, end + 2)));
    assert AsksAt(m, start, end, r.value);
  }

  // What can be wrong with a name.
  predicate NameError(error: DnsError) {
    error in {InvalidOrCyclic, TruncatedPointer, PointerOutside, UnsupportedType, TruncatedLabel}
  }

  lemma OnlyNameErrors(m: Message, start: nat, error: DnsError)
    requires Explains(m, start, error)
    ensures NameError(error)
  {
  }

  // QR set, RCODE 0, one question: the header of a successful response.
  predicate Succeeds(resp: Message)
    requires |resp| >= 12
  {
    resp[2] >= 0x80 && resp[3] % 0x10 == 0 && BigEndian(resp, 4) == 1
  }

  predicate Truncated(resp: Message)
    requires |resp| >= 12
  {
    resp[2] / 2 % 2 == 1
  }

  // What counts as an answer: same id, successful, the same question in whatever spelling,
  // and at least one record, or a hint that the records did not fit.
  ghost predicate Answers(resp: Message, query: Message) {
    && |resp| >= 12 && |query| >= 17
    && resp[..2] == query[..2] && Succeeds(resp)
    && (exists q :: Asks(resp, 12, q) && Asks(query, 12, q))
    && (BigEndian(resp, 6) > 0 || Truncated(resp))
  }

  lemma NothingInCommon(resp: Message, query: Message, a: Question, b: Question)
    requires Asks(resp, 12, a) && Asks(query, 12, b) && a != b
    ensures forall q :: !(Asks(resp, 12, q) && Asks(query, 12, q))
  {
    forall q | Asks(resp, 12, q) && Asks(query, 12, q) ensures false {
      QuestionsAreUnique(resp, 12, q, a);
      QuestionsAreUnique(query, 12, q, b);
    }
  }

  // Why a response is no answer; errors of a question that cannot be read aside.
  ghost predicate Refuses(resp: Message, query: Message, error: DnsError) {
    match error
    case ShortPacket => |resp| < 12 || |query| < 17
    case Mismatch => |resp| >= 12 && |query| >= 17 && (resp[..2] != query[..2] || resp[2] < 0x80)
    case BadRcode(code) => |resp| >= 12 && code == resp[3] % 0x10 != 0
    case BadQdcount(count) => |resp| >= 12 && count == BigEndian(resp, 4) != 1
    case DifferentQuestion => exists a, b :: a != b && Asks(resp, 12, a) && Asks(query, 12, b)
    case NoRecords => |resp| >= 12 && BigEndian(resp, 6) == 0 && !Truncated(resp)
    case _ => (forall q :: !Asks(resp, 12, q)) || (forall q :: !Asks(query, 12, q))
  }

  method ValidateDnsResponse(resp: Message, query: Message) returns (r: Result<(), DnsError>)
    ensures r.Ok? <==> Answers(resp, query)
    ensures r.Err? ==> Refuses(resp, query, r.error)
  {
    if |resp| < 12 || |query| < 17 {
      return Err(ShortPacket);
    }
    if resp[..2] != query[..2] || resp[2] < 0x80 {
      return Err(Mismatch);
    }
    if resp[3] % 0x10 != 0 {
      return Err(BadRcode(resp[3] % 0x10));
    }
    if BigEndian(resp, 4) != 1 {
      return Err(BadQdcount(BigEndian(resp, 4)));
    }
    var asked := ParseDnsQuestion(query, 12);
    var echoed := ParseDnsQuestion(resp, 12);
    if echoed.Err? {
      return Err(echoed.error);
    }
    if asked.Err? {
      return Err(asked.error);
    }
    if echoed.value != asked.value {
      NothingInCommon(resp, query, echoed.value, asked.value);
      return Err(DifferentQuestion);
    }
    if BigEndian(resp, 6) > 0 || resp[2] % 4 >= 2 {
      return Ok(());
    }
    return Err(NoRecords);
  }

  // --- round trips ------------------------------------------------------------------------

  function LowerLabels(labels: seq<Label>): seq<Label> {
    seq(|labels|, i requires 0 <= i < |labels| => LowerAll(labels[i]))
  }

  lemma SliceOfSlice(m: Message, from: nat, to: nat, i: nat, j: nat)
    requires i <= j <= to - from && to <= |m|
    ensures m[from..to][i..j] == m[from + i..from + j]
  {
    var part := m[from..to];
    forall k | 0 <= k < j - i
      ensures part[i..j][k] == m[from + i..from + j][k]
    {
      assert part[i..j][k] == part[i + k];
    }
  }

  lemma WireHead(labels: seq<Label>)
    requires Fits(labels) && labels != []
    ensures Wire(labels) + [0] == [|labels[0]|] + labels[0] + (Wire(labels[1..]) + [0])
    ensures |Wire(labels)| == 1 + |labels[0]| + |Wire(labels[1..])|
  {
    var head := [|labels[0]|] + labels[0];
    assert Wire(labels) == head + Wire(labels[1..]);
  }

  lemma TakeApart(m: Message, at: nat, first: Label, rest: Message)
    requires |first| < 256 && at + 1 + |first| + |rest| <= |m|
    requires m[at..at + 1 + |first| + |rest|] == [|first|] + first + rest
    ensures var next := at + 1 + |first|; m[at] == |first| && m[at + 1..next] == first && m[next..next + |rest|] == rest
  {
    var n := |first|;
    var bytes := [n] + first + rest;
    assert bytes[0] == m[at..at + |bytes|][0];
    assert bytes[1..1 + n] == first && bytes[1 + n..1 + n + |rest|] == rest;
    SliceOfSlice(m, at, at + |bytes|, 1, 1 + n);
    SliceOfSlice(m, at, at + |bytes|, 1 + n, 1 + n + |rest|);
  }

  // The first label, and where the rest of the name is.
  lemma FirstLabel(m: Message, at: nat, labels: seq<Label>)
    requires Fits(labels) && labels != [] && at + |Wire(labels)| + 1 <= |m|
    requires m[at..at + |Wire(labels)| + 1] == Wire(labels) + [0]
    ensures var n := |labels[0]|; var next := at + 1 + n; var rest := Wire(labels[1..]) + [0];
            && |Wire(labels)| == 1 + n + |Wire(labels[1..])|
            && m[at] == n && m[at + 1..next] == labels[0] && m[next..next + |rest|] == rest
  {
    var rest := Wire(labels[1..]) + [0];
    WireHead(labels);
    TakeApart(m, at, labels[0], rest);
  }

  lemma FirstHop(m: Message, at: nat, first: Label)
    requires 1 <= |first| <= 63 && at + 1 + |first| <= |m| && m[at] == |first| && m[at + 1..at + 1 + |first|] == first
    ensures HopAt(m, at) == Take(LowerAll(first), at + 1 + |first|)
  {
  }

  lemma LowerInFront(labels: seq<Label>)
    requires labels != []
    ensures LowerLabels(labels) == [LowerAll(labels[0])] + LowerLabels(labels[1..])
  {
  }

  lemma FirstLabelReads(m: Message, at: nat, labels: seq<Label>, next: nat)
    requires labels != [] && HopAt(m, at) == Take(LowerAll(labels[0]), next)
    requires Ends(m, next, |labels| - 1) && LabelsFrom(m, next, |labels| - 1) == LowerLabels(labels[1..])
    ensures Ends(m, at, |labels|) && LabelsFrom(m, at, |labels|) == LowerLabels(labels)
    ensures EndFrom(m, at, |labels|) == EndFrom(m, next, |labels| - 1)
  {
    LabelInFront(m, at, LowerAll(labels[0]), next, |labels| - 1);
    LowerInFront(labels);
  }

  // An encoded name, wherever it stands, reads as its labels in lower case.
  lemma {:induction false} EncodedNameReads(m: Message, at: nat, labels: seq<Label>)
    requires Fits(labels) && at + |Wire(labels)| + 1 <= |m|
    requires m[at..at + |Wire(labels)| + 1] == Wire(labels) + [0]
    ensures Ends(m, at, |labels|)
    ensures LabelsFrom(m, at, |labels|) == LowerLabels(labels)
    ensures EndFrom(m, at, |labels|) == at + |Wire(labels)| + 1
    decreases labels
  {
    if labels == [] {
      assert m[at] == m[at..at + 1][0];
    } else {
      var next := at + 1 + |labels[0]|;
      FirstLabel(m, at, labels);
      FirstHop(m, at, labels[0]);
      EncodedNameReads(m, next, labels[1..]);
      FirstLabelReads(m, at, labels, next);
    }
  }

  // A question section: the name, then type A and class IN.
  ghost predicate EchoesAt12(m: Message, labels: seq<Label>)
    requires Fits(labels)
  {
    12 + |Wire(labels)| + 5 <= |m| && m[12..12 + |Wire(labels)| + 5] == Wire(labels) + [0] + QUESTION_TAIL
  }

  lemma NameAndTail(m: Message, at: nat, name: Message, tail: Message)
    requires at + |name| + 4 <= |m| && |tail| == 4 && m[at..at + |name| + 4] == name + tail
    ensures m[at..at + |name|] == name
    ensures forall i :: 0 <= i < 4 ==> m[at + |name| + i] == tail[i]
  {
    var end := at + |name|;
    SliceOfSlice(m, at, end + 4, 0, |name|);
    SliceOfSlice(m, at, end + 4, |name|, |name| + 4);
    assert (name + tail)[..|name|] == name && (name + tail)[|name|..] == tail;
    var read := m[end..end + 4];
    assert forall i :: 0 <= i < 4 ==> read[i] == m[end + i];
  }

  lemma DenotedBy(m: Message, start: nat, n: nat)
    requires Ends(m, start, n)
    ensures Denotes(m, start, Name(LabelsFrom(m, start, n), EndFrom(m, start, n)))
  {
  }

  lemma EchoedQuestion(m: Message, labels: seq<Label>)
    requires Fits(labels) && EchoesAt12(m, labels)
    ensures Asks(m, 12, Question(LowerLabels(labels), 1, 1))
  {
    var end := 12 + |Wire(labels)| + 1;
    var name := Wire(labels) + [0];
    assert m[12..end + 4] == name + QUESTION_TAIL;
    NameAndTail(m, 12, name, QUESTION_TAIL);
    EncodedNameReads(m, 12, labels);
    DenotedBy(m, 12, |labels|);
    NetworkOrder(m, end, 1);
    NetworkOrder(m, end + 2, 1);
    assert AsksAt(m, 12, end, Question(LowerLabels(labels), 1, 1));
  }

  // For every accepted host the query asks, at the usual place and only there, for the
  // host's labels in lower case, type A, class IN; the name fits RFC 1035's 255 bytes.
  lemma QueryAsksForItsHost(host: string, id0: byte, id1: byte, q: Question)
    requires Accepted(host)
    ensures var query := Query(id0, id1, HostLabels(host));
            && (Asks(query, 12, q) <==> q == Question(LowerLabels(HostLabels(host)), 1, 1))
            && |query| - 16 <= 255
  {
    var query := Query(id0, id1, HostLabels(host));
    assert EchoesAt12(query, HostLabels(host));
    EchoedQuestion(query, HostLabels(host));
    if Asks(query, 12, q) {
      QuestionsAreUnique(query, 12, q, Question(LowerLabels(HostLabels(host)), 1, 1));
    }
  }

  // A successful response with records that echoes the question is accepted, whatever the
  // ASCII case of the echoed labels (RFC 1035 section 2.3.3) and whatever follows.
  lemma EveryEchoIsAccepted(host: string, id0: byte, id1: byte, resp: Message, echoed: seq<Label>)
    requires Accepted(host) && Fits(echoed) && SameNames(echoed, HostLabels(host))
    requires |resp| >= 12 && resp[..2] == [id0, id1] && Succeeds(resp) && BigEndian(resp, 6) > 0
    requires EchoesAt12(resp, echoed)
    ensures Answers(resp, Query(id0, id1, HostLabels(host)))
  {
    forall i | 0 <= i < |echoed|
      ensures LowerAll(echoed[i]) == LowerAll(HostLabels(host)[i])
    {
      FoldingMeans(echoed[i], HostLabels(host)[i]);
    }
    assert LowerLabels(echoed) == LowerLabels(HostLabels(host));
    EchoedQuestion(resp, echoed);
    var query := Query(id0, id1, HostLabels(host));
    assert query[..2] == [id0, id1];
    QueryAsksForItsHost(host, id0, id1, Question(LowerLabels(HostLabels(host)), 1, 1));
    assert |Wire(HostLabels(host))| >= 1;
  }

  // And a response about any other name, type or class never is: the question it echoes is spelled
  // with the letters of the host, byte by byte, in whatever case.
  lemma NothingElseIsAccepted(host: string, id0: byte, id1: byte, resp: Message)
    requires Accepted(host) && Answers(resp, Query(id0, id1, HostLabels(host)))
    ensures Asks(resp, 12, Question(LowerLabels(HostLabels(host)), 1, 1))
    ensures exists n: nat :: Ends(resp, 12, n) && SameNames(SpelledFrom(resp, 12, n), HostLabels(host))
  {
    var q :| Asks(resp, 12, q) && Asks(Query(id0, id1, HostLabels(host)), 12, q);
    QueryAsksForItsHost(host, id0, id1, q);
    var end :| AsksAt(resp, 12, end, q);
    var n: nat :| Ends(resp, 12, n) && LabelsFrom(resp, 12, n) == q.labels && EndFrom(resp, 12, n) == end;
    SpelledAlike(resp, 12, n);
    forall i | 0 <= i < |q.labels|
      ensures SameLetters(SpelledFrom(resp, 12, n)[i], HostLabels(host)[i])
    {
      FoldingMeans(SpelledFrom(resp, 12, n)[i], HostLabels(host)[i]);
    }
  }
}
