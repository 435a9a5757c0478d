/** Rust's string operations used by the modelled code: trimming, splitting and line iteration. */
module Text {

  // `char::is_whitespace`: the Unicode White_Space property.
  predicate IsWhitespace(c: char) {
    var n := c as int;
    9 <= n <= 13 || n == 0x20 || n == 0x85 || n == 0xA0 || n == 0x1680 || 0x2000 <= n <= 0x200A
    || n == 0x2028 || n == 0x2029 || n == 0x202F || n == 0x205F || n == 0x3000
  }

  function TrimStart(s: string): (t: string)
    ensures |t| <= |s|
    ensures t != "" ==> !IsWhitespace(t[0])
  {
    if s != "" && IsWhitespace(s[0]) then TrimStart(s[1..]) else s
  }

  function TrimEnd(s: string): (t: string)
    ensures t <= s
    ensures t != "" ==> !IsWhitespace(t[|t| - 1])
  {
    if s != "" && IsWhitespace(s[|s| - 1]) then TrimEnd(s[..|s| - 1]) else s
  }

  // `str::trim`
  function Trim(s: string): string {
    TrimStart(TrimEnd(s))
  }

  // The pieces of `s` between the separators, at least one.
  function Split(s: string, separator: char): (parts: seq<string>)
    ensures parts != []
  {
    if s == "" then [""]
    else if s[0] == separator then [""] + Split(s[1..], separator)
    else
      var rest := Split(s[1..], separator);
      [[s[0]] + rest[0]] + rest[1..]
  }

  function LowerChar(c: char): char {
    if 'A' <= c <= 'Z' then (c as int + 32) as char else c
  }

  // `str::to_ascii_lowercase`
  function LowerAscii(s: string): (lower: string)
    ensures |lower| == |s|
  {
    seq(|s|, i requires 0 <= i < |s| => LowerChar(s[i]))
  }

  lemma TrimTwice(s: string)
    ensures Trim(Trim(s)) == Trim(s)
    ensures Trim(s) != "" ==> !IsWhitespace(Trim(s)[0]) && !IsWhitespace(Trim(s)[|Trim(s)| - 1])
  {
    if TrimEnd(s) != "" {
      StartKeepsEnd(TrimEnd(s));
    }
  }

  lemma {:induction false} StartKeepsEnd(s: string)
    requires s != "" && !IsWhitespace(s[|s| - 1])
    ensures TrimStart(s) != "" && TrimStart(s)[|TrimStart(s)| - 1] == s[|s| - 1]
  {
    if IsWhitespace(s[0]) {
      StartKeepsEnd(s[1..]);
    }
  }

  lemma TrimmedPart(s: string, c: char)
    requires forall i :: 0 <= i < |s| ==> s[i] != c
    ensures forall i :: 0 <= i < |Trim(s)| ==> Trim(s)[i] != c
  {
    StartPart(TrimEnd(s), c);
  }

  lemma {:induction false} StartPart(s: string, c: char)
    requires forall i :: 0 <= i < |s| ==> s[i] != c
    ensures forall i :: 0 <= i < |TrimStart(s)| ==> TrimStart(s)[i] != c
  {
    if s != "" && IsWhitespace(s[0]) {
      StartPart(s[1..], c);
    }
  }

  // --- what the functions mean ------------------------------------------------------------------

  predicate Blank(s: string) {
    forall i :: 0 <= i < |s| ==> IsWhitespace(s[i])
  }

  // The twenty-five characters of the Unicode property White_Space.
  const BLANKS := {9, 10, 11, 12, 13, 32, 133, 160, 5760,
                   8192, 8193, 8194, 8195, 8196, 8197, 8198, 8199, 8200, 8201, 8202, 8232, 8233, 8239, 8287, 12288}

  lemma WhichAreBlank(c: char)
    ensures IsWhitespace(c) <==> c as int in BLANKS
  {
  }

  // Trimming takes blanks off both ends, and all of them.
  lemma TrimMeans(s: string) returns (front: string, back: string)
    ensures s == front + Trim(s) + back && Blank(front) && Blank(back)
    ensures Trim(s) != "" ==> !IsWhitespace(Trim(s)[0]) && !IsWhitespace(Trim(s)[|Trim(s)| - 1])
  {
    back := TrimEndMeans(s);
    front := TrimStartMeans(TrimEnd(s));
    TrimTwice(s);
  }

  lemma {:induction false} TrimEndMeans(s: string) returns (back: string)
    ensures s == TrimEnd(s) + back && Blank(back)
  {
    back := "";
    if s != "" && IsWhitespace(s[|s| - 1]) {
      var rest := TrimEndMeans(s[..|s| - 1]);
      back := rest + [s[|s| - 1]];
    }
  }

  lemma {:induction false} TrimStartMeans(s: string) returns (front: string)
    ensures s == front + TrimStart(s) && Blank(front)
  {
    front := "";
    if s != "" && IsWhitespace(s[0]) {
      var rest := TrimStartMeans(s[1..]);
      front := [s[0]] + rest;
    }
  }

  function JoinWith(parts: seq<string>, separator: char): string
    requires parts != []
  {
    if |parts| == 1 then parts[0] else parts[0] + [separator] + JoinWith(parts[1..], separator)
  }

  // Splitting loses nothing, and leaves no separator in a piece.
  lemma {:induction false} SplitMeans(s: string, separator: char)
    ensures JoinWith(Split(s, separator), separator) == s
    ensures forall part :: part in Split(s, separator) ==> separator !in part
  {
    if s != "" {
      var rest, parts := Split(s[1..], separator), Split(s, separator);
      SplitMeans(s[1..], separator);
      if s[0] == separator {
        assert parts[1..] == rest && parts[0] == "";
      } else {
        assert parts[1..] == rest[1..] && parts[0] == [s[0]] + rest[0];
        assert forall part :: part in rest[1..] ==> part in rest;
      }
    }
  }

  lemma {:induction false} SplitOff(part: string, rest: string, separator: char)
    requires separator !in part
    ensures Split(part, separator) == [part]
    ensures Split(part + [separator] + rest, separator) == [part] + Split(rest, separator)
    decreases part
  {
    var s := part + [separator] + rest;
    if part == "" {
      assert s[1..] == rest;
    } else {
      assert part[0] in part && part[0] != separator;
      SplitOff(part[1..], rest, separator);
      assert s[1..] == part[1..] + [separator] + rest;
      assert [part[0]] + part[1..] == part;
      assert ([part[1..]] + Split(rest, separator))[1..] == Split(rest, separator);
    }
  }

  // The same letter in either case, or the same character.
  predicate SameLetter(a: char, b: char) {
    var m, n := a as int, b as int;
    m == n || (65 <= m <= 90 && n == m + 32) || (65 <= n <= 90 && m == n + 32)
  }

  // Lower case takes exactly the two cases of an ASCII letter together, and leaves no capital.
  lemma LowerMeans(s: string, t: string)
    ensures LowerAscii(s) == LowerAscii(t) <==> |s| == |t| && forall i :: 0 <= i < |s| ==> SameLetter(s[i], t[i])
    ensures forall i :: 0 <= i < |s| ==> !('A' <= LowerAscii(s)[i] <= 'Z') && SameLetter(s[i], LowerAscii(s)[i])
  {
    if LowerAscii(s) == LowerAscii(t) {
      assert |s| == |t|;
      forall i | 0 <= i < |s|
        ensures SameLetter(s[i], t[i])
      {
        assert LowerAscii(s)[i] == LowerAscii(t)[i];
      }
    }
  }
}
