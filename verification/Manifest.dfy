/** The checksum manifest lookup of the updater (`expected_digest_from_manifest`,
    src/bin/sshknockd.rs). */
module Manifest {
  import opened Base

  /** Unicode white space, as `trim` and `split_whitespace` understand it. */
  predicate IsBlank(c: char) {
    var n := c as int;
    9 <= n <= 13 || n == 0x20 || n == 0x85 || n == 0xA0 || n == 0x1680 || 0x2000 <= n <= 0x200A
    || n == 0x2028 || n == 0x2029 || n == 0x202F || n == 0x205F || n == 0x3000
  }

  /** The length of the longest prefix without the newline character. */
  function LineLength(s: string): (n: nat)
    ensures n <= |s| && (n < |s| ==> s[n] == '\n') && '\n' !in s[..n]
  {
    if s == [] || s[0] == '\n' then 0 else 1 + LineLength(s[1..])
  }

  /** `str::lines`; a carriage return left at the end of a line is blank. */
  function Lines(s: string): seq<string> {
    if s == [] then []
    else
      var n := LineLength(s);
      [s[..n]] + if n < |s| then Lines(s[n + 1..]) else []
  }

  /** The length of the longest prefix without blanks. */
  function WordLength(s: string): (n: nat)
    ensures n <= |s| && (n < |s| ==> IsBlank(s[n])) && (forall i | 0 <= i < n :: !IsBlank(s[i]))
  {
    if s == [] || IsBlank(s[0]) then 0 else 1 + WordLength(s[1..])
  }

  /** `split_whitespace`; trimming first makes no difference to it. */
  function Fields(s: string): seq<string>
    decreases |s|
  {
    if s == [] then []
    else if IsBlank(s[0]) then Fields(s[1..])
    else [s[..WordLength(s)]] + Fields(s[WordLength(s)..])
  }

  predicate IsHexDigit(c: char) {
    '0' <= c <= '9' || 'a' <= c <= 'f' || 'A' <= c <= 'F'
  }

  /** `validate_sha256_hex`. */
  predicate IsSha256(d: string) {
    |d| == 64 && forall i | 0 <= i < |d| :: IsHexDigit(d[i])
  }

  const HEX_DIGITS := "0123456789abcdefABCDEF"

  /** A SHA-256 digest in hexadecimal. */
  predicate Sha256Hex(d: string) {
    |d| == 64 && forall i | 0 <= i < |d| :: d[i] in HEX_DIGITS
  }

  lemma {:induction false} HexDigit(ch: char)
    ensures IsHexDigit(ch) <==> ch in HEX_DIGITS
  {
  }

  lemma {:induction false} Sha256Means(d: string)
    ensures IsSha256(d) <==> Sha256Hex(d)
  {
    forall i | 0 <= i < |d|
      ensures IsHexDigit(d[i]) <==> d[i] in HEX_DIGITS
    {
      HexDigit(d[i]);
    }
  }

  /** The name without the mark of a binary-mode entry. */
  function Unstarred(name: string): string {
    if name != [] && name[0] == '*' then name[1..] else name
  }

  /** A line that is blank or has exactly two fields. */
  predicate Proper(line: string) {
    |Fields(line)| == 0 || |Fields(line)| == 2
  }

  predicate Names(line: string, package: string) {
    |Fields(line)| == 2 && Unstarred(Fields(line)[1]) == package
  }

  /** The lines list the package once, with this digest, and no line is malformed. */
  ghost predicate Listed(lines: seq<string>, package: string, digest: string) {
    && (forall i | 0 <= i < |lines| :: Proper(lines[i]))
    && Sha256Hex(digest)
    && exists k :: 0 <= k < |lines| && Names(lines[k], package) && Fields(lines[k])[0] == digest
                   && forall i | 0 <= i < |lines| && i != k :: !Names(lines[i], package)
  }

  /** What is known after some lines: all are proper, and the one match, if any, is at `at`. */
  ghost predicate MatchedSoFar(lines: seq<string>, package: string, matched: Option<string>, at: nat) {
    && (forall j | 0 <= j < |lines| :: Proper(lines[j]))
    && (forall j | 0 <= j < |lines| :: Names(lines[j], package) ==> matched.Some? && j == at)
    && (matched.Some? ==> at < |lines| && Names(lines[at], package) && Fields(lines[at])[0] == matched.value
                          && Sha256Hex(matched.value))
  }

  lemma {:induction false} MatchDecides(lines: seq<string>, package: string, matched: Option<string>, at: nat)
    requires MatchedSoFar(lines, package, matched, at)
    ensures forall d :: matched == Some(d) <==> Listed(lines, package, d)
  {
    forall d
      ensures matched == Some(d) <==> Listed(lines, package, d)
    {
    }
  }

  lemma {:induction false} OneBadLine(lines: seq<string>, package: string, i: nat, at: nat)
    requires i < |lines|
    requires !Proper(lines[i])
             || (Names(lines[i], package)
                 && (!Sha256Hex(Fields(lines[i])[0]) || (at < i && Names(lines[at], package))))
    ensures forall d :: !Listed(lines, package, d)
  {
  }

  /** The lookup. */
  method ExpectedDigest(manifest: string, package: string) returns (r: Option<string>)
    ensures forall lines, d | SplitsInto(manifest, lines) :: r == Some(d) <==> Listed(lines, package, d)
  {
    r := DigestOfLines(Lines(manifest), package);
    SplitsOneWay(manifest, package);
  }

  /** One pass over the lines, leaving at the first thing that is wrong. */
  method DigestOfLines(lines: seq<string>, package: string) returns (r: Option<string>)
    ensures forall d :: r == Some(d) <==> Listed(lines, package, d)
  {
    var matched: Option<string> := None;
    ghost var at := 0;
    for i := 0 to |lines|
      invariant MatchedSoFar(lines[..i], package, matched, at)
    {
      assert lines[..i + 1] == lines[..i] + [lines[i]];
      assert at < i ==> lines[..i][at] == lines[at];
      var fields := Fields(lines[i]);
      if |fields| == 0 { continue; }
      if |fields| != 2 {
        OneBadLine(lines, package, i, at);
        return None;
      }
      if Unstarred(fields[1]) == package {
        Sha256Means(fields[0]);
        if !IsSha256(fields[0]) {
          OneBadLine(lines, package, i, at);
          return None;
        }
        if matched.Some? {
          OneBadLine(lines, package, i, at);
          return None;
        }
        matched, at := Some(fields[0]), i;
      }
    }
    assert lines[..|lines|] == lines;
    MatchDecides(lines, package, matched, at);
    return matched;
  }

  // ---------------------------------------------------------------------------
  // What lines and fields are
  // ---------------------------------------------------------------------------

  /** The lines, with a newline between any two of them. */
  function Joined(lines: seq<string>): string
    requires lines != []
  {
    if |lines| == 1 then lines[0] else lines[0] + "\n" + Joined(lines[1..])
  }

  /** The text split at each of its newlines. */
  ghost predicate SplitsInto(text: string, lines: seq<string>) {
    lines != [] && (forall i | 0 <= i < |lines| :: '\n' !in lines[i]) && text == Joined(lines)
  }

  /** All but an empty last one. */
  function WithoutEmptyLast(lines: seq<string>): seq<string>
    requires lines != []
  {
    if lines[|lines| - 1] == "" then lines[..|lines| - 1] else lines
  }

  lemma {:induction false} WholeLine(line: string)
    requires '\n' !in line
    ensures LineLength(line) == |line|
    decreases |line|
  {
    if line != [] {
      WholeLine(line[1..]);
    }
  }

  lemma {:induction false} SplitRest(text: string, lines: seq<string>)
    requires SplitsInto(text, lines)
    ensures LineLength(text) == |lines[0]| && text[..|lines[0]|] == lines[0]
    ensures |lines| == 1 <==> |lines[0]| == |text|
    ensures |lines| > 1 ==> SplitsInto(text[|lines[0]| + 1..], lines[1..])
    ensures |lines| > 1 ==> Lines(text) == [lines[0]] + Lines(text[|lines[0]| + 1..])
  {
    if |lines| == 1 {
      assert text[..|text|] == text;
      WholeLine(text);
    } else {
      LineLengthOf(lines[0], Joined(lines[1..]));
      FirstLine(lines[0], Joined(lines[1..]));
      assert text[|lines[0]| + 1..] == Joined(lines[1..]);
    }
  }

  lemma {:induction false} LinesOfSplit(text: string, lines: seq<string>)
    requires SplitsInto(text, lines)
    ensures Lines(text) == WithoutEmptyLast(lines)
    decreases |lines|
  {
    SplitRest(text, lines);
    if |lines| > 1 {
      LinesOfSplit(text[|lines[0]| + 1..], lines[1..]);
    }
  }

  lemma {:induction false} SplitUnique(text: string, lines: seq<string>, others: seq<string>)
    requires SplitsInto(text, lines) && SplitsInto(text, others)
    ensures lines == others
    decreases |lines|
  {
    SplitRest(text, lines);
    SplitRest(text, others);
    assert lines == [lines[0]] + lines[1..] && others == [others[0]] + others[1..];
    if |lines| > 1 {
      SplitUnique(text[|lines[0]| + 1..], lines[1..], others[1..]);
    }
  }

  lemma {:induction false} Split(text: string) returns (lines: seq<string>)
    ensures SplitsInto(text, lines)
    decreases |text|
  {
    var n := LineLength(text);
    if n < |text| {
      var rest := Split(text[n + 1..]);
      lines := [text[..n]] + rest;
      assert lines[1..] == rest;
      assert text == text[..n] + "\n" + text[n + 1..];
    } else {
      lines := [text];
      assert text[..n] == text;
    }
  }

  /** The lines are the text split at its newlines, which can be done in one way only. An
      empty last line does not count, so it matters nothing whether the text ends with a
      newline. */
  lemma {:induction false} LinesExactly(text: string)
    ensures exists lines :: SplitsInto(text, lines)
    ensures forall lines | SplitsInto(text, lines) :: Lines(text) == WithoutEmptyLast(lines)
    ensures forall lines, others | SplitsInto(text, lines) && SplitsInto(text, others) :: lines == others
  {
    var some := Split(text);
    forall lines | SplitsInto(text, lines)
      ensures Lines(text) == WithoutEmptyLast(lines) && lines == some
    {
      LinesOfSplit(text, lines);
      SplitUnique(text, lines, some);
    }
  }

  lemma {:induction false} EmptyLastUnlisted(lines: seq<string>, package: string, digest: string)
    requires lines != []
    ensures Listed(WithoutEmptyLast(lines), package, digest) <==> Listed(lines, package, digest)
  {
    var n := |lines| - 1;
    if lines[n] == "" {
      var front := lines[..n];
      assert Fields(lines[n]) == [];
      if Listed(lines, package, digest) {
        var k :| 0 <= k < |lines| && Names(lines[k], package) && Fields(lines[k])[0] == digest
                 && forall i | 0 <= i < |lines| && i != k :: !Names(lines[i], package);
        assert front[k] == lines[k];
      }
    }
  }

  lemma {:induction false} SplitsOneWay(text: string, package: string)
    ensures forall lines, d | SplitsInto(text, lines) :: Listed(Lines(text), package, d) <==> Listed(lines, package, d)
  {
    forall lines, d | SplitsInto(text, lines)
      ensures Listed(Lines(text), package, d) <==> Listed(lines, package, d)
    {
      LinesOfSplit(text, lines);
      EmptyLastUnlisted(lines, package, d);
    }
  }

  /** The white space of Unicode, one code point after the other. */
  lemma {:induction false} BlankExactly(ch: char)
    ensures IsBlank(ch) <==>
            ch as int in {9, 10, 11, 12, 13, 32, 133, 160, 5760, 8192, 8193, 8194, 8195, 8196, 8197, 8198, 8199,
                          8200, 8201, 8202, 8232, 8233, 8239, 8287, 12288}
  {
  }

  predicate IsWord(s: string) {
    s != [] && forall i | 0 <= i < |s| :: !IsBlank(s[i])
  }

  predicate AllBlank(s: string) {
    forall i | 0 <= i < |s| :: IsBlank(s[i])
  }

  /** The words with a gap before each of them and one behind the last. */
  function Woven(gaps: seq<string>, words: seq<string>): string
    requires |gaps| == |words| + 1
  {
    if words == [] then gaps[0] else gaps[0] + (words[0] + Woven(gaps[1..], words[1..]))
  }

  /** The line consists of these words, with blanks between them, and perhaps in front and behind. */
  ghost predicate Spaced(line: string, gaps: seq<string>, words: seq<string>) {
    && |gaps| == |words| + 1 && line == Woven(gaps, words)
    && (forall i | 0 <= i < |gaps| :: AllBlank(gaps[i])) && (forall i | 0 <= i < |words| :: IsWord(words[i]))
    && (forall i | 0 < i < |words| :: gaps[i] != [])
  }

  lemma {:induction false} WovenFront(gaps: seq<string>, words: seq<string>)
    requires |gaps| == |words| + 1 && gaps[0] != [] && AllBlank(gaps[0])
    ensures Woven(gaps, words) != [] && IsBlank(Woven(gaps, words)[0])
  {
    assert Woven(gaps, words)[0] == gaps[0][0];
  }

  lemma {:induction false} FieldsOfSpaced(line: string, gaps: seq<string>, words: seq<string>)
    requires Spaced(line, gaps, words)
    ensures Fields(line) == words
    decreases |words|
  {
    if words == [] {
      assert gaps[0] + "" == gaps[0];
      FieldsSkipBlank(gaps[0], "");
    } else {
      var rest := Woven(gaps[1..], words[1..]);
      if |words| > 1 {
        WovenFront(gaps[1..], words[1..]);
      }
      FieldsSkipBlank(gaps[0], words[0] + rest);
      FieldsOfWord(words[0], rest);
      FieldsOfSpaced(rest, gaps[1..], words[1..]);
    }
  }

  /** The length of the longest prefix of blanks. */
  function GapLength(s: string): (n: nat)
    ensures n <= |s| && (n < |s| ==> !IsBlank(s[n])) && AllBlank(s[..n])
  {
    if s == [] || !IsBlank(s[0]) then 0 else 1 + GapLength(s[1..])
  }

  lemma {:induction false} SpacedOn(gap: string, word: string, rest: string, gaps: seq<string>, words: seq<string>)
    requires Spaced(rest, gaps, words) && AllBlank(gap) && IsWord(word) && (words != [] ==> gaps[0] != [])
    ensures Spaced(gap + (word + rest), [gap] + gaps, [word] + words)
  {
    assert ([gap] + gaps)[1..] == gaps && ([word] + words)[1..] == words;
  }

  /** Every line is made of words with blanks between them, and begins with a gap if with a blank. */
  lemma {:induction false} Space(line: string) returns (gaps: seq<string>, words: seq<string>)
    ensures Spaced(line, gaps, words)
    ensures line != [] && IsBlank(line[0]) ==> gaps[0] != []
    ensures line == [] ==> words == []
    decreases |line|
  {
    var n := GapLength(line);
    var gap, rest := line[..n], line[n..];
    assert line == gap + rest;
    if rest == [] {
      assert gap == line && gap + [] == gap;
      gaps, words := [gap], [];
      assert Woven([gap], []) == gap;
    } else {
      var m := WordLength(rest);
      var word, more := rest[..m], rest[m..];
      assert rest == word + more && rest[0] == line[n];
      assert more != [] ==> more[0] == rest[m];
      var g, w := Space(more);
      SpacedOn(gap, word, more, g, w);
      gaps, words := [gap] + g, [word] + w;
    }
  }

  /** The fields are the words of the line: it consists of them, with blanks between them,
      and of no other words. */
  lemma {:induction false} FieldsExactly(line: string, words: seq<string>)
    ensures Fields(line) == words <==> exists gaps :: Spaced(line, gaps, words)
  {
    if gaps :| Spaced(line, gaps, words) {
      FieldsOfSpaced(line, gaps, words);
    }
    var g, w := Space(line);
    FieldsOfSpaced(line, g, w);
  }

  // ---------------------------------------------------------------------------
  // Order does not matter
  // ---------------------------------------------------------------------------

  /** The same said of a multiset of lines. */
  ghost predicate ListedIn(lines: multiset<string>, package: string, digest: string) {
    && (forall x | x in lines :: Proper(x))
    && Sha256Hex(digest)
    && exists x :: x in lines && lines[x] == 1 && Names(x, package) && Fields(x)[0] == digest
                   && forall y | y in lines && y != x :: !Names(y, package)
  }

  lemma {:induction false} OnceIn(lines: seq<string>, k: nat)
    requires k < |lines|
    ensures multiset(lines)[lines[k]] == 1 <==> forall i | 0 <= i < |lines| && i != k :: lines[i] != lines[k]
  {
    var a, x, b := lines[..k], lines[k], lines[k + 1..];
    assert lines == a + [x] + b;
    assert multiset(lines)[x] == multiset(a)[x] + 1 + multiset(b)[x];
    assert multiset(a)[x] == 0 <==> x !in a;
    assert multiset(b)[x] == 0 <==> x !in b;
    if forall i | 0 <= i < |lines| && i != k :: lines[i] != x {
      assert forall i | 0 <= i < |b| :: b[i] == lines[k + 1 + i];
    } else {
      var i :| 0 <= i < |lines| && i != k && lines[i] == x;
      assert if i < k then a[i] == x else b[i - k - 1] == x;
    }
  }

  lemma {:induction false} ListedIsUnordered(lines: seq<string>, package: string, digest: string)
    ensures Listed(lines, package, digest) <==> ListedIn(multiset(lines), package, digest)
  {
    if Listed(lines, package, digest) {
      var k :| 0 <= k < |lines| && Names(lines[k], package) && Fields(lines[k])[0] == digest
               && forall i | 0 <= i < |lines| && i != k :: !Names(lines[i], package);
      OnceIn(lines, k);
      assert lines[k] in multiset(lines);
    }
    if ListedIn(multiset(lines), package, digest) {
      var x :| x in multiset(lines) && multiset(lines)[x] == 1 && Names(x, package) && Fields(x)[0] == digest
               && forall y | y in multiset(lines) && y != x :: !Names(y, package);
      var k :| 0 <= k < |lines| && lines[k] == x;
      OnceIn(lines, k);
      assert forall i | 0 <= i < |lines| && i != k :: lines[i] in multiset(lines);
    }
  }

  /** The answer depends on which lines there are, not on their order, and proper lines
      for other packages neither help nor hurt. */
  lemma {:induction false} OthersAndOrderIgnored(lines: seq<string>, more: seq<string>, all: seq<string>,
                                                 package: string, digest: string)
    requires multiset(all) == multiset(lines) + multiset(more)
    requires forall i | 0 <= i < |more| :: Proper(more[i]) && !Names(more[i], package)
    ensures Listed(all, package, digest) <==> Listed(lines, package, digest)
  {
    ListedIsUnordered(all, package, digest);
    ListedIsUnordered(lines, package, digest);
    var m, n, u := multiset(lines), multiset(more), multiset(all);
    assert forall x | x in n :: x in more;
    assert forall x | Names(x, package) :: n[x] == 0 && u[x] == m[x];
    if ListedIn(m, package, digest) {
      var x :| x in m && m[x] == 1 && Names(x, package) && Fields(x)[0] == digest
               && forall y | y in m && y != x :: !Names(y, package);
      assert x in u && u[x] == 1;
    }
    if ListedIn(u, package, digest) {
      var x :| x in u && u[x] == 1 && Names(x, package) && Fields(x)[0] == digest
               && forall y | y in u && y != x :: !Names(y, package);
      assert x in m && m[x] == 1;
      assert forall y | y in m :: y in u;
    }
  }

  // ---------------------------------------------------------------------------
  // Round trip
  // ---------------------------------------------------------------------------

  datatype Entry = Entry(digest: string, binary: bool, name: string)

  predicate WellFormedEntry(e: Entry) {
    Sha256Hex(e.digest) && IsWord(e.name) && (e.binary || e.name[0] != '*')
  }

  function NameField(e: Entry): string {
    if e.binary then "*" + e.name else e.name
  }

  /** A line of a manifest: blank, or an entry with blanks before, between and behind its fields. */
  datatype Row = Blank(space: string) | Listing(indent: string, entry: Entry, gap: string, trail: string)

  /** Spaces, tabs and carriage returns. */
  predicate IsSpace(s: string) {
    forall i | 0 <= i < |s| :: s[i] in " \t\r"
  }

  predicate WellFormedRow(row: Row) {
    match row
    case Blank(space) => IsSpace(space)
    case Listing(indent, entry, gap, trail) =>
      IsSpace(indent) && IsSpace(gap) && IsSpace(trail) && gap != [] && WellFormedEntry(entry)
  }

  function RowText(row: Row): string {
    match row
    case Blank(space) => space
    case Listing(indent, entry, gap, trail) => indent + (entry.digest + (gap + (NameField(entry) + trail)))
  }

  /** The rows as a text. It ends with a newline if the last row is empty. */
  function Render(rows: seq<Row>): string
    requires rows != []
  {
    Joined(TextsOf(rows))
  }

  function TextsOf(rows: seq<Row>): (lines: seq<string>)
    ensures |lines| == |rows|
  {
    seq(|rows|, i requires 0 <= i < |rows| => RowText(rows[i]))
  }

  lemma {:induction false} WordLengthOf(w: string, rest: string)
    requires forall i | 0 <= i < |w| :: !IsBlank(w[i])
    requires rest != [] ==> IsBlank(rest[0])
    ensures WordLength(w + rest) == |w|
    decreases |w|
  {
    if w == [] {
      assert w + rest == rest;
    } else {
      assert (w + rest)[1..] == w[1..] + rest;
      WordLengthOf(w[1..], rest);
    }
  }

  lemma {:induction false} FieldsOfWord(w: string, rest: string)
    requires IsWord(w) && (rest != [] ==> IsBlank(rest[0]))
    ensures Fields(w + rest) == [w] + Fields(rest)
  {
    WordLengthOf(w, rest);
    assert (w + rest)[0] == w[0];
    assert (w + rest)[..|w|] == w && (w + rest)[|w|..] == rest;
  }

  lemma {:induction false} FieldsSkipBlank(blanks: string, rest: string)
    requires forall i | 0 <= i < |blanks| :: IsBlank(blanks[i])
    ensures Fields(blanks + rest) == Fields(rest)
    decreases |blanks|
  {
    if blanks == [] {
      assert blanks + rest == rest;
    } else {
      assert (blanks + rest)[1..] == blanks[1..] + rest;
      FieldsSkipBlank(blanks[1..], rest);
    }
  }

  lemma {:induction false} DigestIsWord(d: string)
    requires Sha256Hex(d)
    ensures IsWord(d)
  {
    forall i | 0 <= i < |d|
      ensures !IsBlank(d[i])
    {
      HexDigit(d[i]);
    }
  }

  lemma {:induction false} NameFieldIsWord(e: Entry)
    requires WellFormedEntry(e)
    ensures IsWord(NameField(e)) && Unstarred(NameField(e)) == e.name
  {
    if e.binary {
      var field := "*" + e.name;
      assert field[1..] == e.name;
      assert forall i | 1 <= i < |field| :: field[i] == e.name[i - 1];
    }
  }

  lemma {:induction false} SpaceIsBlank(s: string)
    requires IsSpace(s)
    ensures AllBlank(s) && '\n' !in s
  {
  }

  lemma {:induction false} WordHasNoNewline(s: string)
    requires IsWord(s)
    ensures '\n' !in s
  {
  }

  lemma {:induction false} NoNewline(a: string, b: string)
    requires '\n' !in a && '\n' !in b
    ensures '\n' !in a + b
  {
  }

  lemma {:induction false} TwoFields(indent: string, w: string, gap: string, v: string, trail: string)
    requires AllBlank(indent) && IsWord(w) && AllBlank(gap) && gap != [] && IsWord(v) && AllBlank(trail)
    ensures Fields(indent + (w + (gap + (v + trail)))) == [w, v]
  {
    var gaps, words := [indent, gap, trail], [w, v];
    assert gaps[1..] == [gap, trail] && gaps[1..][1..] == [trail] && words[1..] == [v];
    assert Woven([trail], []) == trail && Woven([gap, trail], [v]) == gap + (v + trail);
    FieldsOfSpaced(Woven(gaps, words), gaps, words);
    assert Woven(gaps, words) == indent + (w + (gap + (v + trail)));
  }

  lemma {:induction false} RowHasNoNewline(row: Row)
    requires WellFormedRow(row)
    ensures '\n' !in RowText(row)
  {
    if row.Listing? {
      var name := NameField(row.entry);
      DigestIsWord(row.entry.digest);
      NameFieldIsWord(row.entry);
      WordHasNoNewline(name);
      WordHasNoNewline(row.entry.digest);
      NoNewline(name, row.trail);
      NoNewline(row.gap, name + row.trail);
      NoNewline(row.entry.digest, row.gap + (name + row.trail));
      NoNewline(row.indent, row.entry.digest + (row.gap + (name + row.trail)));
    }
  }

  /** The line says what the row says. */
  ghost predicate Mirrors(line: string, row: Row) {
    match row
    case Blank(_) => Fields(line) == []
    case Listing(_, entry, _, _) =>
      |Fields(line)| == 2 && Fields(line)[0] == entry.digest && Unstarred(Fields(line)[1]) == entry.name
  }

  lemma {:induction false} RowMirrored(row: Row)
    requires WellFormedRow(row)
    ensures Mirrors(RowText(row), row)
  {
    match row
    case Blank(space) =>
      assert space + "" == space;
      FieldsSkipBlank(space, "");
    case Listing(indent, entry, gap, trail) =>
      DigestIsWord(entry.digest);
      NameFieldIsWord(entry);
      TwoFields(indent, entry.digest, gap, NameField(entry), trail);
  }

  lemma {:induction false} LineLengthOf(line: string, rest: string)
    requires '\n' !in line
    ensures LineLength(line + "\n" + rest) == |line|
    decreases |line|
  {
    var all := line + "\n" + rest;
    if line != [] {
      assert all[1..] == line[1..] + "\n" + rest;
      LineLengthOf(line[1..], rest);
      assert all[0] == line[0];
    }
  }

  lemma {:induction false} FirstLine(line: string, rest: string)
    requires '\n' !in line
    ensures Lines(line + "\n" + rest) == [line] + Lines(rest)
  {
    var all := line + "\n" + rest;
    LineLengthOf(line, rest);
    assert all[..|line|] == line && all[|line| + 1..] == rest;
  }

  lemma {:induction false} RenderSplits(rows: seq<Row>)
    requires rows != [] && forall i | 0 <= i < |rows| :: WellFormedRow(rows[i])
    ensures SplitsInto(Render(rows), TextsOf(rows))
    ensures forall i | 0 <= i < |rows| :: Mirrors(TextsOf(rows)[i], rows[i])
  {
    forall i | 0 <= i < |rows|
      ensures '\n' !in TextsOf(rows)[i] && Mirrors(TextsOf(rows)[i], rows[i])
    {
      RowHasNoNewline(rows[i]);
      RowMirrored(rows[i]);
    }
  }

  predicate Lists(row: Row, package: string) {
    row.Listing? && row.entry.name == package
  }

  /** No two entries have the same name. */
  ghost predicate DistinctNames(rows: seq<Row>) {
    forall i, j | 0 <= i < j < |rows| && rows[i].Listing? :: !Lists(rows[j], rows[i].entry.name)
  }

  /** The round trip: from a text with one well-formed entry for each name the lookup recovers
      the digest of each, and of nothing else, however the fields are spaced, whatever blank
      lines there are, and whether or not the last line ends with a newline. */
  lemma {:induction false} RenderedIsListed(rows: seq<Row>, package: string, digest: string)
    requires rows != [] && DistinctNames(rows) && forall i | 0 <= i < |rows| :: WellFormedRow(rows[i])
    ensures Listed(Lines(Render(rows)), package, digest)
            <==> exists k :: 0 <= k < |rows| && Lists(rows[k], package) && rows[k].entry.digest == digest
  {
    RenderSplits(rows);
    SplitsOneWay(Render(rows), package);
    MirroredIsListed(TextsOf(rows), rows, package, digest);
  }

  lemma {:induction false} MirroredIsListed(lines: seq<string>, rows: seq<Row>, package: string, digest: string)
    requires |lines| == |rows| && forall i | 0 <= i < |rows| :: Mirrors(lines[i], rows[i]) && WellFormedRow(rows[i])
    requires DistinctNames(rows)
    ensures Listed(lines, package, digest)
            <==> exists k :: 0 <= k < |rows| && Lists(rows[k], package) && rows[k].entry.digest == digest
  {
    assert forall i | 0 <= i < |rows| :: Proper(lines[i]) && (Names(lines[i], package) <==> Lists(rows[i], package));
    if k :| 0 <= k < |rows| && Lists(rows[k], package) && rows[k].entry.digest == digest {
      assert Names(lines[k], package) && Fields(lines[k])[0] == digest;
      assert forall i | 0 <= i < |lines| && i != k :: !Names(lines[i], package);
    }
  }
}
