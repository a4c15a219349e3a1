/** Changeset files: parsing and printing the frontmatter, and the release hook. */
module Changesets {
  import opened Sequences

  // ------------------------------------------------------------ text helpers

  /** The white space that `trim` and `\s` know. */
  predicate IsSpace(c: char) {
    var n := c as int;
    || 9 <= n <= 13 || n == 32 || n == 0xA0 || n == 0x1680 || 0x2000 <= n <= 0x200A
    || n == 0x2028 || n == 0x2029 || n == 0x202F || n == 0x205F || n == 0x3000 || n == 0xFEFF
  }

  function TrimLeft(s: string): (r: string)
    ensures |r| <= |s| && (r != "" ==> !IsSpace(r[0]))
  {
    if s != "" && IsSpace(s[0]) then TrimLeft(s[1..]) else s
  }

  function TrimRight(s: string): (r: string)
    ensures r <= s && (r != "" ==> !IsSpace(r[|r| - 1]))
  {
    if s != "" && IsSpace(s[|s| - 1]) then TrimRight(s[..|s| - 1]) else s
  }

  function Trim(s: string): string { TrimRight(TrimLeft(s)) }

  predicate Trimmed(s: string) { s != "" ==> !IsSpace(s[0]) && !IsSpace(s[|s| - 1]) }

  lemma TrimIsTrimmed(s: string)
    ensures Trimmed(Trim(s)) && (Trimmed(s) ==> Trim(s) == s)
  {
  }

  function Split(s: string): (lines: seq<string>)
    ensures lines != []
  {
    if s == "" then [""]
    else
      var rest := Split(s[1..]);
      if s[0] == '\n' then [""] + rest else [[s[0]] + rest[0]] + rest[1..]
  }

  function Join(lines: seq<string>): string {
    if lines == [] then ""
    else if |lines| == 1 then lines[0]
    else lines[0] + "\n" + Join(lines[1..])
  }

  predicate OneLine(s: string) { '\n' !in s }

  lemma {:induction false} SplitLines(s: string)
    ensures forall line <- Split(s) :: OneLine(line)
  {
    if s != "" {
      SplitLines(s[1..]);
      var rest := Split(s[1..]);
      forall line | line in Split(s) ensures OneLine(line) {
        assert rest[0] in rest;
        if s[0] == '\n' {
          assert line == "" || line in rest;
        } else {
          assert line == [s[0]] + rest[0] || line in rest[1..];
        }
      }
    }
  }

  lemma {:induction false} JoinSplit(s: string)
    ensures Join(Split(s)) == s
  {
    if s != "" {
      JoinSplit(s[1..]);
      var rest := Split(s[1..]);
      if s[0] == '\n' {
        JoinCons("", rest);
      } else {
        assert Split(s) == [[s[0]] + rest[0]] + rest[1..];
        JoinPrepended(s[0], rest);
      }
      assert s == [s[0]] + s[1..];
    }
  }

  lemma JoinPrepended(c: char, lines: seq<string>)
    requires lines != []
    ensures Join([[c] + lines[0]] + lines[1..]) == [c] + Join(lines)
  {
    if |lines| > 1 {
      JoinCons([c] + lines[0], lines[1..]);
      JoinCons(lines[0], lines[1..]);
      assert [lines[0]] + lines[1..] == lines;
      var tail := "\n" + Join(lines[1..]);
      assert [c] + lines[0] + tail == [c] + (lines[0] + tail);
    }
  }

  lemma JoinCons(first: string, rest: seq<string>)
    requires rest != []
    ensures Join([first] + rest) == first + ("\n" + Join(rest))
  {
    assert ([first] + rest)[1..] == rest;
  }

  /** A line break in the text is a break between lines. */
  lemma {:induction false} SplitAt(a: string, b: string)
    ensures Split(a + "\n" + b) == Split(a) + Split(b)
  {
    var s := a + "\n" + b;
    if a == "" {
      assert s[0] == '\n' && s[1..] == b;
    } else {
      SplitAt(a[1..], b);
      assert s[0] == a[0] && s[1..] == a[1..] + "\n" + b;
    }
  }

  lemma {:induction false} SplitOne(s: string)
    requires OneLine(s)
    ensures Split(s) == [s]
  {
    if s != "" {
      SplitOne(s[1..]);
      assert s[0] in s && forall c <- s[1..] :: c in s;
      assert s == [s[0]] + s[1..];
    }
  }

  lemma {:induction false} SplitJoin(lines: seq<string>)
    requires lines != [] && forall line <- lines :: OneLine(line)
    ensures Split(Join(lines)) == lines
  {
    SplitOne(lines[0]);
    if |lines| > 1 {
      SplitJoin(lines[1..]);
      SplitAt(lines[0], Join(lines[1..]));
    }
  }

  // -------------------------------------------------------- package entries

  datatype Bump = Major | Minor | Patch

  datatype Package = Package(name: string, bump: Bump)

  datatype Changeset = Changeset(packages: seq<Package>, summary: string)

  function Text(bump: Bump): string {
    match bump
    case Major => "major"
    case Minor => "minor"
    case Patch => "patch"
  }

  function BumpOf(s: string): Option<Bump> {
    if s == "major" then Some(Major) else if s == "minor" then Some(Minor) else if s == "patch" then Some(Patch) else None
  }

  predicate IsQuote(c: char) { c == '\"' || c == '\'' }

  /** The longest part that may be a name: no quote and no colon. */
  function NamePart(s: string): (n: string)
    ensures n <= s
  {
    if s == "" || IsQuote(s[0]) || s[0] == ':' then "" else [s[0]] + NamePart(s[1..])
  }

  function AfterQuote(s: string): string { if s != "" && IsQuote(s[0]) then s[1..] else s }

  /** After the name: a colon, white space, a bump type, and nothing else. */
  function FindBump(tail: string): Option<Bump> {
    if tail == "" || tail[0] != ':' then None else BumpOf(TrimLeft(tail[1..]))
  }

  /** The entry pattern: an optional quote, a name, an optional quote, then the bump. */
  function Match(line: string): Option<Package> {
    var body := AfterQuote(line);
    var name := NamePart(body);
    var bump := FindBump(AfterQuote(body[|name|..]));
    if name == "" || bump.None? then None else Some(Package(name, bump.value))
  }

  function Entry(p: Package): string { "\"" + p.name + "\": " + Text(p.bump) }

  predicate GoodName(name: string) { name != "" && forall c <- name :: !IsQuote(c) && c != ':' && c != '\n' }

  lemma {:induction false} NamePartOf(name: string, rest: string)
    requires (forall c <- name :: !IsQuote(c) && c != ':') && rest != "" && (IsQuote(rest[0]) || rest[0] == ':')
    ensures NamePart(name + rest) == name
  {
    if name == "" {
      assert name + rest == rest;
    } else {
      assert (name + rest)[1..] == name[1..] + rest && (name + rest)[0] == name[0];
      assert name[0] in name && forall c <- name[1..] :: c in name;
      NamePartOf(name[1..], rest);
      assert name == [name[0]] + name[1..];
    }
  }

  lemma BumpText(bump: Bump)
    ensures var t := Text(bump); BumpOf(t) == Some(bump) && |t| > 0 && Trimmed(t) && OneLine(t)
  {
  }

  lemma TailBump(bump: Bump, tail: string)
    requires tail == [':', ' '] + Text(bump)
    ensures FindBump(tail) == Some(bump)
  {
    BumpText(bump);
    var t := Text(bump);
    assert tail[1..] == [' '] + t && tail[1..][1..] == t;
    assert TrimLeft(tail[1..]) == TrimLeft(t) == t;
  }

  lemma MatchParts(name: string, bump: Bump, tail: string, rest: string, body: string, line: string)
    requires GoodName(name) && rest == ['\"'] + tail && body == name + rest && line == ['\"'] + body
    requires FindBump(tail) == Some(bump)
    ensures Match(line) == Some(Package(name, bump))
  {
    assert line[1..] == body;
    NamePartOf(name, rest);
    assert body[|name|..] == rest && rest[1..] == tail;
  }

  lemma EntryMatches(p: Package)
    requires GoodName(p.name)
    ensures Match(Entry(p)) == Some(p)
  {
    var tail := [':', ' '] + Text(p.bump);
    var rest := ['\"'] + tail;
    TailBump(p.bump, tail);
    assert Entry(p) == ['\"'] + (p.name + rest);
    MatchParts(p.name, p.bump, tail, rest, p.name + rest, Entry(p));
  }

  // ------------------------------------------------ the entry pattern itself

  /** A quote of either kind, or nothing. */
  predicate IsOptionalQuote(s: string) { s == "" || s == "\"" || s == "'" }

  predicate IsWord(s: string, bump: Bump) {
    || (bump == Major && s == "major")
    || (bump == Minor && s == "minor")
    || (bump == Patch && s == "patch")
  }

  /** The line reads as an entry: `open name close : space word`. */
  ghost predicate ReadsAs(line: string, open: string, name: string, close: string, space: string, word: string) {
    && IsOptionalQuote(open) && IsOptionalQuote(close)
    && name != "" && (forall c <- name :: c != '\"' && c != '\'' && c != ':')
    && (forall c <- space :: IsSpace(c))
    && line == open + (name + (close + ([':'] + (space + word))))
  }

  lemma {:induction false} TrimLeftSplits(s: string) returns (space: string)
    ensures s == space + TrimLeft(s) && forall c <- space :: IsSpace(c)
  {
    if s != "" && IsSpace(s[0]) {
      var more := TrimLeftSplits(s[1..]);
      space := [s[0]] + more;
      assert s == [s[0]] + s[1..];
    } else {
      space := "";
    }
  }

  lemma {:induction false} TrimLeftSkips(space: string, word: string)
    requires (forall c <- space :: IsSpace(c)) && word != "" && !IsSpace(word[0])
    ensures TrimLeft(space + word) == word
  {
    if space == "" {
      assert space + word == word;
    } else {
      assert (space + word)[1..] == space[1..] + word && space[0] in space;
      assert forall c <- space[1..] :: c in space;
      TrimLeftSkips(space[1..], word);
    }
  }

  lemma WordIsBump(word: string, bump: Bump)
    ensures BumpOf(word) == Some(bump) <==> IsWord(word, bump)
    ensures IsWord(word, bump) ==> word != "" && !IsSpace(word[0])
  {
  }

  lemma QuoteSplits(s: string) returns (quote: string)
    ensures IsOptionalQuote(quote) && s == quote + AfterQuote(s)
  {
    quote := if s != "" && IsQuote(s[0]) then [s[0]] else "";
    assert s != "" ==> s == [s[0]] + s[1..];
  }

  lemma QuoteSkipped(quote: string, rest: string)
    requires IsOptionalQuote(quote) && rest != "" && !IsQuote(rest[0])
    ensures AfterQuote(quote + rest) == rest
  {
    assert quote != "" ==> (quote + rest)[1..] == rest;
    assert quote == "" ==> quote + rest == rest;
  }

  lemma TailReads(tail: string) returns (space: string, word: string)
    requires FindBump(tail).Some?
    ensures tail == [':'] + (space + word) && (forall c <- space :: IsSpace(c)) && IsWord(word, FindBump(tail).value)
  {
    space := TrimLeftSplits(tail[1..]);
    word := TrimLeft(tail[1..]);
    WordIsBump(word, FindBump(tail).value);
    assert tail == [':'] + tail[1..];
  }

  lemma BodyReads(body: string, name: string, rest: string, tail: string) returns (close: string, space: string, word: string)
    requires name == NamePart(body) && body == name + rest && tail == AfterQuote(rest) && FindBump(tail).Some?
    ensures IsOptionalQuote(close) && (forall c <- space :: IsSpace(c)) && IsWord(word, FindBump(tail).value)
    ensures body == name + (close + ([':'] + (space + word)))
    ensures forall c <- name :: c != '\"' && c != '\'' && c != ':'
  {
    close := QuoteSplits(rest);
    space, word := TailReads(tail);
    NamePartGood(body);
  }

  /** A matched line reads as an entry with the name and bump found. */
  lemma MatchReads(line: string) returns (open: string, close: string, space: string, word: string)
    requires Match(line).Some?
    ensures var p := Match(line).value; ReadsAs(line, open, p.name, close, space, word) && IsWord(word, p.bump)
  {
    var body := AfterQuote(line);
    var name := NamePart(body);
    open := QuoteSplits(line);
    close, space, word := BodyReads(body, name, body[|name|..], AfterQuote(body[|name|..]));
  }

  /** The entry pattern, both ways: a line is matched as a package exactly when it reads as an
      optional quote, the name, an optional quote, a colon, white space and the bump. */
  lemma MatchIff(line: string, p: Package)
    ensures Match(line) == Some(p) <==>
      exists open, close, space, word | IsWord(word, p.bump) :: ReadsAs(line, open, p.name, close, space, word)
  {
    if Match(line) == Some(p) {
      var open, close, space, word := MatchReads(line);
    }
    forall open, close, space, word | IsWord(word, p.bump) && ReadsAs(line, open, p.name, close, space, word)
      ensures Match(line) == Some(p)
    {
      ReadIsMatched(line, open, p.name, close, space, word, p.bump);
    }
  }

  /** Every line that reads as an entry is matched, with its name and bump. */
  lemma ReadIsMatched(line: string, open: string, name: string, close: string, space: string, word: string, bump: Bump)
    requires ReadsAs(line, open, name, close, space, word) && IsWord(word, bump)
    ensures Match(line) == Some(Package(name, bump))
  {
    var tail := [':'] + (space + word);
    var rest := close + tail;
    var body := name + rest;
    WordIsBump(word, bump);
    TrimLeftSkips(space, word);
    assert tail[1..] == space + word;
    QuoteSkipped(close, tail);
    assert close == "" ==> rest == tail;
    assert rest[0] == if close == "" then ':' else close[0];
    assert name[0] in name && body[0] == name[0];
    QuoteSkipped(open, body);
    NamePartOf(name, rest);
    assert body[|name|..] == rest;
  }

  /** A printed entry reads as the quoted name, a colon, a blank and the bump. */
  lemma EntryReads(p: Package)
    requires GoodName(p.name)
    ensures exists word | IsWord(word, p.bump) :: ReadsAs(Entry(p), "\"", p.name, "\"", " ", word)
  {
    var word := Text(p.bump);
    assert IsWord(word, p.bump);
    EntryParts(p.name, word, Entry(p));
  }

  lemma EntryParts(name: string, word: string, entry: string)
    requires entry == "\"" + name + "\": " + word
    ensures entry == "\"" + (name + ("\"" + ([':'] + (" " + word))))
  {
    assert "\": " == "\"" + ([':'] + " ");
  }

  predicate IsMarker(line: string) { Trim(line) == "---" }

  lemma EntryIsALine(p: Package)
    requires GoodName(p.name)
    ensures OneLine(Entry(p)) && !IsMarker(Entry(p))
  {
    var line, text := Entry(p), Text(p.bump);
    BumpText(p.bump);
    assert line == ['\"'] + p.name + ['\"', ':', ' '] + text;
    assert line[|line| - 1] == text[|text| - 1] && line[0] == '\"';
    TrimIsTrimmed(line);
  }

  lemma {:induction false} NamePartGood(s: string)
    ensures forall c <- NamePart(s) :: c in s && !IsQuote(c) && c != ':'
  {
    if s != "" && !IsQuote(s[0]) && s[0] != ':' {
      NamePartGood(s[1..]);
    }
  }

  lemma MatchIsGood(line: string)
    requires OneLine(line) && Match(line).Some?
    ensures GoodName(Match(line).value.name)
  {
    NamePartGood(AfterQuote(line));
  }

  // ------------------------------------------------------- parse and print

  /** The packages found and, when the frontmatter is closed, how many lines it takes. */
  function Scan(lines: seq<string>, inFrontmatter: bool, marker: string -> bool, entry: string -> Option<Package>):
    (seq<Package>, Option<nat>)
  {
    if lines == [] then ([], None)
    else if marker(lines[0]) then
      if inFrontmatter then ([], Some(1)) else Shift([], Scan(lines[1..], true, marker, entry))
    else
      var found := entry(lines[0]);
      Shift(if inFrontmatter && found.Some? then [found.value] else [], Scan(lines[1..], inFrontmatter, marker, entry))
  }

  /** One line later, with what it held. */
  function Shift(found: seq<Package>, rest: (seq<Package>, Option<nat>)): (seq<Package>, Option<nat>) {
    (found + rest.0, if rest.1.Some? then Some(rest.1.value + 1) else None)
  }

  lemma {:induction false} ScanBound(lines: seq<string>, inFrontmatter: bool,
                                     marker: string -> bool, entry: string -> Option<Package>)
    ensures Scan(lines, inFrontmatter, marker, entry).1.Some? ==> Scan(lines, inFrontmatter, marker, entry).1.value <= |lines|
    ensures forall p <- Scan(lines, inFrontmatter, marker, entry).0 :: exists line <- lines :: entry(line) == Some(p)
  {
    if lines != [] {
      ScanBound(lines[1..], inFrontmatter || marker(lines[0]), marker, entry);
      assert forall line <- lines[1..] :: line in lines;
      assert lines[0] in lines;
    }
  }

  function Marker(): string -> bool { (line: string) => IsMarker(line) }

  function Matcher(): string -> Option<Package> { (line: string) => Match(line) }

  function Parse(content: string): Changeset {
    var lines := Split(content);
    var scan := Scan(lines, false, Marker(), Matcher());
    ScanBound(lines, false, Marker(), Matcher());
    Changeset(scan.0, Trim(Join(if scan.1.Some? then lines[scan.1.value..] else lines)))
  }

  /** The packages of the lines that match. */
  function Found(lines: seq<string>, entry: string -> Option<Package>): seq<Package> {
    if lines == [] then []
    else (if entry(lines[0]).Some? then [entry(lines[0]).value] else []) + Found(lines[1..], entry)
  }

  predicate NoMarker(lines: seq<string>, marker: string -> bool) { forall line <- lines :: !marker(line) }

  lemma {:induction false} ScanPlain(lines: seq<string>, inFrontmatter: bool, marker: string -> bool,
                                     entry: string -> Option<Package>)
    requires NoMarker(lines, marker)
    ensures Scan(lines, inFrontmatter, marker, entry) == (if inFrontmatter then Found(lines, entry) else [], None)
  {
    if lines != [] {
      assert lines[0] in lines && forall line <- lines[1..] :: line in lines;
      ScanPlain(lines[1..], inFrontmatter, marker, entry);
      ScanStep(lines[0], lines[1..], inFrontmatter, marker, entry);
      assert lines == [lines[0]] + lines[1..];
      var nothing: seq<Package> := [];
      assert nothing + nothing == nothing;
    }
  }

  lemma ScanStep(line: string, rest: seq<string>, inFrontmatter: bool, marker: string -> bool,
                 entry: string -> Option<Package>)
    requires !marker(line)
    ensures Scan([line] + rest, inFrontmatter, marker, entry) ==
      Shift(if inFrontmatter && entry(line).Some? then [entry(line).value] else [], Scan(rest, inFrontmatter, marker, entry))
  {
    assert ([line] + rest)[1..] == rest;
  }

  lemma {:induction false} ScanInside(inside: seq<string>, close: string, after: seq<string>, marker: string -> bool,
                                      entry: string -> Option<Package>)
    requires NoMarker(inside, marker) && marker(close)
    ensures Scan(inside + ([close] + after), true, marker, entry) == (Found(inside, entry), Some(|inside| + 1))
  {
    if inside == [] {
      assert inside + ([close] + after) == [close] + after;
    } else {
      assert inside[0] in inside && forall line <- inside[1..] :: line in inside;
      assert inside + ([close] + after) == [inside[0]] + (inside[1..] + ([close] + after));
      ScanStep(inside[0], inside[1..] + ([close] + after), true, marker, entry);
      ScanInside(inside[1..], close, after, marker, entry);
    }
  }

  lemma {:induction false} ScanBefore(before: seq<string>, open: string, rest: seq<string>, marker: string -> bool,
                                      entry: string -> Option<Package>)
    requires NoMarker(before, marker) && marker(open)
    ensures var scan := Scan(rest, true, marker, entry);
      Scan(before + ([open] + rest), false, marker, entry)
        == (scan.0, if scan.1.Some? then Some(|before| + 1 + scan.1.value) else None)
  {
    var scan := Scan(rest, true, marker, entry);
    assert [] + scan.0 == scan.0;
    if before == [] {
      assert before + ([open] + rest) == [open] + rest;
      ScanOpen(open, rest, marker, entry);
    } else {
      assert before[0] in before && forall line <- before[1..] :: line in before;
      assert before + ([open] + rest) == [before[0]] + (before[1..] + ([open] + rest));
      ScanStep(before[0], before[1..] + ([open] + rest), false, marker, entry);
      ScanBefore(before[1..], open, rest, marker, entry);
    }
  }

  lemma AfterFirst(before: seq<string>, line: string, rest: seq<string>, lines: seq<string>)
    requires lines == before + ([line] + rest)
    ensures |lines| == |before| + 1 + |rest| && lines[|before| + 1..] == rest
  {
  }

  lemma AfterFrame(before: seq<string>, open: string, rest: seq<string>, inside: seq<string>, close: string,
                   after: seq<string>, lines: seq<string>)
    requires lines == before + ([open] + rest) && rest == inside + ([close] + after)
    ensures var n := |before| + 1 + (|inside| + 1); n <= |lines| && lines[n..] == after
  {
    AfterFirst(before, open, rest, lines);
    AfterFirst(inside, close, after, rest);
    assert lines[|before| + 1..][|inside| + 1..] == lines[|before| + 1 + (|inside| + 1)..];
  }

  lemma FrameScan(before: seq<string>, open: string, rest: seq<string>, inside: seq<string>, close: string,
                  after: seq<string>, lines: seq<string>, marker: string -> bool, entry: string -> Option<Package>)
    returns (n: nat)
    requires Framed(lines, before, open, rest, inside, close, after, marker)
    ensures n <= |lines| && lines[n..] == after && Scan(lines, false, marker, entry) == (Found(inside, entry), Some(n))
  {
    n := |before| + 1 + (|inside| + 1);
    ScanInside(inside, close, after, marker, entry);
    ScanBefore(before, open, rest, marker, entry);
    AfterFrame(before, open, rest, inside, close, after, lines);
  }

  lemma ParseFrom(content: string, lines: seq<string>, n: nat, found: seq<Package>, after: seq<string>)
    requires Split(content) == lines && n <= |lines| && lines[n..] == after
    requires Scan(lines, false, Marker(), Matcher()) == (found, Some(n))
    ensures Parse(content) == Changeset(found, Trim(Join(after)))
  {
  }

  /** The lines of a file with two markers, the first two of them. */
  ghost predicate Framed(lines: seq<string>, before: seq<string>, open: string, rest: seq<string>, inside: seq<string>,
                         close: string, after: seq<string>, marker: string -> bool)
  {
    && lines == before + ([open] + rest) && rest == inside + ([close] + after)
    && NoMarker(before, marker) && marker(open) && NoMarker(inside, marker) && marker(close)
  }

  /** What a file with two markers holds: the packages of the matching lines between the first
      two, and all text after the second, trimmed, as its summary. */
  lemma ParseFramed(content: string, lines: seq<string>, before: seq<string>, open: string, rest: seq<string>,
                    inside: seq<string>, close: string, after: seq<string>)
    requires lines == Split(content) && Framed(lines, before, open, rest, inside, close, after, Marker())
    ensures Parse(content) == Changeset(Found(inside, Matcher()), Trim(Join(after)))
  {
    var n := FrameScan(before, open, rest, inside, close, after, lines, Marker(), Matcher());
    ParseFrom(content, lines, n, Found(inside, Matcher()), after);
  }

  lemma {:induction false} TrimRightSplits(s: string) returns (space: string)
    ensures s == TrimRight(s) + space && forall c <- space :: IsSpace(c)
  {
    if s != "" && IsSpace(s[|s| - 1]) {
      var more := TrimRightSplits(s[..|s| - 1]);
      space := more + [s[|s| - 1]];
      assert s == s[..|s| - 1] + [s[|s| - 1]];
    } else {
      space := "";
    }
  }

  lemma {:induction false} TrimRightSkips(word: string, space: string)
    requires (forall c <- space :: IsSpace(c)) && word != "" && !IsSpace(word[|word| - 1])
    ensures TrimRight(word + space) == word
  {
    if space == "" {
      assert word + space == word;
    } else {
      var n := |space| - 1;
      assert (word + space)[..|word| + n] == word + space[..n] && space[n] in space;
      TrimRightSkips(word, space[..n]);
    }
  }

  lemma TrimIff(line: string, word: string)
    requires word != "" && !IsSpace(word[0]) && !IsSpace(word[|word| - 1])
    ensures Trim(line) == word <==>
      exists left, right | (forall c <- left :: IsSpace(c)) && (forall c <- right :: IsSpace(c)) :: line == left + (word + right)
  {
    if Trim(line) == word {
      var left := TrimLeftSplits(line);
      var right := TrimRightSplits(TrimLeft(line));
    }
    forall left, right | (forall c <- left :: IsSpace(c)) && (forall c <- right :: IsSpace(c)) && line == left + (word + right)
      ensures Trim(line) == word
    {
      TrimLeftSkips(left, word + right);
      TrimRightSkips(word, right);
    }
  }

  /** A marker is three dashes, with white space around them or not. */
  lemma MarkerIff(line: string)
    ensures Marker()(line) <==>
      exists left, right | (forall c <- left :: IsSpace(c)) && (forall c <- right :: IsSpace(c)) :: line == left + ("---" + right)
  {
    TrimIff(line, "---");
  }

  /** With one marker everything after it is read for packages, with none nothing is, and the
      whole text is the summary. */
  lemma ParseUnframed(content: string, before: seq<string>, open: string, inside: seq<string>)
    requires NoMarker(before, Marker()) && Marker()(open) && NoMarker(inside, Marker())
    ensures Split(content) == before + ([open] + inside) ==> Parse(content) == Changeset(Found(inside, Matcher()), Trim(content))
    ensures Split(content) == before ==> Parse(content) == Changeset([], Trim(content))
  {
    ScanPlain(inside, true, Marker(), Matcher());
    ScanBefore(before, open, inside, Marker(), Matcher());
    ScanPlain(before, false, Marker(), Matcher());
    JoinSplit(content);
  }

  function Entries(packages: seq<Package>): seq<string> {
    if packages == [] then [] else [Entry(packages[0])] + Entries(packages[1..])
  }

  function Serialize(d: Changeset): string {
    "---\n" + Join(Entries(d.packages)) + "\n---\n\n" + d.summary + "\n"
  }

  method ScanLines(lines: seq<string>, marker: string -> bool, entry: string -> Option<Package>)
    returns (packages: seq<Package>, start: nat)
    ensures var scan := Scan(lines, false, marker, entry);
      packages == scan.0 && start == (if scan.1.Some? then scan.1.value else 0) && start <= |lines|
  {
    ghost var scan := Scan(lines, false, marker, entry);
    packages, start := [], 0;
    var inFrontmatter := false;
    assert lines[0..] == lines && [] + scan.0 == scan.0;
    for i := 0 to |lines|
      invariant start == 0
      invariant var rest := Scan(lines[i..], inFrontmatter, marker, entry);
        scan == (packages + rest.0, if rest.1.Some? then Some(rest.1.value + i) else None)
    {
      var line := lines[i];
      assert lines[i..][0] == line && lines[i..][1..] == lines[i + 1..];
      ghost var before, rest := packages, Scan(lines[i + 1..], inFrontmatter || marker(line), marker, entry).0;
      assert [] + rest == rest && before + [] == before;
      if marker(line) {
        if inFrontmatter {
          start := i + 1;
          break;
        }
        inFrontmatter := true;
        continue;
      }
      if inFrontmatter {
        var found := entry(line);
        if found.Some? {
          packages := packages + [found.value];
          assert before + ([found.value] + rest) == packages + rest;
        }
      }
    }
  }

  method ParseFrontmatter(content: string) returns (d: Changeset)
    ensures d == Parse(content)
  {
    var lines := Split(content);
    var packages, start := ScanLines(lines, Marker(), Matcher());
    d := Changeset(packages, Trim(Join(lines[start..])));
    assert lines[0..] == lines;
  }

  predicate WellFormed(d: Changeset) { Trimmed(d.summary) && forall p <- d.packages :: GoodName(p.name) }

  /** Whatever the file holds, the parser's result is well formed. */
  lemma ParseIsWellFormed(content: string)
    ensures WellFormed(Parse(content))
  {
    var lines := Split(content);
    SplitLines(content);
    ScanBound(lines, false, Marker(), Matcher());
    var scan := Scan(lines, false, Marker(), Matcher());
    forall p | p in scan.0 ensures GoodName(p.name) {
      var line :| line in lines && Matcher()(line) == Some(p);
      MatchIsGood(line);
    }
    TrimIsTrimmed(Join(if scan.1.Some? then lines[scan.1.value..] else lines));
  }

  lemma {:induction false} ScanEntries(es: seq<string>, packages: seq<Package>, tail: seq<string>,
                                       marker: string -> bool, entry: string -> Option<Package>)
    requires |es| == |packages| && forall i | 0 <= i < |es| :: entry(es[i]) == Some(packages[i]) && !marker(es[i])
    requires tail != [] && marker(tail[0])
    ensures Scan(es + tail, true, marker, entry) == (packages, Some(|packages| + 1))
    decreases |es|
  {
    if es == [] {
      assert es + tail == tail;
    } else {
      ScanEntries(es[1..], packages[1..], tail, marker, entry);
      assert (es + tail)[0] == es[0] && (es + tail)[1..] == es[1..] + tail;
      assert packages == [packages[0]] + packages[1..];
    }
  }

  /** The lines between the markers of a printed changeset. */
  function Middle(packages: seq<Package>): seq<string> { if packages == [] then [""] else Entries(packages) }

  lemma {:induction false} EntriesAreLines(packages: seq<Package>)
    requires forall p <- packages :: GoodName(p.name)
    ensures |Entries(packages)| == |packages|
    ensures forall i | 0 <= i < |packages| :: OneLine(Entries(packages)[i]) && !IsMarker(Entries(packages)[i])
    ensures forall i | 0 <= i < |packages| :: Match(Entries(packages)[i]) == Some(packages[i])
  {
    if packages != [] {
      EntriesAreLines(packages[1..]);
      EntryMatches(packages[0]);
      EntryIsALine(packages[0]);
    }
  }

  lemma MiddleLines(packages: seq<Package>)
    requires forall p <- packages :: GoodName(p.name)
    ensures Split(Join(Entries(packages))) == Middle(packages)
  {
    EntriesAreLines(packages);
    if packages != [] {
      SplitJoin(Entries(packages));
    }
  }

  lemma PrintedText(middle: string, summary: string)
    ensures "---\n" + middle + "\n---\n\n" + summary + "\n"
      == "---" + "\n" + (middle + "\n" + ("---" + "\n" + ("" + "\n" + (summary + "\n" + ""))))
  {
    assert "---\n" == "---" + "\n" && "\n---\n\n" == "\n" + ("---" + "\n" + "\n");
  }

  lemma PrintedLines(middle: string, summary: string)
    ensures Split("---\n" + middle + "\n---\n\n" + summary + "\n")
      == ["---"] + (Split(middle) + (["---"] + ([""] + Split(summary) + [""])))
  {
    PrintedText(middle, summary);
    NestedLines("---", middle, summary);
  }

  lemma NestedLines(mark: string, middle: string, summary: string)
    requires OneLine(mark)
    ensures Split(mark + "\n" + (middle + "\n" + (mark + "\n" + ("" + "\n" + (summary + "\n" + "")))))
      == [mark] + (Split(middle) + ([mark] + ([""] + Split(summary) + [""])))
  {
    var a := summary + "\n" + "";
    var b := "" + "\n" + a;
    var c := mark + "\n" + b;
    SplitAt(summary, "");
    SplitAt("", a);
    SplitOne(mark);
    SplitAt(mark, b);
    SplitAt(middle, c);
    SplitAt(mark, middle + "\n" + c);
    assert [""] + (Split(summary) + [""]) == [""] + Split(summary) + [""];
  }

  lemma {:induction false} JoinLast(lines: seq<string>)
    requires lines != []
    ensures Join(lines + [""]) == Join(lines) + "\n"
  {
    if |lines| == 1 {
      assert (lines + [""])[1..] == [""];
    } else {
      JoinLast(lines[1..]);
      assert (lines + [""])[1..] == lines[1..] + [""];
    }
  }

  lemma TrimFramed(s: string)
    requires Trimmed(s)
    ensures Trim("\n" + s + "\n") == s
  {
    var t := "\n" + s + "\n";
    assert t[1..] == s + "\n";
    if s == "" {
      assert t[1..][1..] == "";
      assert TrimLeft(t) == TrimLeft(t[1..]) == TrimLeft(t[1..][1..]) == "";
    } else {
      assert (s + "\n")[..|s|] == s;
      assert TrimLeft(s + "\n") == s + "\n";
      assert TrimRight(s + "\n") == TrimRight(s);
    }
  }

  /** The lines after the closing marker give the summary back. */
  lemma SummaryBack(summary: string)
    requires Trimmed(summary)
    ensures Trim(Join([""] + Split(summary) + [""])) == summary
  {
    var lines := Split(summary);
    JoinSplit(summary);
    JoinLast([""] + lines);
    assert ([""] + lines)[1..] == lines;
    assert Join([""] + lines) == "" + "\n" + summary;
    assert "" + "\n" + summary + "\n" == "\n" + summary + "\n";
    TrimFramed(summary);
  }

  lemma ScanOpen(open: string, inner: seq<string>, marker: string -> bool, entry: string -> Option<Package>)
    requires marker(open)
    ensures Scan([open] + inner, false, marker, entry) == Shift([], Scan(inner, true, marker, entry))
  {
    assert ([open] + inner)[1..] == inner;
  }

  lemma ScanBlank(close: seq<string>, marker: string -> bool, entry: string -> Option<Package>)
    requires close != [] && marker(close[0]) && !marker("") && entry("") == None
    ensures Scan([""] + close, true, marker, entry) == ([], Some(2))
  {
    var blank: seq<Package> := [];
    assert Scan(close, true, marker, entry) == (blank, Some(1));
    assert ([""] + close)[1..] == close && ([""] + close)[0] == "" && blank + blank == blank;
  }

  lemma ScanFramed(open: string, middle: seq<string>, packages: seq<Package>, close: seq<string>,
                   marker: string -> bool, entry: string -> Option<Package>)
    requires marker(open) && close != [] && marker(close[0])
    requires if packages == [] then middle == [""] && !marker("") && entry("") == None
      else |middle| == |packages| && forall i | 0 <= i < |middle| :: entry(middle[i]) == Some(packages[i]) && !marker(middle[i])
    ensures Scan([open] + (middle + close), false, marker, entry) == (packages, Some(|middle| + 2))
  {
    ScanOpen(open, middle + close, marker, entry);
    if packages == [] {
      ScanBlank(close, marker, entry);
    } else {
      ScanEntries(middle, packages, close, marker, entry);
    }
    assert [] + packages == packages;
  }

  lemma ScanPrinted(packages: seq<Package>, tail: seq<string>)
    requires forall p <- packages :: GoodName(p.name)
    ensures Scan(["---"] + (Middle(packages) + (["---"] + tail)), false, Marker(), Matcher())
      == (packages, Some(|Middle(packages)| + 2))
  {
    assert Marker()("---") by {
      TrimIsTrimmed("---");
    }
    EntriesAreLines(packages);
    ScanFramed("---", Middle(packages), packages, ["---"] + tail, Marker(), Matcher());
  }

  lemma PrintedForm(d: Changeset, lines: seq<string>, n: nat)
    requires WellFormed(d) && n == |Middle(d.packages)| + 2
    requires lines == ["---"] + (Middle(d.packages) + (["---"] + ([""] + Split(d.summary) + [""])))
    ensures Split(Serialize(d)) == lines
    ensures n <= |lines| && lines[n..] == [""] + Split(d.summary) + [""]
  {
    MiddleLines(d.packages);
    PrintedLines(Join(Entries(d.packages)), d.summary);
  }

  /** Parsing what was printed gives the same packages, in order, and the same summary. */
  lemma RoundTrip(d: Changeset)
    requires WellFormed(d)
    ensures Parse(Serialize(d)) == d
  {
    var tail := [""] + Split(d.summary) + [""];
    var lines := ["---"] + (Middle(d.packages) + (["---"] + tail));
    PrintedForm(d, lines, |Middle(d.packages)| + 2);
    ScanPrinted(d.packages, tail);
    SummaryBack(d.summary);
    ParseForm(Serialize(d), lines, |Middle(d.packages)| + 2, d);
  }

  lemma ParseForm(content: string, lines: seq<string>, n: nat, d: Changeset)
    requires Split(content) == lines && n <= |lines|
    requires Scan(lines, false, Marker(), Matcher()) == (d.packages, Some(n))
    requires Trim(Join(lines[n..])) == d.summary
    ensures Parse(content) == d
  {
  }

  /** ... for exactly the well-formed changesets. */
  lemma RoundTripIff(d: Changeset)
    ensures Parse(Serialize(d)) == d <==> WellFormed(d)
  {
    ParseIsWellFormed(Serialize(d));
    if WellFormed(d) {
      RoundTrip(d);
    }
  }

  /** Reprinting any file, however written, loses nothing the parser saw. */
  lemma ReprintIsStable(content: string)
    ensures Parse(Serialize(Parse(content))) == Parse(content)
  {
    ParseIsWellFormed(content);
    RoundTrip(Parse(content));
  }

  // -------------------------------------------------------- the release hook

  const RELEASE := "@checkstack/release"

  predicate HasRelease(d: Changeset) { exists p <- d.packages :: p.name == RELEASE }

  function WithRelease(d: Changeset): Changeset { Changeset(d.packages + [Package(RELEASE, Minor)], d.summary) }

  function Injected(content: string): string { Serialize(WithRelease(Parse(content))) }

  /** The file to change, if any: the first that lists a package, unless some file
      already lists the release package. */
  ghost predicate Picks(ds: seq<Changeset>, i: Option<nat>) {
    if exists d <- ds, p <- d.packages :: p.name == "@checkstack/release" then i == None
    else if i.None? then forall d <- ds :: d.packages == []
    else i.value < |ds| && ds[i.value].packages != [] && forall j | 0 <= j < i.value :: ds[j].packages == []
  }

  /** The hook's first pass. */
  method Pick(ds: seq<Changeset>) returns (r: Option<nat>)
    ensures Picks(ds, r)
  {
    var included := false;
    var first: Option<nat> := None;
    for i := 0 to |ds|
      invariant included <==> exists d <- ds[..i], p <- d.packages :: p.name == RELEASE
      invariant !included ==> Picks(ds[..i], first)
    {
      assert ds[..i + 1] == ds[..i] + [ds[i]];
      if HasRelease(ds[i]) {
        included := true;
      }
      if !included && first.None? && ds[i].packages != [] {
        first := Some(i);
      }
    }
    assert ds[..|ds|] == ds;
    r := if included then None else first;
  }

  /** The hook: the release package is always added as a minor bump, whatever the
      highest bump found. */
  method InjectRelease(files: seq<string>) returns (r: seq<string>, changed: Option<nat>)
    ensures Picks(seq(|files|, i requires 0 <= i < |files| => Parse(files[i])), changed)
    ensures r == if changed.Some? then files[changed.value := Injected(files[changed.value])] else files
  {
    ghost var all := seq(|files|, i requires 0 <= i < |files| => Parse(files[i]));
    var ds: seq<Changeset> := [];
    for i := 0 to |files|
      invariant ds == all[..i]
    {
      var d := ParseFrontmatter(files[i]);
      ds := ds + [d];
    }
    assert ds == all;
    changed := Pick(ds);
    r := files;
    if changed.Some? {
      r := files[changed.value := Serialize(WithRelease(ds[changed.value]))];
    }
  }

  lemma ReleaseIsGood()
    ensures GoodName(RELEASE)
  {
  }

  /** The injected file still lists its packages, in order, then the release package,
      and it keeps its summary. */
  lemma InjectedParses(content: string)
    ensures Parse(Injected(content)) == WithRelease(Parse(content))
    ensures Parse(Injected(content)).packages == Parse(content).packages + [Package("@checkstack/release", Minor)]
    ensures Parse(Injected(content)).summary == Parse(content).summary
  {
    ParseIsWellFormed(content);
    ReleaseIsGood();
    RoundTrip(WithRelease(Parse(content)));
  }

  /** So a second run finds the release package, and changes nothing. */
  lemma InjectionIsFinal(files: seq<string>, i: nat, again: Option<nat>)
    requires i < |files|
    requires Picks(seq(|files|, j requires 0 <= j < |files| => Parse(files[i := Injected(files[i])][j])), again)
    ensures again == None
  {
    var ds := seq(|files|, j requires 0 <= j < |files| => Parse(files[i := Injected(files[i])][j]));
    InjectedParses(files[i]);
    assert ds[i] == WithRelease(Parse(files[i]));
    var packages := ds[i].packages;
    assert packages[|packages| - 1].name == RELEASE;
    assert HasRelease(ds[i]) && ds[i] in ds;
  }
}
