/** When parsing a saved folder record gives the record back. */
module FolderRoundTrip {
  import opened Common
  import opened FolderData

  // ---- lines ----

  ghost predicate OneLine(s: string) {
    forall i :: 0 <= i < |s| ==> !IsBreak(s[i])
  }

  lemma {:induction false} LineEndOfOneLine(s: string, rest: string)
    requires OneLine(s) && (rest == "" || IsBreak(rest[0]))
    ensures LineEnd(s + rest) == |s|
  {
    if s == "" {
      assert s + rest == rest;
    } else {
      assert (s + rest)[1..] == s[1..] + rest;
      LineEndOfOneLine(s[1..], rest);
    }
  }

  lemma FirstLine(s: string, rest: string)
    requires OneLine(s)
    ensures Lines(s + ("\r\n" + rest)) == [s] + Lines(rest)
    ensures Lines(s) == [s]
  {
    var all := s + ("\r\n" + rest);
    LineEndOfOneLine(s, "\r\n" + rest);
    LineEndOfOneLine(s, "");
    assert all[..|s|] == s && all[|s|] == '\r' && all[|s| + 1] == '\n' && all[|s| + 2..] == rest;
    assert s + "" == s;
  }

  // ---- fields ----

  lemma {:induction false} NoSeparator(s: string, sep: char)
    requires sep !in s
    ensures Split(s, sep) == [s]
  {
    if s == "" {
    } else {
      NoSeparator(s[1..], sep);
      assert s == [s[0]] + s[1..];
    }
  }

  lemma {:induction false} PartsLackSeparator(s: string, sep: char)
    ensures forall e :: e in Split(s, sep) ==> sep !in e && forall c :: c in e ==> c in s
  {
    if s == "" {
    } else {
      PartsLackSeparator(s[1..], sep);
      assert forall c :: c in s[1..] ==> c in s;
      var rest := Split(s[1..], sep);
      forall e | e in Split(s, sep) ensures sep !in e && forall c :: c in e ==> c in s {
        if e !in rest && e != "" {
          assert e == [s[0]] + rest[0] && rest[0] in rest;
        }
      }
    }
  }

  ghost predicate AllLack(xs: seq<string>, c: char) {
    forall x :: x in xs ==> c !in x
  }

  /** Splitting what `save` joined gives the names back, and an empty part behind the last separator. */
  lemma {:induction false} JoinedSplits(xs: seq<string>)
    requires AllLack(xs, ':')
    ensures Split(Join(xs, ':') + ":", ':') == (if xs == [] then [""] else xs) + [""]
  {
    if |xs| == 0 {
      assert Split(":", ':') == [""] + Split("", ':');
      assert Join(xs, ':') + ":" == ":";
    } else if |xs| == 1 {
      assert xs == [xs[0]];
      PrefixSplits(xs[0], "", ':');
      assert xs[0] + [':'] + "" == Join(xs, ':') + ":";
    } else {
      assert xs[0] in xs && AllLack(xs[1..], ':');
      JoinedSplits(xs[1..]);
      var body := Join(xs[1..], ':') + ":";
      PrefixSplits(xs[0], body, ':');
      assert Join(xs, ':') + ":" == xs[0] + [':'] + body;
      assert xs == [xs[0]] + xs[1..];
    }
  }

  lemma JoinedNames(xs: seq<string>)
    requires AllLack(xs, ':')
    ensures NonEmpty(Split(Join(xs, ':') + ":", ':')) == NonEmpty(xs)
  {
    JoinedSplits(xs);
  }

  lemma {:induction false} JoinLacks(xs: seq<string>, c: char)
    requires AllLack(xs, c) && c != ':'
    ensures c !in Join(xs, ':') + ":"
  {
    if |xs| > 1 {
      assert xs[0] in xs && AllLack(xs[1..], c);
      JoinLacks(xs[1..], c);
    } else if |xs| == 1 {
      assert xs[0] in xs;
    }
  }

  lemma {:induction false} JoinStarts(xs: seq<string>)
    requires xs != [] && xs[0] != ""
    ensures Join(xs, ':') != "" && Join(xs, ':')[0] == xs[0][0]
  {
  }

  /** Only leading blanks are lost: the last character is always a separator. */
  lemma StripKeeps(s: string)
    requires s != "" && !IsSpace(s[0]) && !IsSpace(s[|s| - 1])
    ensures Strip(s) == s
  {
  }

  // ---- what a name may look like ----

  ghost predicate PlainName(x: string) {
    x != "" && ':' !in x && '=' !in x && '\n' !in x && '\r' !in x
  }

  /** Plain names, and no blank at the start of the line. */
  ghost predicate Storable(xs: seq<string>) {
    (forall x :: x in xs ==> PlainName(x)) && (xs != [] && xs[0] != "" ==> !IsSpace(xs[0][0]))
  }

  lemma ListLine(key: string, xs: seq<string>)
    requires key in {FOLDERS, SESSIONS} && forall x :: x in xs ==> PlainName(x)
    ensures var line := key + (Join(xs, ':') + ":");
            && OneLine(line) && StartsWith(line, key)
            && |Split(line, '=')| > 1 && Field(line) == Strip(Join(xs, ':') + ":")
  {
    var body := Join(xs, ':') + ":";
    var line := key + body;
    JoinLacks(xs, '=');
    JoinLacks(xs, '\n');
    JoinLacks(xs, '\r');
    KeyedLineSplits(key, line);
    assert line[|key|..] == body;
    NoSeparator(body, '=');
    KeyLineIsOneLine(key, body);
  }

  lemma KeyLineIsOneLine(key: string, body: string)
    requires key in {FOLDERS, SESSIONS} && '\n' !in body && '\r' !in body
    ensures OneLine(key + body)
  {
    assert OneLine(key);
    forall i | 0 <= i < |key + body| ensures !IsBreak((key + body)[i]) {
      if i >= |key| { assert (key + body)[i] == body[i - |key|] && body[i - |key|] in body; }
    }
  }

  lemma StorableField(xs: seq<string>)
    requires Storable(xs)
    ensures NonEmpty(Split(Strip(Join(xs, ':') + ":"), ':')) == Elems(xs)
  {
    var body := Join(xs, ':') + ":";
    if xs != [] {
      assert xs[0] in xs;
      JoinStarts(xs);
    }
    StripKeeps(body);
    JoinedNames(xs);
  }

  /** A saved record of storable names is read back unchanged, whatever its flag. */
  lemma RoundTrip(folders: seq<string>, sessions: seq<string>, expanded: bool)
    requires Storable(folders) && Storable(sessions)
    ensures Parse(Text(folders, sessions, expanded)) == Some(Record(Elems(folders), Elems(sessions), expanded))
  {
    PlainParses(folders, sessions, expanded);
    StorableField(folders);
    StorableField(sessions);
  }

  /** The file letter by letter: which key stands in front of which list. */
  lemma TextSpelled(folders: seq<string>, sessions: seq<string>, expanded: bool)
    ensures Text(folders, sessions, expanded)
            == "S:\"Folder List\"=" + Join(folders, ':') + ":\r\n"
               + ("S:\"Session List\"=" + Join(sessions, ':') + ":\r\n"
                  + if expanded then "S:\"Is Expanded\"=" + "00000001" else "00000000" + "\r\n")
  {
  }

  lemma TextLines(folders: seq<string>, sessions: seq<string>, expanded: bool)
    requires OneLine(FOLDERS + (Join(folders, ':') + ":")) && OneLine(SESSIONS + (Join(sessions, ':') + ":"))
    ensures Lines(Text(folders, sessions, expanded))
            == [FOLDERS + (Join(folders, ':') + ":"), SESSIONS + (Join(sessions, ':') + ":")]
               + Lines(if expanded then EXPANDED + "00000001" else "00000000" + "\r\n")
  {
    var tail := if expanded then EXPANDED + "00000001" else "00000000" + "\r\n";
    Regroup(SESSIONS, Join(sessions, ':'), tail);
    Regroup(FOLDERS, Join(folders, ':'), SESSIONS + Join(sessions, ':') + ":\r\n" + tail);
    TwoLines(FOLDERS + (Join(folders, ':') + ":"), SESSIONS + (Join(sessions, ':') + ":"), tail);
  }

  lemma Regroup(key: string, names: string, rest: string)
    ensures key + names + ":\r\n" + rest == (key + (names + ":")) + ("\r\n" + rest)
  {
  }

  lemma TwoLines(first: string, second: string, tail: string)
    requires OneLine(first) && OneLine(second)
    ensures Lines(first + ("\r\n" + (second + ("\r\n" + tail)))) == [first, second] + Lines(tail)
  {
    FirstLine(first, second + ("\r\n" + tail));
    FirstLine(second, tail);
  }

  lemma ParseTwo(fLine: string, sLine: string, rest: seq<string>)
    requires StartsWith(fLine, FOLDERS) && StartsWith(sLine, SESSIONS)
    ensures |Split(fLine, '=')| > 1 && |Split(sLine, '=')| > 1
    ensures ParseLines(Record({}, {}, false), [fLine, sLine] + rest)
            == ParseLines(Record(NonEmpty(Split(Field(fLine), ':')), NonEmpty(Split(Field(sLine), ':')), false), rest)
  {
    KeyedLineSplits(FOLDERS, fLine);
    KeyedLineSplits(SESSIONS, sLine);
    var lines := [fLine, sLine] + rest;
    assert lines[1..] == [sLine] + rest && lines[1..][1..] == rest;
    assert !StartsWith(sLine, FOLDERS) by { assert sLine[3] == SESSIONS[3] != FOLDERS[3]; }
  }

  lemma DigitsField(digits: string)
    requires digits != "" && forall i :: 0 <= i < |digits| ==> IsDigit(digits[i])
    ensures Strip(digits) == digits && Split(digits, '=') == [digits]
  {
    assert '=' !in digits;
    NoSeparator(digits, '=');
    DigitIsNoSpace(digits[0]);
    DigitIsNoSpace(digits[|digits| - 1]);
    StripKeeps(digits);
  }

  lemma DigitIsNoSpace(c: char)
    requires IsDigit(c)
    ensures !IsSpace(c)
  {
  }

  lemma FlagIs(digits: string)
    requires digits == "00000001" || digits == "00000000"
    ensures Flag(digits) == Some(digits == "00000001")
  {
    assert |digits| == 8 && digits[0] == '0' && digits[7] in "01";
    forall i | 0 <= i < |digits| ensures IsDigit(digits[i]) {
      assert digits[i] == '0' || i == 7;
    }
    assert IsNumeral(digits) && Unsigned(digits) == digits;
    if digits == "00000001" {
      assert IsDigit(digits[7]) && digits[7] != '0';
    } else {
      assert forall i :: 0 <= i < |digits| ==> digits[i] == '0';
    }
  }

  lemma FlagLineIsOneLine()
    ensures OneLine(EXPANDED + "00000001")
  {
  }

  lemma FlagLineKey(line: string)
    requires StartsWith(line, EXPANDED)
    ensures !StartsWith(line, FOLDERS) && !StartsWith(line, SESSIONS)
  {
    assert line[3] == EXPANDED[3] && EXPANDED[3] != FOLDERS[3] && EXPANDED[3] != SESSIONS[3];
  }

  lemma FlagField(digits: string)
    requires digits == "00000001" || digits == "00000000"
    ensures StartsWith(EXPANDED + digits, EXPANDED)
    ensures |Split(EXPANDED + digits, '=')| > 1 && Field(EXPANDED + digits) == digits
  {
    var line := EXPANDED + digits;
    assert line[|EXPANDED|..] == digits;
    KeyedLineSplits(EXPANDED, line);
    DigitsField(digits);
  }

  lemma ParseFlagLine(r: Record, digits: string)
    requires digits == "00000001" || digits == "00000000"
    ensures ParseLine(r, EXPANDED + digits) == Some(r.(expanded := digits == "00000001"))
  {
    FlagField(digits);
    FlagLineKey(EXPANDED + digits);
    FlagIs(digits);
  }

  /** The quirk of the last `write`: the flag's line has no line end when set, and no key when not set. */
  lemma ParseTail(r: Record, expanded: bool)
    requires !r.expanded
    ensures ParseLines(r, Lines(if expanded then EXPANDED + "00000001" else "00000000" + "\r\n"))
            == Some(r.(expanded := expanded))
  {
    if expanded {
      FlagLineIsOneLine();
      FirstLine(EXPANDED + "00000001", "");
      ParseFlagLine(r, "00000001");
    } else {
      KeylessLine(r, "00000000");
    }
  }

  /** A line that is too short for a key changes nothing. */
  lemma KeylessLine(r: Record, line: string)
    requires OneLine(line) && |line| < |EXPANDED|
    ensures ParseLines(r, Lines(line + "\r\n")) == Some(r)
  {
    assert line + "\r\n" == line + ("\r\n" + "");
    FirstLine(line, "");
    FirstLine("", "");
    ShortLine(r, line);
    ShortLine(r, "");
    TwoQuietLines(r, line, "");
  }

  lemma ShortLine(r: Record, line: string)
    requires |line| < |EXPANDED|
    ensures ParseLine(r, line) == Some(r)
  {
    assert |EXPANDED| <= |FOLDERS| && |EXPANDED| <= |SESSIONS|;
    assert !StartsWith(line, FOLDERS) && !StartsWith(line, SESSIONS) && !StartsWith(line, EXPANDED);
  }

  lemma TwoQuietLines(r: Record, first: string, second: string)
    requires ParseLine(r, first) == Some(r) && ParseLine(r, second) == Some(r)
    ensures ParseLines(r, [first, second]) == Some(r)
  {
    assert [first, second][1..] == [second] && [second][1..] == [];
    assert ParseLines(r, [second]) == ParseLines(r, []) == Some(r);
  }

  // ---- exactly when ----

  /** Whatever the text, parsed names are plain and start with no blank that a line start would lose. */
  lemma {:induction false} ParsedNamesPlain(r: Record, lines: seq<string>)
    requires forall l :: l in lines ==> OneLine(l)
    requires forall x :: x in r.folders || x in r.sessions ==> PlainName(x)
    ensures var p := ParseLines(r, lines);
            p.Some? ==> forall x :: x in p.value.folders || x in p.value.sessions ==> PlainName(x)
    decreases |lines|
  {
    if lines == [] {
    } else {
      var next := ParseLine(r, lines[0]);
      assert lines[0] in lines;
      if next.Some? {
        ParsedLinePlain(r, lines[0]);
        ParsedNamesPlain(next.value, lines[1..]);
      }
    }
  }

  lemma ParsedLinePlain(r: Record, line: string)
    requires OneLine(line) && ParseLine(r, line).Some?
    requires forall x :: x in r.folders || x in r.sessions ==> PlainName(x)
    ensures var p := ParseLine(r, line).value; forall x :: x in p.folders || x in p.sessions ==> PlainName(x)
  {
    FieldNamesPlain(line);
    if StartsWith(line, FOLDERS) {
      KeyedLineSplits(FOLDERS, line);
    } else if StartsWith(line, SESSIONS) {
      KeyedLineSplits(SESSIONS, line);
    }
  }

  lemma {:induction false} StripKeepsChars(s: string)
    ensures forall c :: c in Strip(s) ==> c in s
    ensures Strip(s) != "" ==> !IsSpace(Strip(s)[0])
  {
    StripLeftChars(s);
    StripRightChars(StripLeft(s));
  }

  lemma {:induction false} StripLeftChars(s: string)
    ensures forall c :: c in StripLeft(s) ==> c in s
    ensures StripLeft(s) != "" ==> !IsSpace(StripLeft(s)[0])
  {
    if s != "" && IsSpace(s[0]) {
      StripLeftChars(s[1..]);
      assert forall c :: c in s[1..] ==> c in s;
    }
  }

  lemma {:induction false} StripRightChars(s: string)
    ensures forall c :: c in StripRight(s) ==> c in s
    ensures StripRight(s) <= s
  {
    if s != "" && IsSpace(s[|s| - 1]) {
      StripRightChars(s[..|s| - 1]);
      assert forall c :: c in s[..|s| - 1] ==> c in s;
    }
  }

  lemma FieldNamesPlain(line: string)
    requires OneLine(line)
    ensures |Split(line, '=')| > 1 ==> forall x :: x in NonEmpty(Split(Field(line), ':')) ==> PlainName(x)
  {
    PartsLackSeparator(line, '=');
    if |Split(line, '=')| > 1 {
      var field := Split(line, '=')[1];
      assert field in Split(line, '=');
      StripKeepsChars(field);
      PartsLackSeparator(Strip(field), ':');
      forall x | x in NonEmpty(Split(Field(line), ':')) ensures PlainName(x) {
        assert forall c :: c in x ==> c in line && !IsBreak(c);
      }
    }
  }

  lemma {:induction false} LinesAreLines(s: string)
    ensures forall l :: l in Lines(s) ==> OneLine(l)
    decreases |s|
  {
    var e := LineEnd(s);
    if e < |s| {
      if e + 1 < |s| && s[e] == '\r' && s[e + 1] == '\n' {
        LinesAreLines(s[e + 2..]);
      } else {
        LinesAreLines(s[e + 1..]);
      }
    }
  }

  /** What `save` joins behind the first name. */
  function Behind(xs: seq<string>): string
    requires xs != []
  {
    ":" + if |xs| == 1 then "" else Join(xs[1..], ':') + ":"
  }

  lemma JoinHeads(xs: seq<string>)
    requires xs != []
    ensures Join(xs, ':') + ":" == xs[0] + Behind(xs)
    ensures Behind(xs) != "" && Behind(xs)[0] == ':' && Behind(xs)[|Behind(xs)| - 1] == ':'
  {
    if |xs| > 1 {
      var body := Join(xs[1..], ':');
      assert Join(xs, ':') == xs[0] + [':'] + body;
      Regrouped(xs[0], body);
    }
  }

  lemma Regrouped(x: string, body: string)
    ensures x + [':'] + body + ":" == x + (":" + (body + ":"))
  {
  }

  lemma BehindSplits(x: string, xs: seq<string>)
    requires xs != [] && AllLack(xs, ':') && ':' !in x
    ensures Split(x + Behind(xs), ':') == [x] + xs[1..] + [""]
  {
    var body := if |xs| == 1 then "" else Join(xs[1..], ':') + ":";
    assert x + Behind(xs) == x + [':'] + body;
    PrefixSplits(x, body, ':');
    if |xs| > 1 {
      assert AllLack(xs[1..], ':');
      JoinedSplits(xs[1..]);
    }
  }

  lemma StripBoth(s: string, rest: string)
    requires rest != "" && rest[0] == ':' && rest[|rest| - 1] == ':'
    ensures Strip(s + rest) == StripLeft(s) + rest
  {
    StripPrefix(s, rest);
    var stripped := StripLeft(s) + rest;
    assert stripped[|stripped| - 1] == ':';
    StripKeepsEnd(stripped);
  }

  lemma AbsentFromParts(x: string, y: string, parts: seq<string>)
    requires x != y && x != "" && x !in parts
    ensures x !in NonEmpty([y] + parts + [""])
  {
  }

  /** The first name of a line loses its leading blanks, so the list does not come back. */
  lemma BlankFirstLost(xs: seq<string>)
    requires xs != [] && xs[0] != "" && AllLack(xs, ':') && IsSpace(xs[0][0]) && Distinct(xs)
    ensures xs[0] !in NonEmpty(Split(Strip(Join(xs, ':') + ":"), ':'))
  {
    var x := StripLeft(xs[0]);
    JoinHeads(xs);
    StripBoth(xs[0], Behind(xs));
    StripLeftChars(xs[0]);
    assert xs[0] in xs;
    BehindSplits(x, xs);
    FirstNotInRest(xs);
    AbsentFromParts(xs[0], x, xs[1..]);
  }

  lemma FirstNotInRest(xs: seq<string>)
    requires xs != [] && Distinct(xs)
    ensures xs[0] !in xs[1..]
  {
  }

  lemma {:induction false} StripPrefix(s: string, rest: string)
    requires rest != "" && !IsSpace(rest[0])
    ensures StripLeft(s + rest) == StripLeft(s) + rest
  {
    if s == "" {
      assert s + rest == rest;
    } else {
      assert (s + rest)[1..] == s[1..] + rest;
      if IsSpace(s[0]) { StripPrefix(s[1..], rest); }
    }
  }

  lemma StripKeepsEnd(s: string)
    requires s != "" && !IsSpace(s[|s| - 1])
    ensures StripRight(s) == s
  {
  }

  /**
   For distinct names in any order, such as the sorted order `save` uses, saving and parsing restores the record
   exactly when both lists are storable: the names are not empty, hold no ':', '=' or line break, and the
   first name of each list does not start with a blank.
   */
  lemma RoundTripExactly(folders: seq<string>, sessions: seq<string>, expanded: bool)
    requires Distinct(folders) && Distinct(sessions)
    ensures Parse(Text(folders, sessions, expanded)) == Some(Record(Elems(folders), Elems(sessions), expanded))
            <==> Storable(folders) && Storable(sessions)
  {
    var text := Text(folders, sessions, expanded);
    if Storable(folders) && Storable(sessions) {
      RoundTrip(folders, sessions, expanded);
    } else if Parse(text) == Some(Record(Elems(folders), Elems(sessions), expanded)) {
      LinesAreLines(text);
      ParsedNamesPlain(Record({}, {}, false), Lines(text));
      forall x | x in folders || x in sessions ensures PlainName(x) {
        assert x in Elems(folders) || x in Elems(sessions);
      }
      PlainParses(folders, sessions, expanded);
      if folders != [] && folders[0] != "" && IsSpace(folders[0][0]) {
        assert folders[0] in Elems(folders);
        BlankFirstLost(folders);
      }
      if sessions != [] && sessions[0] != "" && IsSpace(sessions[0][0]) {
        assert sessions[0] in Elems(sessions);
        BlankFirstLost(sessions);
      }
    }
  }

  /** A saved file of plain names holds both lists, each with its names behind the key. */
  lemma SavedHasLists(folders: seq<string>, sessions: seq<string>, expanded: bool)
    requires (forall x :: x in folders ==> PlainName(x)) && (forall x :: x in sessions ==> PlainName(x))
    ensures HasLists(Text(folders, sessions, expanded))
  {
    var fLine, sLine := FOLDERS + (Join(folders, ':') + ":"), SESSIONS + (Join(sessions, ':') + ":");
    ListLine(FOLDERS, folders);
    ListLine(SESSIONS, sessions);
    TextLines(folders, sessions, expanded);
    TwoLists(Text(folders, sessions, expanded), fLine, sLine,
             Lines(if expanded then EXPANDED + "00000001" else "00000000" + "\r\n"));
  }

  lemma TwoLists(text: string, fLine: string, sLine: string, rest: seq<string>)
    requires Lines(text) == [fLine, sLine] + rest && StartsWith(fLine, FOLDERS) && StartsWith(sLine, SESSIONS)
    ensures HasLists(text)
  {
    assert Lines(text)[0] == fLine && Lines(text)[1] == sLine;
    assert fLine in Lines(text) && sLine in Lines(text);
  }

  lemma PlainParses(folders: seq<string>, sessions: seq<string>, expanded: bool)
    requires (forall x :: x in folders ==> PlainName(x)) && (forall x :: x in sessions ==> PlainName(x))
    ensures Parse(Text(folders, sessions, expanded))
            == Some(Record(NonEmpty(Split(Strip(Join(folders, ':') + ":"), ':')),
                           NonEmpty(Split(Strip(Join(sessions, ':') + ":"), ':')), expanded))
  {
    var tail := if expanded then EXPANDED + "00000001" else "00000000" + "\r\n";
    var fLine, sLine := FOLDERS + (Join(folders, ':') + ":"), SESSIONS + (Join(sessions, ':') + ":");
    ListLine(FOLDERS, folders);
    ListLine(SESSIONS, sessions);
    TextLines(folders, sessions, expanded);
    ParseTwo(fLine, sLine, Lines(tail));
    ParseTail(Record(NonEmpty(Split(Field(fLine), ':')), NonEmpty(Split(Field(sLine), ':')), false), expanded);
  }

  // ---- any file ----

  /** No line of the file is a later one of the key. */
  ghost predicate LastOf(lines: seq<string>, key: string, k: int) {
    0 <= k < |lines| && StartsWith(lines[k], key) && forall j :: k < j < |lines| ==> !StartsWith(lines[j], key)
  }

  ghost predicate NoneOf(lines: seq<string>, key: string) {
    forall j :: 0 <= j < |lines| ==> !StartsWith(lines[j], key)
  }

  /** What stands behind the key, up to the next equals sign and without blanks around it. */
  ghost function ValueText(line: string, key: string): string
    requires StartsWith(line, key)
  {
    Strip(Split(line[|key|..], '=')[0])
  }

  ghost function Entries(line: string, key: string): set<string>
    requires StartsWith(line, key)
  {
    set e | e in Split(ValueText(line, key), ':') && e != ""
  }

  lemma LastShifts(first: string, rest: seq<string>, key: string, k: int)
    requires LastOf([first] + rest, key, k)
    ensures k == 0 ==> NoneOf(rest, key)
    ensures k > 0 ==> LastOf(rest, key, k - 1) && rest[k - 1] == ([first] + rest)[k]
  {
    var all := [first] + rest;
    assert forall j :: 0 <= j < |rest| ==> rest[j] == all[j + 1];
  }

  lemma NoneShifts(first: string, rest: seq<string>, key: string)
    ensures NoneOf([first] + rest, key) <==> !StartsWith(first, key) && NoneOf(rest, key)
  {
    var all := [first] + rest;
    assert all[0] == first && forall j :: 0 <= j < |rest| ==> rest[j] == all[j + 1];
  }

  /** One field: the last line of its key gives it, and without such a line it stays as it was. */
  ghost predicate FoldersTell(before: Record, lines: seq<string>, r: Record) {
    && (NoneOf(lines, FOLDERS) ==> r.folders == before.folders)
    && forall k :: LastOf(lines, FOLDERS, k) ==> r.folders == Entries(lines[k], FOLDERS)
  }

  ghost predicate SessionsTell(before: Record, lines: seq<string>, r: Record) {
    && (NoneOf(lines, SESSIONS) ==> r.sessions == before.sessions)
    && forall k :: LastOf(lines, SESSIONS, k) ==> r.sessions == Entries(lines[k], SESSIONS)
  }

  ghost predicate FlagTells(before: Record, lines: seq<string>, r: Record) {
    && (NoneOf(lines, EXPANDED) ==> r.expanded == before.expanded)
    && forall k :: LastOf(lines, EXPANDED, k) ==> Flag(ValueText(lines[k], EXPANDED)) == Some(r.expanded)
  }

  /** A flag line whose text is no number. */
  ghost predicate BadFlag(line: string) {
    StartsWith(line, EXPANDED) && Flag(ValueText(line, EXPANDED)).None?
  }

  lemma OneKey(line: string)
    ensures StartsWith(line, FOLDERS) ==> !StartsWith(line, SESSIONS) && !StartsWith(line, EXPANDED)
    ensures StartsWith(line, SESSIONS) ==> !StartsWith(line, EXPANDED)
  {
    assert FOLDERS[3] != SESSIONS[3] && SESSIONS[3] != EXPANDED[3] && FOLDERS[3] != EXPANDED[3];
    if StartsWith(line, FOLDERS) { assert line[3] == FOLDERS[3]; }
    if StartsWith(line, SESSIONS) { assert line[3] == SESSIONS[3]; }
    if StartsWith(line, EXPANDED) { assert line[3] == EXPANDED[3]; }
  }

  /** What one line does to the record. */
  lemma LineTells(r: Record, line: string)
    ensures BadFlag(line) <==> ParseLine(r, line).None?
    ensures !BadFlag(line) ==>
              var s := ParseLine(r, line).value;
              && s.folders == (if StartsWith(line, FOLDERS) then Entries(line, FOLDERS) else r.folders)
              && s.sessions == (if StartsWith(line, SESSIONS) then Entries(line, SESSIONS) else r.sessions)
              && (if StartsWith(line, EXPANDED) then Flag(ValueText(line, EXPANDED)) == Some(s.expanded)
                  else s.expanded == r.expanded)
  {
    OneKey(line);
    if StartsWith(line, FOLDERS) {
      KeyedLineSplits(FOLDERS, line);
    } else if StartsWith(line, SESSIONS) {
      KeyedLineSplits(SESSIONS, line);
    } else if StartsWith(line, EXPANDED) {
      KeyedLineSplits(EXPANDED, line);
    }
  }

  lemma FoldersGoOn(before: Record, first: string, rest: seq<string>, next: Record, r: Record)
    requires next.folders == if StartsWith(first, FOLDERS) then Entries(first, FOLDERS) else before.folders
    requires FoldersTell(next, rest, r)
    ensures FoldersTell(before, [first] + rest, r)
  {
    NoneShifts(first, rest, FOLDERS);
    forall k | LastOf([first] + rest, FOLDERS, k) ensures r.folders == Entries(([first] + rest)[k], FOLDERS) {
      LastShifts(first, rest, FOLDERS, k);
    }
  }

  lemma SessionsGoOn(before: Record, first: string, rest: seq<string>, next: Record, r: Record)
    requires next.sessions == if StartsWith(first, SESSIONS) then Entries(first, SESSIONS) else before.sessions
    requires SessionsTell(next, rest, r)
    ensures SessionsTell(before, [first] + rest, r)
  {
    NoneShifts(first, rest, SESSIONS);
    forall k | LastOf([first] + rest, SESSIONS, k) ensures r.sessions == Entries(([first] + rest)[k], SESSIONS) {
      LastShifts(first, rest, SESSIONS, k);
    }
  }

  lemma FlagGoesOn(before: Record, first: string, rest: seq<string>, next: Record, r: Record)
    requires if StartsWith(first, EXPANDED) then Flag(ValueText(first, EXPANDED)) == Some(next.expanded)
             else next.expanded == before.expanded
    requires FlagTells(next, rest, r)
    ensures FlagTells(before, [first] + rest, r)
  {
    NoneShifts(first, rest, EXPANDED);
    forall k | LastOf([first] + rest, EXPANDED, k)
      ensures Flag(ValueText(([first] + rest)[k], EXPANDED)) == Some(r.expanded)
    {
      LastShifts(first, rest, EXPANDED, k);
    }
  }

  lemma {:induction false} LinesTell(before: Record, lines: seq<string>)
    ensures ParseLines(before, lines).None? <==> exists k :: 0 <= k < |lines| && BadFlag(lines[k])
    ensures ParseLines(before, lines).Some? ==>
              var r := ParseLines(before, lines).value;
              FoldersTell(before, lines, r) && SessionsTell(before, lines, r) && FlagTells(before, lines, r)
    decreases |lines|
  {
    if lines != [] {
      var first, rest := lines[0], lines[1..];
      assert lines == [first] + rest;
      LineTells(before, first);
      if !BadFlag(first) {
        var next := ParseLine(before, first).value;
        LinesTell(next, rest);
        LaterBadFlag(first, rest, lines);
        if ParseLines(next, rest).Some? {
          var r := ParseLines(next, rest).value;
          FoldersGoOn(before, first, rest, next, r);
          SessionsGoOn(before, first, rest, next, r);
          FlagGoesOn(before, first, rest, next, r);
        }
      }
    }
  }

  lemma LaterBadFlag(first: string, rest: seq<string>, all: seq<string>)
    requires !BadFlag(first) && all == [first] + rest
    ensures (exists k :: 0 <= k < |all| && BadFlag(all[k])) <==> exists k :: 0 <= k < |rest| && BadFlag(rest[k])
  {
    if k :| 0 <= k < |all| && BadFlag(all[k]) { assert BadFlag(rest[k - 1]); }
    if k :| 0 <= k < |rest| && BadFlag(rest[k]) { assert BadFlag(all[k + 1]); }
  }

  lemma {:induction false} NonzeroDigits(s: string)
    ensures NotZero(s) <==> NotZero(Digits(s))
  {
    if s != "" {
      var head, rest := if IsDigit(s[0]) then [s[0]] else [], s[1..];
      NonzeroDigits(rest);
      assert Digits(s) == head + Digits(rest) && s == [s[0]] + rest;
      NotZeroConcat([s[0]], rest);
      NotZeroConcat(head, Digits(rest));
      assert NotZero([s[0]]) <==> NotZero(head) by {
        if NotZero([s[0]]) { assert head[0] == s[0]; }
      }
    }
  }

  lemma NotZeroConcat(a: string, b: string)
    ensures NotZero(a + b) <==> NotZero(a) || NotZero(b)
  {
    if i :| 0 <= i < |a| && IsDigit(a[i]) && a[i] != '0' { assert (a + b)[i] == a[i]; }
    if i :| 0 <= i < |b| && IsDigit(b[i]) && b[i] != '0' { assert (a + b)[|a| + i] == b[i]; }
  }

  lemma {:induction false} NotZeroIsNumber(s: string)
    requires AllDigits(s)
    ensures Number(s) >= 0 && (NotZero(s) <==> Number(s) != 0)
  {
    if s != "" {
      var init, last := s[..|s| - 1], s[|s| - 1];
      NotZeroIsNumber(init);
      assert s == init + [last] && IsDigit(last);
      NotZeroConcat(init, [last]);
      assert NotZero([last]) <==> last != '0' by {
        if last != '0' { assert [last][0] == last; }
      }
    }
  }

  /** A flag is set if its number, without sign and underscores, is not 0. */
  lemma FlagIsNumber(text: string)
    requires Flag(text).Some?
    ensures Flag(text).value <==> Number(Digits(Unsigned(text))) != 0
  {
    NonzeroDigits(Unsigned(text));
    DigitsAreDigits(Unsigned(text));
    NotZeroIsNumber(Digits(Unsigned(text)));
  }

  /**
   What is read from any file: each list comes from the last line of its key and the flag from the last flag line;
   a list without a line is empty, a flag without a line unset, and a flag line that is no number raises.
   */
  lemma ParsedExactly(text: string, lines: seq<string>)
    requires lines == Lines(text)
    ensures Parse(text).None? <==> exists k :: 0 <= k < |lines| && BadFlag(lines[k])
    ensures Parse(text).Some? ==>
              var r, nothing := Parse(text).value, Record({}, {}, false);
              FoldersTell(nothing, lines, r) && SessionsTell(nothing, lines, r) && FlagTells(nothing, lines, r)
  {
    LinesTell(Record({}, {}, false), lines);
  }
}
