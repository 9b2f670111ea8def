/** The `__FolderData__.ini` record of ansible/devutil/ssh_session_repo.py: its printer and its parser. */
module FolderData {
  import opened Common

  datatype Record = Record(folders: set<string>, sessions: set<string>, expanded: bool)

  // ---- string operations ----

  /** What `str.isspace` accepts and `str.strip` removes. */
  predicate IsSpace(c: char) {
    c in " \t\n\r" || c as int in {0x0B, 0x0C, 0x1C, 0x1D, 0x1E, 0x1F, 0x85, 0xA0, 0x1680,
                                   0x2000, 0x2001, 0x2002, 0x2003, 0x2004, 0x2005, 0x2006, 0x2007, 0x2008, 0x2009,
                                   0x200A,
                                   0x2028, 0x2029, 0x202F, 0x205F, 0x3000}
  }

  function StripLeft(s: string): string {
    if s != "" && IsSpace(s[0]) then StripLeft(s[1..]) else s
  }

  function StripRight(s: string): string {
    if s != "" && IsSpace(s[|s| - 1]) then StripRight(s[..|s| - 1]) else s
  }

  function Strip(s: string): string {
    StripRight(StripLeft(s))
  }

  function Split(s: string, sep: char): (parts: seq<string>)
    ensures |parts| > 0
  {
    if s == "" then [""]
    else
      var rest := Split(s[1..], sep);
      if s[0] == sep then [""] + rest else [[s[0]] + rest[0]] + rest[1..]
  }

  function Join(xs: seq<string>, sep: char): string {
    if xs == [] then "" else if |xs| == 1 then xs[0] else xs[0] + [sep] + Join(xs[1..], sep)
  }

  predicate IsBreak(c: char) {
    c == '\n' || c == '\r'
  }

  function LineEnd(s: string): (e: nat)
    ensures e <= |s|
    ensures forall i :: 0 <= i < e ==> !IsBreak(s[i])
    ensures e < |s| ==> IsBreak(s[e])
  {
    if s == "" || IsBreak(s[0]) then 0 else 1 + LineEnd(s[1..])
  }

  /** Reading in text mode: a carriage return, a newline or the pair ends a line. */
  function Lines(s: string): seq<string>
    decreases |s|
  {
    var e := LineEnd(s);
    if e == |s| then [s]
    else if e + 1 < |s| && s[e] == '\r' && s[e + 1] == '\n' then [s[..e]] + Lines(s[e + 2..])
    else [s[..e]] + Lines(s[e + 1..])
  }

  // ---- printing ----

  const FOLDERS: string := "S:\"Folder List\"="
  const SESSIONS: string := "S:\"Session List\"="
  const EXPANDED: string := "S:\"Is Expanded\"="

  /** The file as `save` writes it; the flag's key and line end are each written on one branch only. */
  function Text(folders: seq<string>, sessions: seq<string>, expanded: bool): string {
    FOLDERS + Join(folders, ':') + ":\r\n"
    + (SESSIONS + Join(sessions, ':') + ":\r\n"
       + if expanded then EXPANDED + "00000001" else "00000000" + "\r\n")
  }

  /** The file written for a new folder. */
  const EMPTY_TEXT: string := FOLDERS + "\r\n" + (SESSIONS + "\r\n" + (EXPANDED + "00000000" + "\r\n"))

  // ---- parsing ----

  function Field(line: string): string
    requires |Split(line, '=')| > 1
  {
    Strip(Split(line, '=')[1])
  }

  function NonEmpty(parts: seq<string>): set<string> {
    set e | e in parts && e != ""
  }

  /** Digits with single underscores between them, as `int` reads them behind an optional sign. */
  predicate IsNumeral(s: string) {
    && s != "" && IsDigit(s[0]) && IsDigit(s[|s| - 1])
    && forall i :: 0 <= i < |s| ==> IsDigit(s[i]) || (s[i] == '_' && 0 < i && s[i - 1] != '_')
  }

  function Unsigned(text: string): string {
    if text != "" && (text[0] == '+' || text[0] == '-') then text[1..] else text
  }

  predicate NotZero(s: string) {
    exists i :: 0 <= i < |s| && IsDigit(s[i]) && s[i] != '0'
  }

  /** `bool(int(text))`; None where the source raises. */
  function Flag(text: string): Option<bool> {
    if IsNumeral(Unsigned(text)) then Some(NotZero(Unsigned(text))) else None
  }

  lemma {:induction false} PrefixSplits(prefix: string, body: string, sep: char)
    requires sep !in prefix
    ensures Split(prefix + [sep] + body, sep) == [prefix] + Split(body, sep)
  {
    var s := prefix + [sep] + body;
    if prefix == "" {
      assert s[1..] == body;
    } else {
      PrefixSplits(prefix[1..], body, sep);
      assert s[1..] == prefix[1..] + [sep] + body;
      assert prefix == [prefix[0]] + prefix[1..] && s[0] == prefix[0] != sep;
    }
  }

  /** A line behind a key that holds one equals sign, its last character. */
  lemma KeySplits(stem: string, key: string, line: string)
    requires '=' !in stem && key == stem + ['='] && StartsWith(line, key)
    ensures Split(line, '=') == [stem] + Split(line[|key|..], '=')
  {
    PrefixSplits(stem, line[|key|..], '=');
    assert line == stem + ['='] + line[|key|..];
  }

  lemma KeyShape(key: string)
    requires key in {FOLDERS, SESSIONS, EXPANDED}
    ensures key != "" && '=' !in key[..|key| - 1] && key == key[..|key| - 1] + ['=']
  {
  }

  lemma KeyedLineSplits(key: string, line: string)
    requires key in {FOLDERS, SESSIONS, EXPANDED} && StartsWith(line, key)
    ensures Split(line, '=') == [key[..|key| - 1]] + Split(line[|key|..], '=')
  {
    KeyShape(key);
    KeySplits(key[..|key| - 1], key, line);
  }

  function ParseLine(r: Record, line: string): Option<Record> {
    if StartsWith(line, FOLDERS) then
      KeyedLineSplits(FOLDERS, line);
      Some(r.(folders := NonEmpty(Split(Field(line), ':'))))
    else if StartsWith(line, SESSIONS) then
      KeyedLineSplits(SESSIONS, line);
      Some(r.(sessions := NonEmpty(Split(Field(line), ':'))))
    else if StartsWith(line, EXPANDED) then
      KeyedLineSplits(EXPANDED, line);
      var flag := Flag(Field(line));
      if flag.None? then None else Some(r.(expanded := flag.value))
    else Some(r)
  }

  function ParseLines(r: Record, lines: seq<string>): Option<Record>
    decreases |lines|
  {
    if lines == [] then Some(r)
    else
      var next := ParseLine(r, lines[0]);
      if next.None? then None else ParseLines(next.value, lines[1..])
  }

  function Parse(text: string): Option<Record> {
    ParseLines(Record({}, {}, false), Lines(text))
  }

  /** The file holds a line of the key; without one the source keeps a list, which has no `add`. */
  ghost predicate HasLine(text: string, key: string) {
    exists line :: line in Lines(text) && StartsWith(line, key)
  }

  ghost predicate HasLists(text: string) {
    HasLine(text, FOLDERS) && HasLine(text, SESSIONS)
  }

  /** The loop over the lines of the file. */
  method ParseIni(text: string) returns (r: Option<Record>)
    ensures r == Parse(text)
  {
    var lines := Lines(text);
    var record := Record({}, {}, false);
    for i := 0 to |lines|
      invariant ParseLines(record, lines[i..]) == Parse(text)
    {
      assert lines[i..][0] == lines[i] && lines[i..][1..] == lines[i + 1..];
      var next := ParseLine(record, lines[i]);
      if next.None? {
        return None;
      }
      record := next.value;
    }
    r := Some(record);
  }

  // ---- sorting names ----

  /** Code point order, as `sorted` compares strings. */
  predicate Less(a: string, b: string) {
    if b == "" then false
    else if a == "" then true
    else a[0] < b[0] || (a[0] == b[0] && Less(a[1..], b[1..]))
  }

  lemma {:induction false} LessTotal(a: string, b: string)
    ensures a != b <==> Less(a, b) || Less(b, a)
  {
    if a != "" && b != "" {
      LessTotal(a[1..], b[1..]);
      if a[0] == b[0] && a[1..] == b[1..] { assert a == [a[0]] + a[1..] && b == [b[0]] + b[1..]; }
    }
  }

  lemma {:induction false} LessTransitive(a: string, b: string, c: string)
    requires Less(a, b) && Less(b, c)
    ensures Less(a, c)
  {
    if a != "" && a[0] == b[0] && b[0] == c[0] {
      LessTransitive(a[1..], b[1..], c[1..]);
    }
  }

  ghost predicate Sorted(xs: seq<string>) {
    forall i, j :: 0 <= i < j < |xs| ==> Less(xs[i], xs[j])
  }

  method SortNames(names: set<string>) returns (xs: seq<string>)
    ensures Sorted(xs) && Elems(xs) == names
  {
    xs := [];
    var rest := names;
    while rest != {}
      invariant Sorted(xs) && rest <= names && Elems(xs) == names - rest
      decreases rest
    {
      var x :| x in rest;
      rest := rest - {x};
      xs := Insert(xs, x);
    }
  }

  method Insert(xs: seq<string>, x: string) returns (ys: seq<string>)
    requires Sorted(xs) && x !in xs
    ensures Sorted(ys) && Elems(ys) == Elems(xs) + {x}
  {
    var i := 0;
    while i < |xs| && Less(xs[i], x)
      invariant i <= |xs| && forall k :: 0 <= k < i ==> Less(xs[k], x)
    {
      i := i + 1;
    }
    forall k | i <= k < |xs| ensures Less(x, xs[k]) {
      LessTotal(x, xs[i]);
      if k > i { LessTransitive(x, xs[i], xs[k]); }
    }
    ys := xs[..i] + [x] + xs[i..];
    assert xs == xs[..i] + xs[i..];
    assert forall y :: y in ys <==> y in xs[..i] || y == x || y in xs[i..];
  }

  method Save(r: Record) returns (text: string)
    ensures exists fs, ss :: Sorted(fs) && Elems(fs) == r.folders && Sorted(ss) && Elems(ss) == r.sessions
              && text == Text(fs, ss, r.expanded)
  {
    var fs := SortNames(r.folders);
    var ss := SortNames(r.sessions);
    text := Text(fs, ss, r.expanded);
  }
}
