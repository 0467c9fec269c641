/** The manifest: which runs are live, printed and parsed (src/storage/manifest.rs). Text is ASCII. */
module Manifests {
  import opened Octets
  import opened Bytes
  import opened Crc32s
  import opened Texts

  const FORMAT_HEADER: string := "vectordb-manifest 1"
  const CHECKSUM_PREFIX: string := "crc32 "

  datatype RunEntry = RunEntry(level: nat, sequence: nat, files: seq<string>, units: nat)

  datatype Manifest = Manifest(runs: seq<RunEntry>, nextSequence: nat)

  predicate IsAscii(s: string) {
    forall i :: 0 <= i < |s| ==> s[i] as int < 128
  }

  function AsBytes(s: string): (r: seq<byte>)
    requires IsAscii(s)
    ensures |r| == |s|
  {
    seq(|s|, i requires 0 <= i < |s| => s[i] as byte)
  }

  // ---------------------------------------------------------------------
  // Printing
  // ---------------------------------------------------------------------

  function RunFields(run: RunEntry): seq<string> {
    ["run", Print(run.level, 10), Print(run.sequence, 10), Print(run.units, 10)] + run.files
  }

  function RunLines(runs: seq<RunEntry>): string {
    if |runs| == 0 then "" else Joined(RunFields(runs[0])) + "\n" + RunLines(runs[1..])
  }

  function Body(m: Manifest): string {
    FORMAT_HEADER + "\n" + ("next-sequence " + Print(m.nextSequence, 10) + "\n" + RunLines(m.runs))
  }

  function ChecksumLine(body: string): string
    requires IsAscii(body)
  {
    CHECKSUM_PREFIX + Padded(Crc(AsBytes(body)), 16, 8) + "\n"
  }

  /** The bytes that `store` writes aside, syncs and renames into place. */
  function Contents(m: Manifest): string
    requires IsAscii(Body(m))
  {
    Body(m) + ChecksumLine(Body(m))
  }

  // ---------------------------------------------------------------------
  // Parsing
  // ---------------------------------------------------------------------

  /** Where the last occurrence of the prefix starts, as `rsplit_once` finds it. */
  function LastPrefix(s: string, at: nat): (r: Option<nat>)
    requires at <= |s|
    ensures r.Some? ==> r.value <= at && CHECKSUM_PREFIX <= s[r.value..]
  {
    if CHECKSUM_PREFIX <= s[at..] then Some(at)
    else if at == 0 then None
    else LastPrefix(s, at - 1)
  }

  function ParseRun(fields: seq<string>): Result<RunEntry> {
    if |fields| < 5 then Err
    else
      var level, sequence, units :=
        ParseNumber(fields[1], 10, U64), ParseNumber(fields[2], 10, U64), ParseNumber(fields[3], 10, U64);
      if level.None? || sequence.None? || units.None? then Err
      else Ok(RunEntry(level.value, sequence.value, fields[4..], units.value))
  }

  function ParseLine(m: Manifest, fields: seq<string>): Result<Manifest> {
    if |fields| == 0 then Ok(m)
    else if fields[0] == "next-sequence" then
      if |fields| < 2 then Err
      else
        var next := ParseNumber(fields[1], 10, U64);
        if next.None? then Err else Ok(m.(nextSequence := next.value))
    else if fields[0] == "run" then
      match ParseRun(fields)
      case Err => Err
      case Ok(run) => Ok(m.(runs := m.runs + [run]))
    else Ok(m)
  }

  function ParseLines(m: Manifest, lines: seq<string>): Result<Manifest>
    decreases |lines|
  {
    if |lines| == 0 then Ok(m)
    else
      match ParseLine(m, Fields(lines[0]))
      case Err => Err
      case Ok(next) => ParseLines(next, lines[1..])
  }

  /** `load` on the contents of an existing manifest file. */
  function Load(contents: string): Result<Manifest>
    requires IsAscii(contents)
  {
    match LastPrefix(contents, |contents|)
    case None => Err
    case Some(split) =>
      var body := contents[..split];
      var expected := ParseNumber(Trim(contents[split + |CHECKSUM_PREFIX|..]), 16, U32);
      if expected.None? || Crc(AsBytes(body)) != expected.value then Err
      else
        var lines := Lines(body);
        if |lines| == 0 || Trim(lines[0]) != FORMAT_HEADER then Err
        else ParseLines(Manifest([], 0), lines[1..])
  }

  // ---------------------------------------------------------------------
  // What is stored loads back
  // ---------------------------------------------------------------------

  predicate ValidRun(run: RunEntry) {
    && run.level < U64 && run.sequence < U64 && run.units < U64
    && |run.files| > 0 && forall i :: 0 <= i < |run.files| ==> IsWord(run.files[i])
  }

  ghost predicate Valid(m: Manifest) {
    m.nextSequence < U64 && forall i :: 0 <= i < |m.runs| ==> ValidRun(m.runs[i])
  }

  lemma FieldsAreWords(run: RunEntry)
    requires ValidRun(run)
    ensures forall i :: 0 <= i < |RunFields(run)| ==> IsWord(RunFields(run)[i])
  {
    PrintIsDigits(run.level, 10);
    PrintIsDigits(run.sequence, 10);
    PrintIsDigits(run.units, 10);
    DigitsAreWord(Print(run.level, 10), 10);
    DigitsAreWord(Print(run.sequence, 10), 10);
    DigitsAreWord(Print(run.units, 10), 10);
    RunIsWord();
    hide IsWord, Print, AllDigits, DigitsValue;
  }

  lemma RunIsWord()
    ensures IsWord("run") && IsWord("next-sequence")
  {}

  lemma ParsesRun(m: Manifest, run: RunEntry)
    requires ValidRun(run)
    ensures ParseLine(m, Fields(Joined(RunFields(run)))) == Ok(m.(runs := m.runs + [run]))
  {
    FieldsAreWords(run);
    FieldsOfJoined(RunFields(run));
    UnpaddedRoundTrip(run.level, U64);
    UnpaddedRoundTrip(run.sequence, U64);
    UnpaddedRoundTrip(run.units, U64);
    hide IsWord, Print, ParseNumber, Fields, Joined;
    assert RunFields(run)[4..] == run.files;
  }

  lemma {:induction false} ParsesRunLines(m: Manifest, runs: seq<RunEntry>)
    requires forall i :: 0 <= i < |runs| ==> ValidRun(runs[i])
    ensures ParseLines(m, Lines(RunLines(runs))) == Ok(m.(runs := m.runs + runs))
    decreases |runs|
  {
    hide ValidRun, IsLine, RunFields, ParseLine, Fields, Joined, ParseLines, Lines;
    if |runs| == 0 {
      assert m.runs + runs == m.runs;
      ParsesNothing(m);
    } else {
      var line := Joined(RunFields(runs[0]));
      RunLineIsLine(runs[0]);
      FirstLine(line, RunLines(runs[1..]));
      ParsesRun(m, runs[0]);
      var next := m.(runs := m.runs + [runs[0]]);
      ParsesRunLines(next, runs[1..]);
      ParsesFirst(m, line, Lines(RunLines(runs[1..])));
      assert next.runs + runs[1..] == m.runs + runs;
    }
  }

  lemma ParsesNothing(m: Manifest)
    ensures ParseLines(m, Lines(RunLines([]))) == Ok(m)
  {}

  lemma ParsesFirst(m: Manifest, line: string, lines: seq<string>)
    requires ParseLine(m, Fields(line)).Ok?
    ensures ParseLines(m, [line] + lines) == ParseLines(ParseLine(m, Fields(line)).value, lines)
  {
    hide ParseLine, Fields;
    assert ([line] + lines)[1..] == lines;
  }

  lemma RunLineIsLine(run: RunEntry)
    requires ValidRun(run)
    ensures IsLine(Joined(RunFields(run)))
  {
    FieldsAreWords(run);
    JoinedIsLine(RunFields(run));
  }

  lemma NextSequenceLine(n: nat)
    requires n < U64
    ensures IsLine("next-sequence " + Print(n, 10))
    ensures ParseLine(Manifest([], 0), Fields("next-sequence " + Print(n, 10))) == Ok(Manifest([], n))
  {
    hide IsLine, Fields, Joined, ParseLine, Print;
    NextSequenceWords(n);
    ParsesNextSequence(n);
    JoinedIsLine(["next-sequence", Print(n, 10)]);
    FieldsOfJoined(["next-sequence", Print(n, 10)]);
  }

  lemma NextSequenceWords(n: nat)
    ensures forall i :: 0 <= i < 2 ==> IsWord(["next-sequence", Print(n, 10)][i])
    ensures Joined(["next-sequence", Print(n, 10)]) == "next-sequence " + Print(n, 10)
  {
    PrintIsDigits(n, 10);
    DigitsAreWord(Print(n, 10), 10);
    RunIsWord();
    hide Print, IsWord;
    var words := ["next-sequence", Print(n, 10)];
    assert Joined(words[1..]) == Print(n, 10);
    assert Joined(words) == "next-sequence" + " " + Print(n, 10) == "next-sequence " + Print(n, 10);
  }

  lemma ParsesNextSequence(n: nat)
    requires n < U64
    ensures ParseLine(Manifest([], 0), ["next-sequence", Print(n, 10)]) == Ok(Manifest([], n))
  {
    hide Print, ParseNumber, ParseRun;
    UnpaddedRoundTrip(n, U64);
  }

  lemma ParsesBody(m: Manifest)
    requires Valid(m)
    ensures Lines(Body(m)) == [FORMAT_HEADER]
            + Lines("next-sequence " + Print(m.nextSequence, 10) + "\n" + RunLines(m.runs))
    ensures ParseLines(Manifest([], 0), Lines(Body(m))[1..]) == Ok(m)
  {
    NextSequenceLine(m.nextSequence);
    HeaderIsLine();
    hide IsLine, ParseLine, Fields, Print, ValidRun;
    var second := "next-sequence " + Print(m.nextSequence, 10);
    FirstLine(FORMAT_HEADER, second + "\n" + RunLines(m.runs));
    FirstLine(second, RunLines(m.runs));
    ParsesRunLines(Manifest([], m.nextSequence), m.runs);
    assert [] + m.runs == m.runs;
    assert Lines(Body(m))[1..] == [second] + Lines(RunLines(m.runs));
  }

  lemma HeaderIsLine()
    ensures IsLine(FORMAT_HEADER) && Trim(FORMAT_HEADER) == FORMAT_HEADER
  {
    TrimsNothing(FORMAT_HEADER);
  }

  lemma TrimsNothing(s: string)
    requires |s| > 0 && !IsSpace(s[0]) && !IsSpace(s[|s| - 1])
    ensures Trim(s) == s
  {
    assert TrimStart(s) == s && TrimEnd(s) == s;
  }

  lemma {:induction false} NoPrefixLater(s: string, from: nat, at: nat)
    requires from <= at <= |s| && CHECKSUM_PREFIX <= s[from..]
    requires forall i :: from < i <= at ==> !(CHECKSUM_PREFIX <= s[i..])
    ensures LastPrefix(s, at) == Some(from)
    decreases at - from
  {
    if at > from { NoPrefixLater(s, from, at - 1); }
  }

  /** Nothing after the checksum line's own prefix looks like another one: no further space follows. */
  lemma SplitsAtChecksum(body: string, digits: string)
    requires IsWord(digits)
    ensures LastPrefix(body + (CHECKSUM_PREFIX + digits + "\n"), |body + (CHECKSUM_PREFIX + digits + "\n")|)
            == Some(|body|)
  {
    var s := body + (CHECKSUM_PREFIX + digits + "\n");
    assert s[|body|..] == CHECKSUM_PREFIX + digits + "\n";
    forall i | |body| < i <= |s| ensures !(CHECKSUM_PREFIX <= s[i..]) {
      if i + 5 < |s| { assert s[i + 5] == (digits + "\n")[i + 5 - |body| - 6]; }
      NotPrefix(s, i);
    }
    NoPrefixLater(s, |body|, |s|);
  }

  lemma NotPrefix(s: string, i: nat)
    requires i <= |s| && (i + 5 < |s| ==> s[i + 5] != ' ')
    ensures !(CHECKSUM_PREFIX <= s[i..])
  {
    assert CHECKSUM_PREFIX[5] == ' ';
    if i + 5 < |s| { assert s[i..][5] == s[i + 5]; }
  }

  lemma TrimsNewline(word: string)
    requires IsWord(word)
    ensures Trim(word + "\n") == word
  {
    var s := word + "\n";
    assert s[0] == word[0];
    assert TrimStart(s) == s;
    assert s[..|s| - 1] == word;
    assert TrimEnd(s) == TrimEnd(word) == word;
  }

  /** The commit point's format: what `store` writes, `load` reads back. */
  lemma StoredLoads(m: Manifest)
    requires Valid(m) && IsAscii(Body(m))
    ensures IsAscii(Contents(m)) && Load(Contents(m)) == Ok(m)
  {
    hide Crc, IsWord, ParseNumber, Trim, LastPrefix, ParseLines, Lines, AllDigits, DigitsValue, Valid, AsBytes, IsAscii;
    hide Body, Padded, Joined, Print;
    ContentsAreAscii(m);
    var body := Body(m);
    var crc := Crc(AsBytes(body));
    var digits := Padded(crc, 16, 8);
    PaddedIsDigits(crc, 16, 8);
    DigitsAreWord(digits, 16);
    NumberRoundTrip(crc, 16, 8, U32);
    ParsesBody(m);
    HeaderIsLine();
    SplitsAtChecksum(body, digits);
    TrimsNewline(digits);
    SplitContents(body, digits);
    assert Contents(m) == body + (CHECKSUM_PREFIX + digits + "\n");
  }

  lemma ContentsAreAscii(m: Manifest)
    requires IsAscii(Body(m))
    ensures IsAscii(Contents(m))
  {
    var digits := Padded(Crc(AsBytes(Body(m))), 16, 8);
    PaddedIsDigits(Crc(AsBytes(Body(m))), 16, 8);
    hide Body, Crc, Padded, DigitsValue;
    forall i | 0 <= i < |digits| ensures digits[i] as int < 128 { assert ValueOf(digits[i]) < 16; }
  }

  lemma SplitContents(body: string, digits: string)
    ensures (body + (CHECKSUM_PREFIX + digits + "\n"))[..|body|] == body
    ensures (body + (CHECKSUM_PREFIX + digits + "\n"))[|body| + |CHECKSUM_PREFIX|..] == digits + "\n"
  {}

  // ---------------------------------------------------------------------
  // File names
  // ---------------------------------------------------------------------

  function TableFilename(level: nat, sequence: nat, part: nat): string {
    "L" + (Padded(level, 10, 2) + ("-R" + (Padded(sequence, 10, 10) + ("-P" + (Padded(part, 10, 4) + ".sst")))))
  }

  /** Digits end where something that is not a digit starts, so they can be told apart. */
  lemma {:induction false} DigitsThen(a: string, x: string, b: string, y: string)
    requires AllDigits(a, 10) && AllDigits(b, 10) && |x| > 0 && |y| > 0 && ValueOf(x[0]) >= 10 && ValueOf(y[0]) >= 10
    requires a + x == b + y
    ensures a == b && x == y
    decreases |a|
  {
    hide ValueOf;
    SameEmptiness(a, x, b, y);
    if |a| == 0 {
      assert a + x == x && b + y == y;
    } else {
      assert (a + x)[0] == a[0] && (b + y)[0] == b[0];
      assert (a + x)[1..] == a[1..] + x && (b + y)[1..] == b[1..] + y;
      DigitsThen(a[1..], x, b[1..], y);
      assert a == [a[0]] + a[1..] && b == [b[0]] + b[1..];
    }
  }

  lemma SameEmptiness(a: string, x: string, b: string, y: string)
    requires AllDigits(a, 10) && AllDigits(b, 10) && |x| > 0 && |y| > 0 && ValueOf(x[0]) >= 10 && ValueOf(y[0]) >= 10
    requires a + x == b + y
    ensures |a| == 0 <==> |b| == 0
  {
    hide ValueOf;
    assert (a + x)[0] == if |a| > 0 then a[0] else x[0];
    assert (b + y)[0] == if |b| > 0 then b[0] else y[0];
  }

  lemma SamePadded(n: nat, width: nat, x: string, m: nat, y: string)
    requires |x| > 0 && |y| > 0 && ValueOf(x[0]) >= 10 && ValueOf(y[0]) >= 10
    requires Padded(n, 10, width) + x == Padded(m, 10, width) + y
    ensures n == m && x == y
  {
    PaddedIsDigits(n, 10, width);
    PaddedIsDigits(m, 10, width);
    DigitsThen(Padded(n, 10, width), x, Padded(m, 10, width), y);
  }

  /** Different (level, sequence, part) never share a name. */
  lemma FilenamesAreDistinct(l1: nat, r1: nat, p1: nat, l2: nat, r2: nat, p2: nat)
    requires TableFilename(l1, r1, p1) == TableFilename(l2, r2, p2)
    ensures l1 == l2 && r1 == r2 && p1 == p2
  {
    hide Padded;
    var c1, c2 := Padded(p1, 10, 4) + ".sst", Padded(p2, 10, 4) + ".sst";
    var b1, b2 := Padded(r1, 10, 10) + ("-P" + c1), Padded(r2, 10, 10) + ("-P" + c2);
    var a1, a2 := Padded(l1, 10, 2) + ("-R" + b1), Padded(l2, 10, 2) + ("-R" + b2);
    SamePrefix("L", a1, a2);
    SamePadded(l1, 2, "-R" + b1, l2, "-R" + b2);
    SamePrefix("-R", b1, b2);
    SamePadded(r1, 10, "-P" + c1, r2, "-P" + c2);
    SamePrefix("-P", c1, c2);
    SamePadded(p1, 4, ".sst", p2, ".sst");
  }

  lemma SamePrefix(prefix: string, x: string, y: string)
    requires prefix + x == prefix + y
    ensures x == y
  {
    assert (prefix + x)[|prefix|..] == x && (prefix + y)[|prefix|..] == y;
  }

  /** A table's name survives being written to the manifest. */
  lemma FilenameIsWord(level: nat, sequence: nat, part: nat)
    ensures IsWord(TableFilename(level, sequence, part))
  {
    PaddedIsDigits(level, 10, 2);
    PaddedIsDigits(sequence, 10, 10);
    PaddedIsDigits(part, 10, 4);
    DigitsAreWord(Padded(level, 10, 2), 10);
    DigitsAreWord(Padded(sequence, 10, 10), 10);
    DigitsAreWord(Padded(part, 10, 4), 10);
    hide Padded, AllDigits, DigitsValue;
    WordsJoin(Padded(part, 10, 4), ".sst");
    var c := Padded(part, 10, 4) + ".sst";
    WordsJoin("-P", c);
    WordsJoin(Padded(sequence, 10, 10), "-P" + c);
    var b := Padded(sequence, 10, 10) + ("-P" + c);
    WordsJoin("-R", b);
    WordsJoin(Padded(level, 10, 2), "-R" + b);
    WordsJoin("L", Padded(level, 10, 2) + ("-R" + b));
  }

  lemma WordsJoin(x: string, y: string)
    requires IsWord(x) && IsWord(y)
    ensures IsWord(x + y)
  {
    hide IsSpace;
  }

  // ---------------------------------------------------------------------
  // ASCII
  // ---------------------------------------------------------------------

  lemma DigitsAreAscii(s: string)
    requires AllDigits(s, 10)
    ensures IsAscii(s)
  {}

  lemma NumbersAreAscii(n: nat, width: nat)
    ensures IsAscii(Print(n, 10)) && IsAscii(Padded(n, 10, width))
  {
    PrintIsDigits(n, 10);
    PaddedIsDigits(n, 10, width);
    DigitsAreAscii(Print(n, 10));
    DigitsAreAscii(Padded(n, 10, width));
  }

  lemma FilenameIsAscii(level: nat, sequence: nat, part: nat)
    ensures IsAscii(TableFilename(level, sequence, part))
  {
    NumbersAreAscii(level, 2);
    NumbersAreAscii(sequence, 10);
    NumbersAreAscii(part, 4);
    hide Padded, Print;
  }

  lemma {:induction false} JoinedIsAscii(words: seq<string>)
    requires forall i :: 0 <= i < |words| ==> IsAscii(words[i])
    ensures IsAscii(Joined(words))
  {
    if |words| > 1 { JoinedIsAscii(words[1..]); }
  }

  lemma {:induction false} RunLinesAreAscii(runs: seq<RunEntry>)
    requires forall i, j :: 0 <= i < |runs| && 0 <= j < |runs[i].files| ==> IsAscii(runs[i].files[j])
    ensures IsAscii(RunLines(runs))
  {
    hide Joined, Print;
    if |runs| != 0 {
      NumbersAreAscii(runs[0].level, 0);
      NumbersAreAscii(runs[0].sequence, 0);
      NumbersAreAscii(runs[0].units, 0);
      JoinedIsAscii(RunFields(runs[0]));
      RunLinesAreAscii(runs[1..]);
    }
  }

  /** File names are all that could put anything but ASCII in a manifest. */
  lemma BodyIsAscii(m: Manifest)
    requires forall i, j :: 0 <= i < |m.runs| && 0 <= j < |m.runs[i].files| ==> IsAscii(m.runs[i].files[j])
    ensures IsAscii(Body(m))
  {
    RunLinesAreAscii(m.runs);
    NumbersAreAscii(m.nextSequence, 0);
    ConstantsAreAscii();
    hide RunLines, Print, IsAscii;
    AsciiJoin(Print(m.nextSequence, 10), "\n");
    AsciiJoin("next-sequence ", Print(m.nextSequence, 10) + "\n");
    AsciiJoin("next-sequence " + Print(m.nextSequence, 10) + "\n", RunLines(m.runs));
    AsciiJoin(FORMAT_HEADER, "\n");
    assert "next-sequence " + Print(m.nextSequence, 10) + "\n" == "next-sequence " + (Print(m.nextSequence, 10) + "\n");
    AsciiJoin(FORMAT_HEADER + "\n", "next-sequence " + Print(m.nextSequence, 10) + "\n" + RunLines(m.runs));
  }

  lemma ConstantsAreAscii()
    ensures IsAscii(FORMAT_HEADER) && IsAscii("next-sequence ") && IsAscii("\n")
  {}

  lemma AsciiJoin(a: string, b: string)
    requires IsAscii(a) && IsAscii(b)
    ensures IsAscii(a + b)
  {}
}
