/** The sealing manifest: printed, parsed back, and verified against the directory
    (oat/qualification/evidence_store.py:71-102; tools/oat_consequence_sequence_runner_004.py:177-202). A directory is
    the map from the relative names of its files to their contents. */
module Manifest {
  import opened Wrappers
  import opened Sse

  type Files = map<string, string>

  const MANIFEST := "SHA256SUMS.txt"

  /** The last component of the name is the manifest's, at whatever depth. */
  predicate Skipped(name: string) {
    name == MANIFEST || (|MANIFEST| < |name| && name[|name| - |MANIFEST| - 1..] == "/" + MANIFEST)
  }

  /** Exactly the manifest's name, and every name that ends in a slash and it. */
  lemma SkippedMeans(name: string)
    ensures Skipped(name) <==> name == "SHA256SUMS.txt" || exists dir: string :: name == dir + "/" + "SHA256SUMS.txt"
  {
    if Skipped(name) && name != MANIFEST {
      assert name == name[..|name| - |MANIFEST| - 1] + "/" + MANIFEST;
    }
    if dir: string :| name == dir + "/" + "SHA256SUMS.txt" {
      assert name[|name| - |MANIFEST| - 1..] == "/" + MANIFEST;
    }
  }

  /** What is sealed and scanned: every file but the skipped ones. */
  function Covered(files: Files): Files {
    map n | n in files && !Skipped(n) :: files[n]
  }

  /** Digests are non-empty and free of blanks and line separators. */
  ghost predicate HexLike(hash: string -> string) {
    forall content :: hash(content) != "" && forall c :: c in hash(content) ==> !IsTextBlank(c)
  }

  ghost predicate CollisionFree(hash: string -> string) {
    forall x, y :: hash(x) == hash(y) ==> x == y
  }

  /** Every file exactly once, in whatever order the listing has. */
  ghost predicate Lists(names: seq<string>, files: Files) {
    && (forall n :: n in names <==> n in files)
    && (forall i, j :: 0 <= i < j < |names| ==> names[i] != names[j])
  }

  ghost predicate PlainNames(files: Files) {
    forall n :: n in files ==> Clean(n)
  }

  function LineFor(hash: string -> string, files: Files, name: string): string
    requires name in files
  {
    hash(files[name]) + "  " + name
  }

  function Lines(hash: string -> string, files: Files, names: seq<string>): (r: seq<string>)
    requires forall n :: n in names ==> n in files
    ensures |r| == |names| && forall i :: 0 <= i < |names| ==> r[i] == LineFor(hash, files, names[i])
  {
    seq(|names|, i requires 0 <= i < |names| => LineFor(hash, files, names[i]))
  }

  /** The sealed text of a directory. */
  function Seal(hash: string -> string, files: Files, names: seq<string>): string
    requires Lists(names, Covered(files))
  {
    Join(Lines(hash, Covered(files), names)) + "\n"
  }

  /** `names` is what listing the directory gives: the covered files. */
  method WriteManifest(hash: string -> string, files: Files, names: seq<string>) returns (sealed: Files)
    requires Lists(names, Covered(files))
    ensures sealed == files[MANIFEST := Seal(hash, files, names)] && Covered(sealed) == Covered(files)
  {
    var lines: seq<string> := [];
    for i := 0 to |names|
      invariant lines == Lines(hash, Covered(files), names)[..i]
    {
      assert names[i] in names;
      lines := lines + [hash(files[names[i]]) + "  " + names[i]];
    }
    assert lines == Lines(hash, Covered(files), names);
    sealed := files[MANIFEST := Join(lines) + "\n"];
    SkippedFilesGoUnseen(files, MANIFEST, sealed[MANIFEST]);
  }

  /** Whatever happens to a skipped file, the covered files stay what they were. */
  lemma SkippedFilesGoUnseen(files: Files, name: string, content: string)
    requires Skipped(name)
    ensures Covered(files[name := content]) == Covered(files)
    ensures Covered(files - {name}) == Covered(files)
  {
  }

  // ----- parsing -----

  /** Where the first two spaces in a row are, or the length. */
  function FirstGap(line: string): (i: nat)
    ensures i <= |line|
    ensures i < |line| ==> i + 2 <= |line| && line[i] == ' ' && line[i + 1] == ' '
    ensures forall j :: 0 <= j < i && j + 1 < |line| ==> !(line[j] == ' ' && line[j + 1] == ' ')
  {
    if |line| < 2 then |line| else if line[0] == ' ' && line[1] == ' ' then 0 else 1 + FirstGap(line[1..])
  }

  predicate IsBlankLine(line: string) {
    forall c :: c in line ==> IsTextBlank(c)
  }

  /** A blank line is one that stripping leaves empty. */
  lemma {:induction false} BlankStripsToNothing(line: string)
    ensures IsBlankLine(line) <==> LStrip(Text, line) == ""
  {
    if line == "" {
    } else {
      BlankStripsToNothing(line[1..]);
      assert line == [line[0]] + line[1..];
    }
  }

  /** None stands for the error of a line without a gap. */
  function ParseLines(lines: seq<string>, listed: map<string, string>): Option<map<string, string>>
    decreases |lines|
  {
    if lines == [] then Some(listed)
    else if IsBlankLine(lines[0]) then ParseLines(lines[1..], listed)
    else
      var i := FirstGap(lines[0]);
      if i == |lines[0]| then None
      else ParseLines(lines[1..], listed[lines[0][i + 2..] := lines[0][..i]])
  }

  /** The line names `name`: that is what comes after its first gap. */
  ghost predicate Naming(line: string, name: string) {
    !IsBlankLine(line) && FirstGap(line) < |line| && name == line[FirstGap(line) + 2..]
  }

  /** Parsing fails exactly on a filled line without a gap. */
  lemma {:induction false} ParseFailsIff(lines: seq<string>, listed: map<string, string>)
    ensures ParseLines(lines, listed).None? <==>
      exists i :: 0 <= i < |lines| && !IsBlankLine(lines[i]) && FirstGap(lines[i]) == |lines[i]|
    decreases |lines|
  {
    if lines == [] {
    } else {
      var rest, gap := lines[1..], FirstGap(lines[0]);
      if IsBlankLine(lines[0]) {
        ParseFailsIff(rest, listed);
      } else if gap < |lines[0]| {
        ParseFailsIff(rest, listed[lines[0][gap + 2..] := lines[0][..gap]]);
      }
      assert forall i :: 1 <= i < |lines| ==> lines[i] == rest[i - 1];
      assert forall i :: 0 <= i < |rest| ==> rest[i] == lines[i + 1];
    }
  }

  /** A name that no line names is listed as it was. */
  lemma {:induction false} UnnamedStay(lines: seq<string>, listed: map<string, string>, name: string)
    requires ParseLines(lines, listed).Some?
    requires forall j :: 0 <= j < |lines| ==> !Naming(lines[j], name)
    ensures Get(ParseLines(lines, listed).value, name) == Get(listed, name)
    decreases |lines|
  {
    if lines == [] {
    } else {
      var rest, gap := lines[1..], FirstGap(lines[0]);
      assert !Naming(lines[0], name);
      assert forall j :: 0 <= j < |rest| ==> rest[j] == lines[j + 1];
      UnnamedStay(rest, if IsBlankLine(lines[0]) then listed else listed[lines[0][gap + 2..] := lines[0][..gap]], name);
    }
  }

  /** Of the lines that name a name, the last one's digest counts: what is before its first gap. */
  lemma {:induction false} LastNamingCounts(lines: seq<string>, listed: map<string, string>, name: string, i: nat)
    requires ParseLines(lines, listed).Some?
    requires i < |lines| && Naming(lines[i], name)
    requires forall j :: i < j < |lines| ==> !Naming(lines[j], name)
    ensures Get(ParseLines(lines, listed).value, name) == Some(lines[i][..FirstGap(lines[i])])
    decreases |lines|
  {
    var rest, gap := lines[1..], FirstGap(lines[0]);
    var next := if IsBlankLine(lines[0]) then listed else listed[lines[0][gap + 2..] := lines[0][..gap]];
    assert forall j :: 0 <= j < |rest| ==> rest[j] == lines[j + 1];
    if i == 0 {
      UnnamedStay(rest, next, name);
    } else {
      LastNamingCounts(rest, next, name, i - 1);
    }
  }

  function Parse(text: string): Option<map<string, string>> {
    ParseLines(SplitLines(text), map[])
  }

  datatype Verification = ManifestMissing | Unparsable | Checked(count: nat, mismatched: set<string>) {
    predicate Pass() { Checked? && mismatched == {} }
  }

  /** A listed file is there with the listed digest. */
  predicate Matches(hash: string -> string, files: Files, name: string, expected: string) {
    name in files && hash(files[name]) == expected
  }

  /** Nothing listed is missing or changed, and nothing present is unlisted but skipped files. */
  ghost predicate Passes(hash: string -> string, listed: map<string, string>, files: Files) {
    && (forall n :: n in listed ==> Matches(hash, files, n, listed[n]))
    && (forall n :: n in files && !Skipped(n) ==> n in listed)
  }

  /** The store's check; `Unparsable` stands for the error of a line without a gap. */
  method VerifyManifest(hash: string -> string, files: Files) returns (v: Verification)
    ensures v.ManifestMissing? <==> MANIFEST !in files
    ensures v.Unparsable? <==> MANIFEST in files && Parse(files[MANIFEST]).None?
    ensures v.Checked? ==>
      var listed := Parse(files[MANIFEST]).value;
      && v.count == |listed|
      && v.mismatched == Unmatched(hash, listed, files) + (Covered(files).Keys - listed.Keys)
      && (v.Pass() <==> Passes(hash, listed, files))
  {
    if MANIFEST !in files {
      return ManifestMissing;
    }
    var parsed := Parse(files[MANIFEST]);
    if parsed.None? {
      return Unparsable;
    }
    var listed := parsed.value;
    var mismatched := ListedMismatches(hash, listed, files);
    v := Checked(|listed|, mismatched + (Covered(files).Keys - listed.Keys));
    PassMeans(hash, listed, files, v.mismatched);
  }

  function Unmatched(hash: string -> string, listed: map<string, string>, files: Files): set<string> {
    set n | n in listed && !Matches(hash, files, n, listed[n])
  }

  method ListedMismatches(hash: string -> string, listed: map<string, string>, files: Files)
    returns (mismatched: set<string>)
    ensures mismatched == Unmatched(hash, listed, files)
  {
    mismatched := {};
    var left := listed.Keys;
    while left != {}
      invariant left <= listed.Keys
      invariant mismatched == set n | n in listed.Keys - left && !Matches(hash, files, n, listed[n])
    {
      var rel :| rel in left;
      if !Matches(hash, files, rel, listed[rel]) {
        mismatched := mismatched + {rel};
      }
      left := left - {rel};
    }
  }

  lemma PassMeans(hash: string -> string, listed: map<string, string>, files: Files, mismatched: set<string>)
    requires mismatched == Unmatched(hash, listed, files) + (Covered(files).Keys - listed.Keys)
    ensures mismatched == {} <==> Passes(hash, listed, files)
  {
    if mismatched == {} {
      forall n | n in listed ensures Matches(hash, files, n, listed[n]) {
        assert n !in mismatched;
      }
      forall n | n in files && !Skipped(n) ensures n in listed {
        assert n !in mismatched && n in Covered(files);
      }
    }
  }

  /** The sequence runner's check, line by line; it never looks at what else is in the directory. */
  method VerifySums(hash: string -> string, files: Files) returns (v: Verification)
    ensures v.ManifestMissing? <==> MANIFEST !in files
    ensures v.Unparsable? <==> MANIFEST in files && Parse(files[MANIFEST]).None?
    ensures v.Checked? ==> (v.Pass() <==> EveryLineMatches(hash, SplitLines(files[MANIFEST]), files))
    ensures v.Checked? ==> v.count == FilledLines(SplitLines(files[MANIFEST]))
    ensures v.Checked? ==> forall n :: n in v.mismatched <==> Misses(hash, SplitLines(files[MANIFEST]), files, n)
  {
    if MANIFEST !in files {
      return ManifestMissing;
    }
    var lines := SplitLines(files[MANIFEST]);
    var mismatched: set<string> := {};
    var checked := 0;
    ghost var listed: map<string, string> := map[];
    for i := 0 to |lines|
      invariant ParseLines(lines, map[]) == ParseLines(lines[i..], listed)
      invariant mismatched == {} <==> EveryLineMatches(hash, lines[..i], files)
      invariant checked == FilledLines(lines[..i])
      invariant forall n :: n in mismatched <==> Misses(hash, lines[..i], files, n)
    {
      assert lines[i..][0] == lines[i] && lines[i..][1..] == lines[i + 1..];
      OneMoreLine(hash, lines, i, files);
      OneMoreMiss(hash, lines, i, files);
      if !IsBlankLine(lines[i]) {
        var gap := FirstGap(lines[i]);
        if gap == |lines[i]| {
          return Unparsable;
        }
        var expected, rel := lines[i][..gap], lines[i][gap + 2..];
        if !Matches(hash, files, rel, expected) {
          mismatched := mismatched + {rel};
        }
        checked := checked + 1;
        listed := listed[rel := expected];
      }
    }
    assert lines[..|lines|] == lines && lines[|lines|..] == [];
    v := Checked(checked, mismatched);
  }

  /** Lines that are not blank. */
  function FilledLines(lines: seq<string>): nat {
    if lines == [] then 0
    else FilledLines(lines[..|lines| - 1]) + if IsBlankLine(lines[|lines| - 1]) then 0 else 1
  }

  /** A line names `n`, and the file does not match. */
  ghost predicate MissesAt(hash: string -> string, line: string, files: Files, n: string) {
    && !IsBlankLine(line) && FirstGap(line) < |line|
    && n == line[FirstGap(line) + 2..] && !Matches(hash, files, n, line[..FirstGap(line)])
  }

  ghost predicate Misses(hash: string -> string, lines: seq<string>, files: Files, n: string) {
    exists i :: 0 <= i < |lines| && MissesAt(hash, lines[i], files, n)
  }

  lemma OneMoreMiss(hash: string -> string, lines: seq<string>, i: nat, files: Files)
    requires i < |lines|
    ensures FilledLines(lines[..i + 1]) == FilledLines(lines[..i]) + if IsBlankLine(lines[i]) then 0 else 1
    ensures forall n ::
      Misses(hash, lines[..i + 1], files, n) <==>
      Misses(hash, lines[..i], files, n) || MissesAt(hash, lines[i], files, n)
  {
    var more, fewer := lines[..i + 1], lines[..i];
    assert more[..i] == fewer && more[i] == lines[i];
    forall n
      ensures Misses(hash, more, files, n) <==> Misses(hash, fewer, files, n) || MissesAt(hash, lines[i], files, n)
    {
      if Misses(hash, fewer, files, n) {
        var j :| 0 <= j < |fewer| && MissesAt(hash, fewer[j], files, n);
        assert more[j] == fewer[j];
      }
      if Misses(hash, more, files, n) {
        var j :| 0 <= j < |more| && MissesAt(hash, more[j], files, n);
        assert j < i ==> fewer[j] == more[j];
      }
    }
  }

  ghost predicate LineMatches(hash: string -> string, line: string, files: Files) {
    IsBlankLine(line)
    || (FirstGap(line) < |line| && Matches(hash, files, line[FirstGap(line) + 2..], line[..FirstGap(line)]))
  }

  lemma OneMoreLine(hash: string -> string, lines: seq<string>, i: nat, files: Files)
    requires i < |lines|
    ensures EveryLineMatches(hash, lines[..i + 1], files) <==>
      EveryLineMatches(hash, lines[..i], files) && LineMatches(hash, lines[i], files)
  {
    var more := lines[..i + 1];
    assert more[i] == lines[i] && forall j :: 0 <= j < i ==> more[j] == lines[..i][j];
    if EveryLineMatches(hash, more, files) {
      assert LineMatches(hash, more[i], files);
      forall j | 0 <= j < i ensures LineMatches(hash, lines[..i][j], files) {
        assert LineMatches(hash, more[j], files);
      }
    }
  }

  ghost predicate EveryLineMatches(hash: string -> string, lines: seq<string>, files: Files) {
    forall i :: 0 <= i < |lines| ==> LineMatches(hash, lines[i], files)
  }

  // ----- printing and parsing undo each other -----

  ghost predicate CleanLines(lines: seq<string>) {
    forall i :: 0 <= i < |lines| ==> Clean(lines[i])
  }

  lemma {:induction false} JoinedLinesSplit(lines: seq<string>)
    requires CleanLines(lines)
    ensures SplitLines(Join(lines) + "\n") == if lines == [] then [""] else lines
  {
    if |lines| <= 1 {
      OneLineSplits(Join(lines));
      assert |lines| == 1 ==> lines == [lines[0]];
    } else {
      JoinedLinesSplit(lines[1..]);
      FirstOfManyLines(lines[0], Join(lines[1..]));
      assert lines == [lines[0]] + lines[1..];
    }
  }

  lemma FirstOfManyLines(first: string, tail: string)
    requires Clean(first)
    ensures SplitLines(first + "\n" + tail + "\n") == [first] + SplitLines(tail + "\n")
  {
    SplitFirstLine(first, tail + "\n");
    assert first + "\n" + tail + "\n" == first + "\n" + (tail + "\n");
  }

  lemma OneLineSplits(x: string)
    requires Clean(x)
    ensures SplitLines(x + "\n") == [x]
  {
    SplitFirstLine(x, "");
    assert x + "\n" + "" == x + "\n";
  }

  lemma {:induction false} GapAfterHash(h: string, name: string)
    requires forall i :: 0 <= i < |h| ==> h[i] != ' '
    ensures FirstGap(h + "  " + name) == |h|
  {
    var line := h + "  " + name;
    if h == "" {
    } else {
      assert line[1..] == h[1..] + "  " + name;
      GapAfterHash(h[1..], name);
    }
  }

  lemma ParsedLine(hash: string -> string, files: Files, name: string)
    requires HexLike(hash) && name in files && Clean(name)
    ensures var line := LineFor(hash, files, name);
      && Clean(line) && !IsBlankLine(line)
      && FirstGap(line) == |hash(files[name])| < |line|
      && line[FirstGap(line) + 2..] == name && line[..FirstGap(line)] == hash(files[name])
  {
    var h := hash(files[name]);
    var line := LineFor(hash, files, name);
    forall i | 0 <= i < |h| ensures !IsTextBlank(h[i]) {
      assert h[i] in h;
    }
    forall i | 0 <= i < |line| ensures !IsLineBreak(line[i]) {
      if i >= |h| + 2 {
        assert line[i] == name[i - |h| - 2];
      }
    }
    assert line[0] == h[0] && line[0] in line;
    GapAfterHash(h, name);
  }

  /** What the printed lines record on top of `listed`. */
  ghost function Recorded(hash: string -> string, files: Files, names: seq<string>, listed: map<string, string>)
    : map<string, string>
    requires forall n :: n in names ==> n in files
  {
    if names == [] then listed
    else
      assert names[0] in names;
      Recorded(hash, files, names[1..], listed[names[0] := hash(files[names[0]])])
  }

  lemma {:induction false} RecordedMeans(hash: string -> string, files: Files, names: seq<string>,
                                         listed: map<string, string>, n: string)
    requires forall x :: x in names ==> x in files
    ensures n in names ==> n in Recorded(hash, files, names, listed)
                           && Recorded(hash, files, names, listed)[n] == hash(files[n])
    ensures n !in names ==>
      && (n in Recorded(hash, files, names, listed) <==> n in listed)
      && (n in listed ==> Recorded(hash, files, names, listed)[n] == listed[n])
  {
    if names == [] {
    } else {
      var name, rest := names[0], names[1..];
      assert name in names;
      RecordedMeans(hash, files, rest, listed[name := hash(files[name])], n);
      assert n in names <==> n == name || n in rest;
    }
  }

  lemma {:induction false} PrintedLinesParse(hash: string -> string, files: Files, names: seq<string>,
                                             listed: map<string, string>)
    requires HexLike(hash) && PlainNames(files) && forall n :: n in names ==> n in files
    ensures ParseLines(Lines(hash, files, names), listed) == Some(Recorded(hash, files, names, listed))
  {
    if names == [] {
    } else {
      var name, rest := names[0], names[1..];
      assert name in names;
      ParsedLine(hash, files, name);
      assert Lines(hash, files, names)[1..] == Lines(hash, files, rest);
      PrintedLinesParse(hash, files, rest, listed[name := hash(files[name])]);
    }
  }

  /** The lines of the printed text. */
  lemma PrintedLinesSplit(hash: string -> string, files: Files, names: seq<string>)
    requires HexLike(hash) && PlainNames(files) && Lists(names, files)
    ensures SplitLines(Join(Lines(hash, files, names)) + "\n") ==
      if names == [] then [""] else Lines(hash, files, names)
  {
    var lines := Lines(hash, files, names);
    forall i | 0 <= i < |lines| ensures Clean(lines[i]) {
      assert names[i] in names;
      ParsedLine(hash, files, names[i]);
    }
    JoinedLinesSplit(lines);
  }

  /** For names free of line separators, double spaces included, parsing gives back exactly what was sealed. */
  lemma ManifestRoundTrip(hash: string -> string, files: Files, names: seq<string>)
    requires HexLike(hash) && PlainNames(files) && Lists(names, files)
    ensures Parse(Join(Lines(hash, files, names)) + "\n") == Some(map n | n in files :: hash(files[n]))
  {
    PrintedLinesSplit(hash, files, names);
    PrintedLinesParse(hash, files, names, map[]);
    EverythingIsRecorded(hash, files, names);
    if names == [] {
      BlankLineIsSkipped();
    }
  }

  lemma EverythingIsRecorded(hash: string -> string, files: Files, names: seq<string>)
    requires Lists(names, files)
    ensures Recorded(hash, files, names, map[]) == map n | n in files :: hash(files[n])
  {
    forall n {
      RecordedMeans(hash, files, names, map[], n);
    }
  }

  lemma BlankLineIsSkipped()
    ensures ParseLines([""], map[]) == Some(map[])
  {
    assert [""][1..] == [];
  }

  // ----- what verification notices -----

  /** Verification under an untouched manifest passes exactly when no covered file was changed, removed or added. */
  lemma VerificationIsExact(hash: string -> string, sealed: Files, names: seq<string>, now: Files)
    requires HexLike(hash) && CollisionFree(hash) && PlainNames(Covered(sealed)) && Lists(names, Covered(sealed))
    ensures Parse(Seal(hash, sealed, names)).Some?
    ensures Passes(hash, Parse(Seal(hash, sealed, names)).value, now) <==> Covered(now) == Covered(sealed)
  {
    ManifestRoundTrip(hash, Covered(sealed), names);
    DigestsTellFiles(hash, sealed, now);
  }

  lemma DigestsTellFiles(hash: string -> string, sealed: Files, now: Files)
    requires CollisionFree(hash)
    ensures Passes(hash, map n | n in Covered(sealed) :: hash(Covered(sealed)[n]), now) <==>
      Covered(now) == Covered(sealed)
  {
    var listed := map n | n in Covered(sealed) :: hash(Covered(sealed)[n]);
    if Passes(hash, listed, now) {
      forall n | n in Covered(sealed) ensures n in Covered(now) && Covered(now)[n] == Covered(sealed)[n] {
        assert n in listed && Matches(hash, now, n, listed[n]);
      }
      assert Covered(now).Keys == Covered(sealed).Keys;
    } else {
      UnpassedDiffers(hash, sealed, now, listed);
    }
  }

  lemma UnpassedDiffers(hash: string -> string, sealed: Files, now: Files, listed: map<string, string>)
    requires listed == map n | n in Covered(sealed) :: hash(Covered(sealed)[n])
    requires !Passes(hash, listed, now)
    ensures Covered(now) != Covered(sealed)
  {
    if n :| n in listed && !Matches(hash, now, n, listed[n]) {
      assert n in Covered(sealed) && (n !in Covered(now) || Covered(now)[n] != Covered(sealed)[n]);
    } else {
      var n :| n in now && !Skipped(n) && n !in listed;
      assert n in Covered(now) && n !in Covered(sealed);
    }
  }

  /** The runner's check under an untouched manifest passes exactly when the covered files that were sealed are all
      still there unchanged, whatever was added. */
  lemma RunnerCheckMissesAdditions(hash: string -> string, sealed: Files, names: seq<string>, now: Files)
    requires HexLike(hash) && CollisionFree(hash) && PlainNames(Covered(sealed)) && Lists(names, Covered(sealed))
    ensures Parse(Seal(hash, sealed, names)).Some?
    ensures EveryLineMatches(hash, SplitLines(Seal(hash, sealed, names)), now) <==> StillThere(sealed, now)
  {
    ManifestRoundTrip(hash, Covered(sealed), names);
    PrintedLinesSplit(hash, Covered(sealed), names);
    if names == [] {
      assert IsBlankLine("");
    } else {
      SealedLinesMatch(hash, sealed, names, now);
    }
  }

  ghost predicate StillThere(sealed: Files, now: Files) {
    forall n :: n in Covered(sealed) ==> Unchanged(sealed, now, n)
  }

  ghost predicate Unchanged(sealed: Files, now: Files, n: string) {
    n in sealed && n in now && now[n] == sealed[n]
  }

  lemma SealedLinesMatch(hash: string -> string, sealed: Files, names: seq<string>, now: Files)
    requires HexLike(hash) && CollisionFree(hash) && PlainNames(Covered(sealed)) && Lists(names, Covered(sealed))
    ensures EveryLineMatches(hash, Lines(hash, Covered(sealed), names), now) <==> StillThere(sealed, now)
  {
    var lines := Lines(hash, Covered(sealed), names);
    if EveryLineMatches(hash, lines, now) {
      forall n | n in Covered(sealed) ensures Unchanged(sealed, now, n) {
        var i := PlaceOf(names, n);
        SealedLineMatches(hash, sealed, n, now);
        assert LineMatches(hash, lines[i], now);
      }
    }
    if StillThere(sealed, now) {
      forall i | 0 <= i < |lines| ensures LineMatches(hash, lines[i], now) {
        assert names[i] in names;
        SealedLineMatches(hash, sealed, names[i], now);
      }
    }
  }

  lemma SealedLineMatches(hash: string -> string, sealed: Files, n: string, now: Files)
    requires HexLike(hash) && CollisionFree(hash) && PlainNames(Covered(sealed)) && n in Covered(sealed)
    ensures LineMatches(hash, LineFor(hash, Covered(sealed), n), now) <==> Unchanged(sealed, now, n)
  {
    ParsedLine(hash, Covered(sealed), n);
  }

  /** A file of the manifest's name below the top, added or changed after sealing, is seen by neither check. */
  lemma NestedManifestGoesUnseen(hash: string -> string, files: Files, names: seq<string>, dir: string, body: string)
    requires HexLike(hash) && CollisionFree(hash) && PlainNames(Covered(files)) && Lists(names, Covered(files))
    ensures var sealed := files[MANIFEST := Seal(hash, files, names)];
      var now := sealed[dir + "/" + MANIFEST := body];
      && now[MANIFEST] == sealed[MANIFEST]
      && now[dir + "/" + MANIFEST] == body
      && Parse(now[MANIFEST]).Some? && Passes(hash, Parse(now[MANIFEST]).value, now)
      && EveryLineMatches(hash, SplitLines(now[MANIFEST]), now)
  {
    var nested := dir + "/" + MANIFEST;
    assert nested[|nested| - |MANIFEST| - 1..] == "/" + MANIFEST && |nested| > |MANIFEST|;
    var sealed := files[MANIFEST := Seal(hash, files, names)];
    SkippedFilesGoUnseen(files, MANIFEST, sealed[MANIFEST]);
    SkippedFilesGoUnseen(sealed, nested, body);
    VerificationIsExact(hash, files, names, sealed[nested := body]);
    RunnerCheckMissesAdditions(hash, files, names, sealed[nested := body]);
    CoveredFilesAreThere(files, sealed[nested := body]);
  }

  lemma CoveredFilesAreThere(files: Files, now: Files)
    requires Covered(now) == Covered(files)
    ensures StillThere(files, now)
  {
    forall n | n in Covered(files) ensures Unchanged(files, now, n) {
      assert n in Covered(now) && Covered(now)[n] == Covered(files)[n];
    }
  }

  /** What happens to the directory leaves the manifest itself alone. */
  ghost predicate KeepsManifest(between: Files -> Files) {
    forall d :: MANIFEST in d ==> MANIFEST in between(d) && between(d)[MANIFEST] == d[MANIFEST]
  }

  /** Sealing, and verifying what the directory has become: the store's check passes exactly when no covered file was
      changed, removed or added, and the runner's exactly when none was changed or removed. */
  method SealThenVerify(hash: string -> string, files: Files, names: seq<string>, between: Files -> Files)
    returns (now: Files, store: Verification, runner: Verification)
    requires HexLike(hash) && CollisionFree(hash) && PlainNames(Covered(files)) && Lists(names, Covered(files))
    requires KeepsManifest(between)
    ensures now == between(files[MANIFEST := Seal(hash, files, names)])
    ensures store.Checked? && (store.Pass() <==> Covered(now) == Covered(files))
    ensures runner.Checked? && (runner.Pass() <==> StillThere(files, now))
  {
    var sealed := WriteManifest(hash, files, names);
    now := between(sealed);
    VerificationIsExact(hash, files, names, now);
    RunnerCheckMissesAdditions(hash, files, names, now);
    store := VerifyManifest(hash, now);
    runner := VerifySums(hash, now);
  }
}
