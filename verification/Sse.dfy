/** Two readers of one server-sent-event stream: the incremental reader that stops at [DONE], and the batch parser that
    is run afterwards over the bytes it read (tools/oat_consequence_sequence_runner_004.py:512-547). Streams are
    modelled as decoded text. */
module Sse {
  const DONE := "[DONE]"

  // ----- characters -----

  /** What `bytes.lstrip` removes. */
  predicate IsAsciiBlank(c: char) {
    c == ' ' || c == '\t' || c == '\n' || c == '\r' || c == '\U{0b}' || c == '\U{0c}'
  }

  /** What `str.lstrip` removes. */
  predicate IsTextBlank(c: char) {
    || IsAsciiBlank(c)
    || '\U{1c}' <= c <= '\U{1f}' || c == '\U{85}' || c == '\U{a0}' || c == '\U{1680}'
    || '\U{2000}' <= c <= '\U{200a}' || c == '\U{2028}' || c == '\U{2029}' || c == '\U{202f}'
    || c == '\U{205f}' || c == '\U{3000}'
  }

  /** Where `str.splitlines` breaks. */
  predicate IsLineBreak(c: char) {
    || c == '\n' || c == '\r' || c == '\U{0b}' || c == '\U{0c}'
    || '\U{1c}' <= c <= '\U{1e}' || c == '\U{85}' || c == '\U{2028}' || c == '\U{2029}'
  }

  /** The characters by their code points. */
  lemma CharactersWrittenOut(c: char)
    ensures IsAsciiBlank(c) <==> c as int in {9, 10, 11, 12, 13, 32}
    ensures IsLineBreak(c) <==> c as int in {10, 11, 12, 13, 28, 29, 30, 133, 8232, 8233}
    ensures IsTextBlank(c) <==>
      || 9 <= c as int <= 13 || 28 <= c as int <= 32 || 8192 <= c as int <= 8202
      || c as int in {133, 160, 5760, 8232, 8233, 8239, 8287, 12288}
    ensures IsLineBreak(c) ==> IsTextBlank(c)
  {
  }

  /** The only line ends are LF and CRLF, and nothing else in the text splits lines. */
  ghost predicate Plain(t: string) {
    forall i {:trigger IsLineBreak(t[i])} :: 0 <= i < |t| && IsLineBreak(t[i]) ==>
      t[i] == '\n' || (t[i] == '\r' && i + 1 < |t| && t[i + 1] == '\n')
  }

  /** No line break at all. */
  ghost predicate Clean(x: string) {
    forall i :: 0 <= i < |x| ==> !IsLineBreak(x[i])
  }

  // ----- shared pieces -----

  datatype Strip = Ascii | Text {
    predicate Removes(c: char) {
      if Ascii? then IsAsciiBlank(c) else IsTextBlank(c)
    }
  }

  function LStrip(k: Strip, x: string): (r: string)
    ensures |r| <= |x| && (r != "" ==> !k.Removes(r[0]))
  {
    if x != "" && k.Removes(x[0]) then LStrip(k, x[1..]) else x
  }

  /** Stripping drops blanks off the front and nothing else. */
  lemma {:induction false} StrippedAreBlanks(k: Strip, x: string)
    ensures var n := |x| - |LStrip(k, x)|;
      LStrip(k, x) == x[n..] && forall i :: 0 <= i < n ==> k.Removes(x[i])
  {
    if x == "" || !k.Removes(x[0]) {
    } else {
      StrippedAreBlanks(k, x[1..]);
    }
  }

  predicate IsData(line: string) {
    "data:" <= line
  }

  /** The data field of one line, stripped on the left, or nothing. */
  function DataOf(k: Strip, line: string): seq<string> {
    if IsData(line) then [LStrip(k, line[5..])] else []
  }

  function Join(parts: seq<string>): string {
    if parts == [] then "" else if |parts| == 1 then parts[0] else parts[0] + "\n" + Join(parts[1..])
  }

  function Dispatch(pending: seq<string>): seq<string> {
    if pending == [] then [] else [Join(pending)]
  }

  // ----- the incremental reader -----

  /** The length of the first line, its line feed included. */
  function LineLength(t: string): (n: nat)
    ensures n <= |t| && (t != "" ==> n > 0)
  {
    if t == "" then 0 else if t[0] == '\n' then 1 else 1 + LineLength(t[1..])
  }

  function RStripEol(line: string): string {
    if line != "" && line[|line| - 1] in {'\r', '\n'} then RStripEol(line[..|line| - 1]) else line
  }

  /** What the reader holds: the events dispatched so far, and the data lines of the event being read. */
  datatype Reader = Reader(events: seq<string>, pending: seq<string>)

  const FRESH := Reader([], [])

  /** One line, without its end. */
  function OnLine(k: Strip, line: string, at: Reader): Reader {
    if line == "" then Reader(at.events + Dispatch(at.pending), [])
    else at.(pending := at.pending + DataOf(k, line))
  }

  /** Reading `t` line by line. */
  function Feed(k: Strip, t: string, at: Reader): Reader
    decreases |t|
  {
    if t == "" then at
    else Feed(k, t[LineLength(t)..], OnLine(k, RStripEol(t[..LineLength(t)]), at))
  }

  /** All that a reader has, the unterminated event included. */
  function Flush(at: Reader): seq<string> {
    at.events + Dispatch(at.pending)
  }

  lemma {:induction false} FeedJoins(k: Strip, a: string, b: string, at: Reader)
    requires a == "" || a[|a| - 1] == '\n'
    ensures Feed(k, a + b, at) == Feed(k, b, Feed(k, a, at))
    decreases |a|
  {
    if a == "" {
      assert a + b == b;
    } else {
      FirstLineIsInside(a, b);
      var n := LineLength(a);
      assert (a + b)[..n] == a[..n] && (a + b)[n..] == a[n..] + b;
      FeedJoins(k, a[n..], b, OnLine(k, RStripEol(a[..n]), at));
    }
  }

  lemma {:induction false} EventsOnlyGrow(k: Strip, t: string, at: Reader)
    ensures at.events <= Feed(k, t, at).events
    decreases |t|
  {
    if t == "" {
    } else {
      EventsOnlyGrow(k, t[LineLength(t)..], OnLine(k, RStripEol(t[..LineLength(t)]), at));
    }
  }

  lemma {:induction false} FirstLineIsInside(a: string, b: string)
    requires a != "" && a[|a| - 1] == '\n'
    ensures LineLength(a + b) == LineLength(a)
    ensures LineLength(a) == |a| || a[|a| - 1] == '\n'
  {
    if a[0] == '\n' {
    } else {
      assert (a + b)[1..] == a[1..] + b;
      FirstLineIsInside(a[1..], b);
    }
  }

  lemma {:induction false} LineEndsWithFeed(t: string)
    requires LineLength(t) < |t|
    ensures t[LineLength(t) - 1] == '\n'
  {
    if t[0] == '\n' {
    } else {
      LineEndsWithFeed(t[1..]);
    }
  }

  /** Read lines until the [DONE] event has been dispatched or the stream ends. */
  method ReadSseUntilDone(stream: string) returns (raw: string, done: bool)
    ensures raw <= stream
    ensures done <==> DONE in Feed(Ascii, stream, FRESH).events
    ensures done ==> DONE in Feed(Ascii, raw, FRESH).events && Feed(Ascii, raw, FRESH).pending == []
    ensures !done ==> raw == stream
    ensures done && Plain(stream) ==> DONE in Batch(raw)
  {
    raw, done := "", false;
    var eventData: seq<string> := [];
    ghost var reader := FRESH;
    var at := 0;
    while at < |stream|
      invariant ReadUpTo(stream, at, raw, reader)
      invariant eventData == reader.pending && DONE !in reader.events
    {
      var line := stream[at..][..LineLength(stream[at..])];
      var normalized := RStripEol(line);
      ReadNext(stream, at, raw, reader);
      reader := OnLine(Ascii, normalized, reader);
      raw := raw + line;
      at := at + |line|;
      if normalized != "" {
        eventData := eventData + DataOf(Ascii, normalized);
      } else {
        if eventData != [] && Join(eventData) == DONE {
          assert reader.events[|reader.events| - 1] == DONE;
          ReadShows(stream, at, raw, reader);
          if Plain(stream) {
            PlainPrefix(stream, at);
            DoneIsSeenByBoth(raw);
          }
          return raw, true;
        }
        eventData := [];
      }
    }
    ReadShows(stream, at, raw, reader);
  }

  /** Whole lines of plain text are plain. */
  lemma PlainPrefix(stream: string, at: nat)
    requires Plain(stream) && at <= |stream| && (at < |stream| ==> at == 0 || stream[at - 1] == '\n')
    ensures Plain(stream[..at])
  {
    var raw := stream[..at];
    forall i | 0 <= i < |raw| && IsLineBreak(raw[i])
      ensures raw[i] == '\n' || (raw[i] == '\r' && i + 1 < |raw| && raw[i + 1] == '\n')
    {
      assert IsLineBreak(stream[i]);
    }
  }

  lemma ReadShows(stream: string, at: nat, raw: string, reader: Reader)
    requires ReadUpTo(stream, at, raw, reader)
    ensures raw <= stream && reader.events <= Feed(Ascii, stream, FRESH).events
    ensures at == |stream| ==> raw == stream && Feed(Ascii, stream, FRESH) == reader
  {
    FeedPrefix(Ascii, stream, at);
  }

  /** Whole lines of the stream have been read up to `at`. */
  ghost predicate ReadUpTo(stream: string, at: nat, raw: string, reader: Reader) {
    && at <= |stream| && raw == stream[..at]
    && (at < |stream| ==> at == 0 || stream[at - 1] == '\n')
    && Feed(Ascii, raw, FRESH) == reader
  }

  lemma ReadNext(stream: string, at: nat, raw: string, reader: Reader)
    requires ReadUpTo(stream, at, raw, reader) && at < |stream|
    ensures var line := stream[at..][..LineLength(stream[at..])];
      ReadUpTo(stream, at + |line|, raw + line, OnLine(Ascii, RStripEol(line), reader))
  {
    NextLine(Ascii, stream, at, reader);
  }

  /** Having read whole lines up to `at`, reading the next one. */
  lemma NextLine(k: Strip, stream: string, at: nat, reader: Reader)
    requires at < |stream| && (at == 0 || stream[at - 1] == '\n') && Feed(k, stream[..at], FRESH) == reader
    ensures var n := LineLength(stream[at..]);
      && stream[..at] + stream[at..][..n] == stream[..at + n]
      && Feed(k, stream[..at + n], FRESH) == OnLine(k, RStripEol(stream[at..][..n]), reader)
      && (at + n < |stream| ==> stream[at + n - 1] == '\n')
  {
    var rest := stream[at..];
    var n := LineLength(rest);
    assert stream[..at] + rest[..n] == stream[..at + n];
    FeedJoins(k, stream[..at], rest[..n], FRESH);
    OneLine(k, rest, reader);
    if n < |rest| {
      LineEndsWithFeed(rest);
    }
  }

  lemma OneLine(k: Strip, t: string, at: Reader)
    requires t != ""
    ensures Feed(k, t[..LineLength(t)], at) == OnLine(k, RStripEol(t[..LineLength(t)]), at)
  {
    var n := LineLength(t);
    LineOfLine(t);
    assert t[..n][..n] == t[..n] && t[..n][n..] == "";
  }

  lemma {:induction false} LineOfLine(t: string)
    requires t != ""
    ensures LineLength(t[..LineLength(t)]) == LineLength(t)
  {
    var n := LineLength(t);
    if t[0] == '\n' || |t| == 1 {
    } else {
      LineOfLine(t[1..]);
      assert t[..n][1..] == t[1..][..n - 1];
    }
  }

  /** Events dispatched by whole lines at the start of a stream are dispatched by the stream. */
  lemma FeedPrefix(k: Strip, stream: string, n: nat)
    requires n <= |stream| && (n < |stream| ==> n == 0 || stream[n - 1] == '\n')
    ensures Feed(k, stream[..n], FRESH).events <= Feed(k, stream, FRESH).events
  {
    if n < |stream| {
      FeedJoins(k, stream[..n], stream[n..], FRESH);
      assert stream[..n] + stream[n..] == stream;
      EventsOnlyGrow(k, stream[n..], Feed(k, stream[..n], FRESH));
    } else {
      assert stream[..n] == stream;
    }
  }

  // ----- the batch parser -----

  function ReplaceCrLf(t: string): string {
    if |t| < 2 then t
    else if t[0] == '\r' && t[1] == '\n' then "\n" + ReplaceCrLf(t[2..])
    else [t[0]] + ReplaceCrLf(t[1..])
  }

  /** The position of the first empty line's double feed, or the length. */
  function FirstBreak(t: string): (i: nat)
    ensures i <= |t|
    ensures i < |t| ==> i + 1 < |t| && t[i] == '\n' && t[i + 1] == '\n'
    ensures forall j :: 0 <= j < i && j + 1 < |t| ==> !(t[j] == '\n' && t[j + 1] == '\n')
  {
    if |t| < 2 then |t| else if t[0] == '\n' && t[1] == '\n' then 0
    else 1 + FirstBreak(t[1..])
  }

  /** `text.split("\n\n")`. */
  function SplitBlocks(t: string): seq<string>
    decreases |t|
  {
    var i := FirstBreak(t);
    if i == |t| then [t] else [t[..i]] + SplitBlocks(t[i + 2..])
  }

  function FirstLineBreak(t: string): (i: nat)
    ensures i <= |t| && (i < |t| ==> IsLineBreak(t[i]))
    ensures forall j :: 0 <= j < i ==> !IsLineBreak(t[j])
  {
    if t == "" || IsLineBreak(t[0]) then 0 else 1 + FirstLineBreak(t[1..])
  }

  /** `str.splitlines()`. */
  function SplitLines(t: string): seq<string>
    decreases |t|
  {
    if t == "" then []
    else
      var i := FirstLineBreak(t);
      if i == |t| then [t]
      else
        var skip := if t[i] == '\r' && i + 1 < |t| && t[i + 1] == '\n' then 2 else 1;
        [t[..i]] + SplitLines(t[i + skip..])
  }

  /** The data fields of `lines`, after those already gathered. */
  function Gather(gathered: seq<string>, lines: seq<string>): seq<string>
    decreases |lines|
  {
    if lines == [] then gathered else Gather(gathered + DataOf(Text, lines[0]), lines[1..])
  }

  function PayloadsOnto(payloads: seq<string>, blocks: seq<string>): seq<string>
    decreases |blocks|
  {
    if blocks == [] then payloads
    else PayloadsOnto(payloads + Dispatch(Gather([], SplitLines(blocks[0]))), blocks[1..])
  }

  function Batch(t: string): seq<string> {
    PayloadsOnto([], SplitBlocks(ReplaceCrLf(t)))
  }

  method DataPayloads(text: string) returns (payloads: seq<string>)
    ensures payloads == Batch(text)
  {
    payloads := [];
    var blocks := SplitBlocks(ReplaceCrLf(text));
    for i := 0 to |blocks|
      invariant PayloadsOnto(payloads, blocks[i..]) == PayloadsOnto([], blocks)
    {
      var dataLines := Gather([], SplitLines(blocks[i]));
      assert blocks[i..][1..] == blocks[i + 1..];
      assert payloads + [] == payloads;
      if dataLines != [] {
        payloads := payloads + [Join(dataLines)];
      }
    }
  }

  // ----- lines of plain text -----

  lemma CleanHasNoEol(x: string)
    requires Clean(x)
    ensures RStripEol(x) == x && (x != "" ==> x[|x| - 1] != '\n')
  {
    if x != "" {
      assert !IsLineBreak(x[|x| - 1]);
    }
  }

  lemma RStripLine(x: string, eol: string)
    requires Clean(x) && eol in {"", "\n", "\r\n"}
    ensures RStripEol(x + eol) == x
  {
    CleanHasNoEol(x);
    if eol == "\n" {
      assert (x + eol)[..|x|] == x;
    } else if eol == "\r\n" {
      assert (x + eol)[..|x| + 1] == x + "\r" && (x + "\r")[..|x|] == x;
    } else {
      assert x + eol == x;
    }
  }

  lemma {:induction false} LineLengthOf(x: string, eol: string, rest: string)
    requires Clean(x) && (eol in {"\n", "\r\n"} || (eol == "" && rest == ""))
    ensures LineLength(x + eol + rest) == |x| + |eol|
  {
    var t := x + eol + rest;
    if x == "" {
      if eol == "\r\n" {
        assert t[1..] == "\n" + rest;
      }
    } else {
      assert !IsLineBreak(x[0]) && t[1..] == x[1..] + eol + rest;
      LineLengthOf(x[1..], eol, rest);
    }
  }

  /** Reading one line of plain text. */
  lemma FeedLine(k: Strip, x: string, eol: string, rest: string, at: Reader)
    requires Clean(x) && (eol in {"\n", "\r\n"} || (eol == "" && rest == "" && x != ""))
    ensures Feed(k, x + eol + rest, at) == Feed(k, rest, OnLine(k, x, at))
  {
    var t := x + eol + rest;
    LineLengthOf(x, eol, rest);
    RStripLine(x, eol);
    assert t[..|x| + |eol|] == x + eol && t[|x| + |eol|..] == rest;
  }

  /** Plain text is a clean line, a line end, and plain text; or one last clean line. */
  lemma {:induction false} FirstPlainLine(t: string) returns (x: string, eol: string, rest: string)
    requires Plain(t) && t != ""
    ensures t == x + eol + rest && Clean(x) && Plain(rest)
    ensures eol in {"\n", "\r\n"} || (eol == "" && rest == "" && x != "")
  {
    var i := FirstLineBreak(t);
    x := t[..i];
    if i == |t| {
      eol, rest := "", "";
    } else if t[i] == '\n' {
      eol, rest := "\n", t[i + 1..];
      PlainTail(t, i + 1);
    } else {
      assert t[i] == '\r' && t[i + 1] == '\n';
      eol, rest := "\r\n", t[i + 2..];
      PlainTail(t, i + 2);
      assert t == t[..i] + t[i..i + 2] + t[i + 2..] && t[i..i + 2] == eol;
    }
  }

  lemma PlainTail(t: string, n: nat)
    requires Plain(t) && n <= |t|
    ensures Plain(t[n..])
  {
    var rest := t[n..];
    forall j | 0 <= j < |rest| && IsLineBreak(rest[j])
      ensures rest[j] == '\n' || (rest[j] == '\r' && j + 1 < |rest| && rest[j + 1] == '\n')
    {
      var i := n + j;
      assert IsLineBreak(t[i]);
      assert t[i] == '\n' || (t[i] == '\r' && i + 1 < |t| && t[i + 1] == '\n');
    }
  }

  lemma {:induction false} ReplaceLine(x: string, eol: string, rest: string)
    requires Clean(x) && (eol in {"\n", "\r\n"} || (eol == "" && rest == ""))
    ensures ReplaceCrLf(x + eol + rest) == if eol == "" then x else x + "\n" + ReplaceCrLf(rest)
  {
    if x == "" {
      ReplaceEol(eol, rest);
    } else {
      var t := x + eol + rest;
      assert !IsLineBreak(x[0]) && t[0] == x[0] && t[1..] == x[1..] + eol + rest;
      ReplaceLine(x[1..], eol, rest);
    }
  }

  lemma ReplaceEol(eol: string, rest: string)
    requires eol in {"\n", "\r\n"} || (eol == "" && rest == "")
    ensures ReplaceCrLf("" + eol + rest) == if eol == "" then "" else "\n" + ReplaceCrLf(rest)
  {
    var t := "" + eol + rest;
    if eol == "\n" {
      assert t[1..] == rest;
    } else if eol == "\r\n" {
      assert t[2..] == rest;
    }
  }

  /** Replacing CRLF by LF changes nothing the line reader sees, and leaves LF as the only line break. */
  lemma {:induction false} ReplacementIsInvisible(k: Strip, t: string, at: Reader)
    requires Plain(t)
    ensures Feed(k, ReplaceCrLf(t), at) == Feed(k, t, at)
    ensures OnlyLf(ReplaceCrLf(t))
    decreases |t|
  {
    if t == "" {
    } else {
      var x, eol, rest := FirstPlainLine(t);
      ReplaceLine(x, eol, rest);
      FeedLine(k, x, eol, rest, at);
      ReplacementIsInvisible(k, rest, OnLine(k, x, at));
      if eol == "" {
        assert t == x;
      } else {
        FeedLine(k, x, "\n", ReplaceCrLf(rest), at);
      }
    }
  }

  ghost predicate OnlyLf(t: string) {
    forall i :: 0 <= i < |t| && IsLineBreak(t[i]) ==> t[i] == '\n'
  }

  // ----- blocks against lines -----

  ghost predicate NoBreak(t: string) {
    forall j :: 0 <= j && j + 1 < |t| ==> !(t[j] == '\n' && t[j + 1] == '\n')
  }

  lemma SplitFirstLine(x: string, rest: string)
    requires Clean(x)
    ensures SplitLines(x + "\n" + rest) == [x] + SplitLines(rest)
    ensures SplitLines(x) == if x == "" then [] else [x]
  {
    var t := x + "\n" + rest;
    assert t[|x|] == '\n';
    assert FirstLineBreak(t) == |x| by {
      assert forall j :: 0 <= j < |x| ==> t[j] == x[j];
    }
    assert t[..|x|] == x && t[|x| + 1..] == rest;
  }

  /** A block without an empty line inside, up to the empty line that ends it. */
  lemma {:induction false} FeedBlock(b: string, rest: string, at: Reader)
    requires OnlyLf(b) && NoBreak(b) && (b != "" ==> b[|b| - 1] != '\n')
    requires at.pending == [] || b == "" || b[0] != '\n'
    ensures Feed(Text, b + "\n\n" + rest, at) ==
      Feed(Text, rest, Reader(at.events + Dispatch(Gather(at.pending, SplitLines(b))), []))
    decreases |b|
  {
    var i := FirstLineBreak(b);
    if i == |b| {
      FeedOneLineBlock(b, rest, at);
    } else {
      var x, tail := b[..i], b[i + 1..];
      TailOfBlock(b, i);
      assert b + "\n\n" + rest == x + "\n" + (tail + "\n\n" + rest);
      FeedLine(Text, x, "\n", tail + "\n\n" + rest, at);
      FirstLineOfBlock(x, tail, at);
      FeedBlock(tail, rest, OnLine(Text, x, at));
    }
  }

  lemma TailOfBlock(b: string, i: nat)
    requires OnlyLf(b) && NoBreak(b) && i < |b| && i == FirstLineBreak(b)
    ensures var x, tail := b[..i], b[i + 1..];
      && b == x + "\n" + tail && Clean(x)
      && OnlyLf(tail) && NoBreak(tail)
      && (tail == "" || tail[0] != '\n')
      && (tail != "" ==> tail[|tail| - 1] == b[|b| - 1])
  {
    var tail := b[i + 1..];
    assert b[i] == '\n';
    forall j | 0 <= j < |tail| && IsLineBreak(tail[j]) ensures tail[j] == '\n' {
      assert b[i + 1 + j] == tail[j];
    }
    forall j | 0 <= j && j + 1 < |tail| ensures !(tail[j] == '\n' && tail[j + 1] == '\n') {
      assert b[i + 1 + j] == tail[j] && b[i + 1 + j + 1] == tail[j + 1];
    }
    assert tail != "" ==> tail[0] == b[i + 1];
  }

  lemma FeedOneLineBlock(b: string, rest: string, at: Reader)
    requires Clean(b)
    ensures Feed(Text, b + "\n\n" + rest, at) ==
      Feed(Text, rest, Reader(at.events + Dispatch(Gather(at.pending, SplitLines(b))), []))
  {
    assert b + "\n\n" + rest == b + "\n" + ("\n" + rest) && "\n" + rest == "" + "\n" + rest;
    SplitFirstLine(b, "");
    FeedLine(Text, b, "\n", "\n" + rest, at);
    FeedLine(Text, "", "\n", rest, OnLine(Text, b, at));
    if b == "" {
      var events := at.events + Dispatch(at.pending);
      assert events + Dispatch([]) == events;
    } else {
      assert [b][1..] == [];
    }
  }

  /** The first line of a block does to the reader what it does to the gathered data. */
  lemma FirstLineOfBlock(x: string, tail: string, at: Reader)
    requires Clean(x) && (x == "" ==> at.pending == [])
    ensures OnLine(Text, x, at).events == at.events
    ensures Gather(OnLine(Text, x, at).pending, SplitLines(tail)) == Gather(at.pending, SplitLines(x + "\n" + tail))
  {
    SplitFirstLine(x, tail);
    var lines := [x] + SplitLines(tail);
    assert lines[1..] == SplitLines(tail);
    if x == "" {
      assert at.events + [] == at.events && at.pending + [] == at.pending;
    }
  }

  /** The last block: what is pending at the end is what the batch parser still reports. */
  lemma {:induction false} FeedLastBlock(u: string, at: Reader)
    requires OnlyLf(u) && NoBreak(u)
    requires at.pending == [] || u == "" || u[0] != '\n'
    ensures Flush(Feed(Text, u, at)) == at.events + Dispatch(Gather(at.pending, SplitLines(u)))
    decreases |u|
  {
    if u == "" {
    } else {
      var i := FirstLineBreak(u);
      if i == |u| {
        assert u + "" + "" == u && [u][1..] == [];
        SplitFirstLine(u, "");
        FeedLine(Text, u, "", "", at);
      } else {
        var x, tail := u[..i], u[i + 1..];
        TailOfBlock(u, i);
        FeedLine(Text, x, "\n", tail, at);
        FirstLineOfBlock(x, tail, at);
        FeedLastBlock(tail, OnLine(Text, x, at));
      }
    }
  }

  lemma {:induction false} BlocksAreEvents(u: string, events: seq<string>)
    requires OnlyLf(u)
    ensures PayloadsOnto(events, SplitBlocks(u)) == Flush(Feed(Text, u, Reader(events, [])))
    decreases |u|
  {
    var i := FirstBreak(u);
    if i == |u| {
      FeedLastBlock(u, Reader(events, []));
      assert [u][1..] == [];
    } else {
      var b, rest := u[..i], u[i + 2..];
      assert u == b + "\n\n" + rest;
      assert OnlyLf(b) && OnlyLf(rest) && NoBreak(b);
      FeedBlock(b, rest, Reader(events, []));
      BlocksAreEvents(rest, events + Dispatch(Gather([], SplitLines(b))));
      assert ([b] + SplitBlocks(rest))[1..] == SplitBlocks(rest);
    }
  }

  /** On plain text the batch payloads are the line reader's events, the unterminated tail included. */
  lemma BatchIsFeedPlusTail(t: string)
    requires Plain(t)
    ensures Batch(t) == Flush(Feed(Text, t, FRESH))
  {
    ReplacementIsInvisible(Text, t, FRESH);
    BlocksAreEvents(ReplaceCrLf(t), []);
  }

  // ----- the two ways of stripping -----

  /** A data line whose field starts, after ASCII blanks, with a blank only text stripping removes. */
  predicate Exotic(line: string) {
    IsData(line) && var y := LStrip(Ascii, line[5..]); y != "" && IsTextBlank(y[0])
  }

  ghost predicate NoExoticLine(t: string)
    decreases |t|
  {
    t == "" || (!Exotic(RStripEol(t[..LineLength(t)])) && NoExoticLine(t[LineLength(t)..]))
  }

  lemma {:induction false} StripTwice(x: string)
    ensures LStrip(Text, LStrip(Ascii, x)) == LStrip(Text, x)
    ensures LStrip(Text, x) == LStrip(Ascii, x) <==> LStrip(Ascii, x) == "" || !IsTextBlank(LStrip(Ascii, x)[0])
  {
    if x == "" || !IsAsciiBlank(x[0]) {
    } else {
      StripTwice(x[1..]);
    }
  }

  /** Line by line, text stripping of what ASCII stripping left. */
  ghost predicate Restripped(texts: seq<string>, asciis: seq<string>) {
    |texts| == |asciis| && forall i :: 0 <= i < |texts| ==> texts[i] == LStrip(Text, asciis[i])
  }

  lemma {:induction false} JoinGrows(texts: seq<string>, asciis: seq<string>)
    requires Restripped(texts, asciis)
    ensures |Join(texts)| <= |Join(asciis)|
    ensures Join(texts) == Join(asciis) ==> texts == asciis
  {
    if |texts| <= 1 {
    } else {
      JoinGrows(texts[1..], asciis[1..]);
      if Join(texts) == Join(asciis) {
        assert |texts[0]| == |asciis[0]|;
        assert Join(texts)[..|texts[0]|] == texts[0] && Join(asciis)[..|asciis[0]|] == asciis[0];
        assert Join(texts)[|texts[0]| + 1..] == Join(texts[1..]);
        assert Join(asciis)[|asciis[0]| + 1..] == Join(asciis[1..]);
        assert texts == [texts[0]] + texts[1..] && asciis == [asciis[0]] + asciis[1..];
      }
    }
  }

  lemma DataRestrips(line: string, texts: seq<string>, asciis: seq<string>)
    requires Restripped(texts, asciis)
    ensures Restripped(texts + DataOf(Text, line), asciis + DataOf(Ascii, line))
    ensures DataOf(Text, line) == DataOf(Ascii, line) <==> !Exotic(line)
  {
    if IsData(line) {
      StripTwice(line[5..]);
    }
  }

  lemma {:induction false} FeedsAgreeIff(t: string, texts: Reader, asciis: Reader)
    requires Restripped(texts.pending, asciis.pending) && |texts.events| == |asciis.events|
    ensures Feed(Text, t, texts) == Feed(Ascii, t, asciis) <==> texts == asciis && NoExoticLine(t)
    decreases |t|
  {
    if t == "" {
    } else {
      var line, rest := RStripEol(t[..LineLength(t)]), t[LineLength(t)..];
      var moreTexts, moreAsciis := OnLine(Text, line, texts), OnLine(Ascii, line, asciis);
      if line == "" {
        DispatchesAgreeIff(texts, asciis);
      } else {
        DataRestrips(line, texts.pending, asciis.pending);
        var n := |texts.pending|;
        assert moreTexts.pending[..n] == texts.pending && moreTexts.pending[n..] == DataOf(Text, line);
        assert moreAsciis.pending[..n] == asciis.pending && moreAsciis.pending[n..] == DataOf(Ascii, line);
      }
      FeedsAgreeIff(rest, moreTexts, moreAsciis);
    }
  }

  /** Line by line the two ways of stripping keep as many events, and the same lines pending up to stripping. */
  lemma {:induction false} FeedsKeepStep(t: string, texts: Reader, asciis: Reader)
    requires Restripped(texts.pending, asciis.pending) && |texts.events| == |asciis.events|
    ensures var moreTexts, moreAsciis := Feed(Text, t, texts), Feed(Ascii, t, asciis);
      Restripped(moreTexts.pending, moreAsciis.pending) && |moreTexts.events| == |moreAsciis.events|
    decreases |t|
  {
    if t == "" {
    } else {
      var line := RStripEol(t[..LineLength(t)]);
      if line != "" {
        DataRestrips(line, texts.pending, asciis.pending);
      }
      FeedsKeepStep(t[LineLength(t)..], OnLine(Text, line, texts), OnLine(Ascii, line, asciis));
    }
  }

  lemma DispatchesAgreeIff(texts: Reader, asciis: Reader)
    requires Restripped(texts.pending, asciis.pending) && |texts.events| == |asciis.events|
    ensures Flush(texts) == Flush(asciis) <==> texts == asciis
    ensures |Flush(texts)| == |Flush(asciis)|
  {
    JoinGrows(texts.pending, asciis.pending);
    var n := |texts.events|;
    assert Flush(texts)[..n] == texts.events && Flush(texts)[n..] == Dispatch(texts.pending);
    assert Flush(asciis)[..n] == asciis.events && Flush(asciis)[n..] == Dispatch(asciis.pending);
    if texts.pending != [] {
      assert Dispatch(texts.pending)[0] == Join(texts.pending) && Dispatch(asciis.pending)[0] == Join(asciis.pending);
    }
  }

  /** On plain text the batch payloads are the incremental reader's completed events and at most one unterminated tail,
      exactly when no data field starts with a blank only text stripping removes. */
  lemma ReadersAgreeIff(raw: string)
    requires Plain(raw)
    ensures var end := Feed(Ascii, raw, FRESH);
      && (NoExoticLine(raw) <==> Batch(raw) == end.events + Dispatch(end.pending))
      && |Dispatch(end.pending)| <= 1
  {
    FeedsAgreeIff(raw, FRESH, FRESH);
    FeedsKeepStep(raw, FRESH, FRESH);
    DispatchesAgreeIff(Feed(Text, raw, FRESH), Feed(Ascii, raw, FRESH));
    BatchIsFeedPlusTail(raw);
  }

  // ----- [DONE] -----

  lemma JoinedLinesShow(parts: seq<string>)
    requires |parts| > 1
    ensures '\n' in Join(parts)
  {
    assert Join(parts)[|parts[0]|] == '\n';
  }

  lemma DoneIsOneLine(asciis: seq<string>)
    requires Join(asciis) == DONE
    ensures asciis == [DONE]
  {
    if |asciis| > 1 {
      JoinedLinesShow(asciis);
    }
  }

  lemma {:induction false} DoneSurvivesStripping(t: string, texts: Reader, asciis: Reader)
    requires Restripped(texts.pending, asciis.pending)
    requires DONE in asciis.events ==> DONE in texts.events
    requires DONE in Feed(Ascii, t, asciis).events
    ensures DONE in Feed(Text, t, texts).events
    decreases |t|
  {
    if t == "" {
    } else {
      var line, rest := RStripEol(t[..LineLength(t)]), t[LineLength(t)..];
      if line == "" {
        if asciis.pending != [] && Join(asciis.pending) == DONE {
          DoneIsOneLine(asciis.pending);
          assert texts.pending == [LStrip(Text, DONE)] && LStrip(Text, DONE) == DONE;
          assert Flush(texts)[|texts.events|] == DONE;
        }
      } else {
        DataRestrips(line, texts.pending, asciis.pending);
      }
      DoneSurvivesStripping(rest, OnLine(Text, line, texts), OnLine(Ascii, line, asciis));
    }
  }

  /** A True from the incremental reader means the batch parser sees [DONE] in what was read. */
  lemma DoneIsSeenByBoth(raw: string)
    requires Plain(raw) && DONE in Feed(Ascii, raw, FRESH).events
    ensures DONE in Batch(raw)
  {
    DoneSurvivesStripping(raw, FRESH, FRESH);
    BatchIsFeedPlusTail(raw);
  }

  /** One data line and nothing else. */
  lemma OneDataLine(k: Strip, line: string)
    requires Clean(line) && IsData(line)
    ensures Plain(line) && Feed(k, line, FRESH) == Reader([], [LStrip(k, line[5..])])
  {
    assert line + "" + "" == line;
    FeedLine(k, line, "", "", FRESH);
  }

  /** The converse fails: an unterminated [DONE] is seen by the batch parser only. */
  lemma UnterminatedDoneIsSeenByBatchOnly()
    ensures var t := "data:" + DONE;
      Plain(t) && DONE in Batch(t) && DONE !in Feed(Ascii, t, FRESH).events
    ensures DONE == "[DONE]"
  {
    var t := DoneLine();
    UnterminatedLine(t);
  }

  /** The line that ends a stream: clean, and a data line of the marker. */
  lemma DoneLine() returns (t: string)
    ensures t == "data:" + DONE && Clean(t) && IsData(t) && LStrip(Text, t[5..]) == DONE
  {
    t := "data:" + DONE;
    assert t[5..] == DONE && LStrip(Text, DONE) == DONE;
  }

  /** An unterminated data line is a payload for the batch parser and no event for the incremental reader. */
  lemma UnterminatedLine(t: string)
    requires Clean(t) && IsData(t)
    ensures Plain(t) && Batch(t) == [LStrip(Text, t[5..])] && Feed(Ascii, t, FRESH).events == []
  {
    OneDataLine(Ascii, t);
    OneDataLine(Text, t);
    BatchIsFeedPlusTail(t);
    var field := LStrip(Text, t[5..]);
    assert Dispatch([field]) == [field];
  }

  /** One data line, ended and dispatched. */
  lemma OneDispatchedLine(k: Strip, line: string)
    requires Clean(line) && IsData(line)
    ensures Plain(line + "\n" + "\n")
    ensures Feed(k, line + "\n" + "\n", FRESH) == Reader([LStrip(k, line[5..])], [])
  {
    FeedLine(k, line, "\n", "\n", FRESH);
    var read := OnLine(k, line, FRESH);
    assert read == Reader([], [LStrip(k, line[5..])]);
    EmptyLineDispatches(k, [], read.pending);
    assert [] + Dispatch(read.pending) == Dispatch(read.pending);
  }

  lemma EmptyLineDispatches(k: Strip, events: seq<string>, pending: seq<string>)
    ensures Feed(k, "\n", Reader(events, pending)) == Reader(events + Dispatch(pending), [])
  {
    assert "\n" == "" + "\n" + "";
    FeedLine(k, "", "\n", "", Reader(events, pending));
  }

  /** A no-break space before [DONE] ends the stream for the batch parser and not for the incremental reader. */
  lemma NoBreakSpaceSplitsTheReaders() returns (t: string)
    ensures Plain(t) && DONE in Batch(t) && DONE !in Feed(Ascii, t, FRESH).events
  {
    var field := "\U{a0}" + DONE;
    var line := "data:" + field;
    t := line + "\n" + "\n";
    assert line[5..] == field && field[1..] == DONE;
    OneDispatchedLine(Ascii, line);
    OneDispatchedLine(Text, line);
    assert LStrip(Text, field) == LStrip(Text, DONE) == DONE;
    assert LStrip(Ascii, field) == field && |field| != |DONE|;
    BatchIsFeedPlusTail(t);
    assert Batch(t) == [DONE] + [];
  }

  // ----- a bare carriage return -----

  /** Two data lines with a line of two carriage returns between them. */
  function BareReturn(x: string, y: string): string {
    x + "\n" + ("\r\r\n" + (y + "\n" + "\n"))
  }

  /** On text that is not plain even the end marker can be missed: the incremental reader strips the carriage returns to
      an empty line and dispatches, the batch parser sees no empty line there and joins both events. */
  lemma BareReturnHidesDone(x: string)
    requires Clean(x) && IsData(x)
    ensures var t := BareReturn(x, "data:" + DONE);
      !Plain(t) && DONE in Feed(Ascii, t, FRESH).events && DONE !in Batch(t)
  {
    var y := DoneLine();
    var t := BareReturn(x, y);
    assert t[|x| + 1] == '\r' && t[|x| + 2] == '\r' && IsLineBreak(t[|x| + 1]);
    assert LStrip(Ascii, y[5..]) == y[5..];
    BareReturnFeeds(x, y);
    assert Feed(Ascii, t, FRESH).events[1] == DONE;
    BareReturnJoins(x, y);
    assert |LStrip(Text, x[5..]) + "\n" + DONE| > |DONE|;
  }

  lemma BareReturnFeeds(x: string, y: string)
    requires Clean(x) && IsData(x) && Clean(y) && IsData(y)
    ensures Feed(Ascii, BareReturn(x, y), FRESH) == Reader([LStrip(Ascii, x[5..]), LStrip(Ascii, y[5..])], [])
  {
    var first, last := LStrip(Ascii, x[5..]), y + "\n" + "\n";
    FeedLine(Ascii, x, "\n", "\r\r\n" + last, FRESH);
    assert OnLine(Ascii, x, FRESH) == Reader([], [first]);
    ReturnsDispatch(last, [first]);
    FeedLine(Ascii, y, "\n", "\n", Reader([first], []));
    assert OnLine(Ascii, y, Reader([first], [])) == Reader([first], [LStrip(Ascii, y[5..])]);
    EmptyLineDispatches(Ascii, [first], [LStrip(Ascii, y[5..])]);
  }

  lemma ReturnsDispatch(last: string, pending: seq<string>)
    ensures Feed(Ascii, "\r\r\n" + last, Reader([], pending)) == Feed(Ascii, last, Reader(Dispatch(pending), []))
  {
    var eol := "\r\r\n";
    var t := eol + last;
    ReturnsAreOneLine(last);
    assert t[..3] == eol && t[3..] == last;
    assert [] + Dispatch(pending) == Dispatch(pending);
  }

  lemma ReturnsAreOneLine(last: string)
    ensures LineLength("\r\r\n" + last) == 3 && RStripEol("\r\r\n") == ""
  {
    var t := "\r\r\n" + last;
    var two := "\r\n" + last;
    var one := "\n" + last;
    assert t[1..] == two && two[1..] == one;
    assert LineLength(one) == 1 && LineLength(two) == 2;
    assert "\r\r\n"[..2] == "\r\r" && "\r\r"[..1] == "\r" && "\r"[..0] == "";
  }

  lemma BareReturnJoins(x: string, y: string)
    requires Clean(x) && IsData(x) && Clean(y) && IsData(y)
    ensures Batch(BareReturn(x, y)) == [LStrip(Text, x[5..]) + "\n" + LStrip(Text, y[5..])]
  {
    var block := x + "\n" + ("\r\n" + y);
    BareReturnReplaced(x, y);
    BareReturnIsOneBlock(x, y);
    BareReturnLines(x, y);
    OnePayload(block, [LStrip(Text, x[5..]), LStrip(Text, y[5..])]);
  }

  lemma OnePayload(block: string, data: seq<string>)
    requires Gather([], SplitLines(block)) == data && |data| == 2
    ensures PayloadsOnto([], [block, ""]) == [data[0] + "\n" + data[1]]
  {
    assert [block, ""][1..] == [""];
    assert Gather([], SplitLines("")) == [];
    assert data[1..] == [data[1]];
    assert Join([data[1]]) == data[1] && Join(data) == data[0] + "\n" + data[1];
    var payloads := [Join(data)];
    assert [] + Dispatch(data) == payloads && payloads + Dispatch([]) == payloads;
    assert [""][1..] == [];
    assert PayloadsOnto(payloads, []) == payloads;
    assert PayloadsOnto(payloads, [""]) == PayloadsOnto(payloads + Dispatch([]), [""][1..]);
    assert PayloadsOnto([], [block, ""]) == PayloadsOnto([] + Dispatch(data), [""]);
  }

  lemma BareReturnReplaced(x: string, y: string)
    requires Clean(x) && Clean(y)
    ensures ReplaceCrLf(BareReturn(x, y)) == x + "\n" + ("\r\n" + y) + "\n" + "\n"
  {
    var last := y + "\n" + "\n";
    var rest := "\r\r\n" + last;
    ReplaceLine(x, "\n", rest);
    ReturnsReplaced(last);
    LastLineReplaced(y);
    Regroup(x, "\n", "\r\n", y);
  }

  lemma Regroup(x: string, a: string, b: string, y: string)
    ensures x + a + (b + (y + a + a)) == x + a + (b + y) + a + a
  {
  }

  lemma LastLineReplaced(y: string)
    requires Clean(y)
    ensures ReplaceCrLf(y + "\n" + "\n") == y + "\n" + "\n"
  {
    ReplaceLine(y, "\n", "\n");
  }

  lemma ReturnsReplaced(last: string)
    ensures ReplaceCrLf("\r\r\n" + last) == "\r\n" + ReplaceCrLf(last)
  {
    var rest := "\r\r\n" + last;
    assert rest[1..] == "" + "\r\n" + last;
    ReplaceEol("\r\n", last);
    assert ReplaceCrLf(rest) == "\r" + ("\n" + ReplaceCrLf(last));
  }

  lemma BareReturnIsOneBlock(x: string, y: string)
    requires Clean(x) && Clean(y) && y != ""
    ensures var block := x + "\n" + ("\r\n" + y); SplitBlocks(block + "\n" + "\n") == [block, ""]
  {
    var block := x + "\n" + ("\r\n" + y);
    var n := |x|;
    forall j | 0 <= j && j + 1 < |block| ensures !(block[j] == '\n' && block[j + 1] == '\n') {
      if j < n {
        assert block[j] == x[j];
      } else if j > n + 2 {
        assert block[j] == y[j - n - 3];
      } else if j == n + 2 {
        assert block[j + 1] == y[0];
      }
    }
    assert block[|block| - 1] == y[|y| - 1];
    OneBlock(block + "\n" + "\n", block);
  }

  lemma OneBlock(t: string, block: string)
    requires NoBreak(block) && block != "" && block[|block| - 1] != '\n'
    requires |t| == |block| + 2 && t[..|block|] == block && t[|block|] == '\n' && t[|block| + 1] == '\n'
    ensures SplitBlocks(t) == [block, ""]
  {
    BlockEndsFirst(block, t);
    FirstBreakIsAt(t, |block|);
    BlockThenRest(t, block, t[|block| + 2..]);
    EmptyIsOneBlock();
  }

  lemma BlockThenRest(t: string, block: string, rest: string)
    requires FirstBreak(t) == |block| && |t| == |block| + 2 + |rest|
    requires block == t[..|block|] && rest == t[|block| + 2..]
    ensures SplitBlocks(t) == [block] + SplitBlocks(rest)
  {
  }

  lemma BlockEndsFirst(block: string, t: string)
    requires NoBreak(block) && block != "" && block[|block| - 1] != '\n'
    requires |t| == |block| + 2 && t[..|block|] == block
    ensures forall j :: 0 <= j < |block| ==> !(t[j] == '\n' && t[j + 1] == '\n')
  {
    forall j | 0 <= j < |block| ensures !(t[j] == '\n' && t[j + 1] == '\n') {
      assert t[j] == t[..|block|][j];
      if j + 1 < |block| {
        assert t[j + 1] == t[..|block|][j + 1];
      }
    }
  }

  lemma FirstBreakIsAt(t: string, i: nat)
    requires i + 1 < |t| && t[i] == '\n' && t[i + 1] == '\n'
    requires forall j :: 0 <= j < i ==> !(t[j] == '\n' && t[j + 1] == '\n')
    ensures FirstBreak(t) == i
  {
  }

  lemma EmptyIsOneBlock()
    ensures SplitBlocks("") == [""]
  {
  }

  lemma BareReturnLines(x: string, y: string)
    requires Clean(x) && IsData(x) && Clean(y) && IsData(y)
    ensures Gather([], SplitLines(x + "\n" + ("\r\n" + y))) == [LStrip(Text, x[5..]), LStrip(Text, y[5..])]
  {
    var rest := "\r\n" + y;
    SplitFirstLine(x, rest);
    ReturnThenLine(y);
    assert [x] + ["", y] == [x, "", y];
    GatherAroundEmpty(x, y);
  }

  lemma ReturnThenLine(y: string)
    requires Clean(y) && y != ""
    ensures SplitLines("\r\n" + y) == ["", y]
  {
    var rest := "\r\n" + y;
    assert rest[2..] == y && rest[..0] == "" && FirstLineBreak(rest) == 0;
    SplitFirstLine(y, "");
    assert [""] + [y] == ["", y];
  }

  lemma GatherAroundEmpty(x: string, y: string)
    requires IsData(x) && IsData(y)
    ensures Gather([], [x, "", y]) == [LStrip(Text, x[5..]), LStrip(Text, y[5..])]
  {
    var fx, fy := LStrip(Text, x[5..]), LStrip(Text, y[5..]);
    assert [x, "", y][1..] == ["", y] && ["", y][1..] == [y] && [y][1..] == [];
    assert [] + DataOf(Text, x) == [fx] && [fx] + DataOf(Text, "") == [fx] && [fx] + DataOf(Text, y) == [fx, fy];
    assert Gather([fx], [y]) == Gather([fx, fy], []);
    assert Gather([fx], ["", y]) == Gather([fx], [y]);
  }
}
