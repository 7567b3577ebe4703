/** Nested log lines and their truncation. */
module LogLines {
  import opened Results
  import opened Bytes

  const MAX_LOG_LINE_LENGTH: nat := 32768
  const TRUNCATED_LINE_SUFFIX: string := " (truncated due to length)"

  datatype LogLevel = Debug | Error | Warn | Info | Log

  datatype StructuredLine = StructuredLine(messages: seq<string>, level: LogLevel, isTruncated: bool, timestamp: nat)

  /** A line of a function, or all the lines of a function it called. */
  datatype LogLine = Structured(line: StructuredLine) | SubFunction(path: string, lines: seq<LogLine>)

  // ----- Nested lines -----

  function Len(lines: seq<LogLine>): nat
    decreases lines, 1
  {
    if lines == [] then 0 else LineLen(lines[0]) + Len(lines[1..])
  }

  function LineLen(line: LogLine): nat
    decreases line, 0
  {
    match line
    case Structured(_) => 1
    case SubFunction(_, sub) => Len(sub)
  }

  /** The lines as a reader sees them, without the nesting. */
  function Flatten(lines: seq<LogLine>): seq<StructuredLine>
    decreases lines, 1
  {
    if lines == [] then [] else FlattenLine(lines[0]) + Flatten(lines[1..])
  }

  function FlattenLine(line: LogLine): seq<StructuredLine>
    decreases line, 0
  {
    match line
    case Structured(s) => [s]
    case SubFunction(_, sub) => Flatten(sub)
  }

  /** Keeps the first `n` lines; the running count of what is left never goes below zero. */
  function Truncate(lines: seq<LogLine>, n: nat): (r: seq<LogLine>)
    ensures Len(r) <= n
    decreases lines, 1
  {
    if n == 0 || lines == [] then []
    else
      var (line, left) := TruncateLine(lines[0], n);
      LenCons(line, Truncate(lines[1..], left));
      [line] + Truncate(lines[1..], left)
  }

  /** One line truncated, and how many lines are left to keep after it. */
  function TruncateLine(line: LogLine, n: nat): (r: (LogLine, nat))
    requires n > 0
    ensures LineLen(r.0) + r.1 == n
    decreases line, 0
  {
    match line
    case Structured(_) => (line, n - 1)
    case SubFunction(path, sub) =>
      var kept := Truncate(sub, n);
      (SubFunction(path, kept), n - Len(kept))
  }

  lemma LenCons(line: LogLine, rest: seq<LogLine>)
    ensures Len([line] + rest) == LineLen(line) + Len(rest)
  {
    assert ([line] + rest)[1..] == rest;
  }

  lemma TruncateNext(before: seq<LogLine>, lines: seq<LogLine>, i: nat, n: nat)
    requires i < |lines| && n > 0
    ensures var (line, left) := TruncateLine(lines[i], n);
            before + Truncate(lines[i..], n) == before + [line] + Truncate(lines[i + 1..], left)
  {
    assert lines[i..][1..] == lines[i + 1..];
    var (line, left) := TruncateLine(lines[i], n);
    assert before + ([line] + Truncate(lines[i + 1..], left)) == before + [line] + Truncate(lines[i + 1..], left);
  }

  method Truncated(lines: seq<LogLine>, n: nat) returns (r: seq<LogLine>)
    ensures r == Truncate(lines, n)
    decreases lines, 1
  {
    r := [];
    var len: nat := n;
    var i := 0;
    assert lines[0..] == lines;
    while i < |lines| && len != 0
      invariant 0 <= i <= |lines|
      invariant r + Truncate(lines[i..], len) == Truncate(lines, n)
      decreases |lines| - i
    {
      TruncateNext(r, lines, i, len);
      var line, left := TruncatedLine(lines[i], len);
      r := r + [line];
      len := left;
      i := i + 1;
    }
    assert r + [] == r;
  }

  method TruncatedLine(line: LogLine, n: nat) returns (kept: LogLine, left: nat)
    requires n > 0
    ensures (kept, left) == TruncateLine(line, n)
    decreases line, 0
  {
    match line
    case Structured(_) =>
      kept, left := line, n - 1;
    case SubFunction(path, sub) =>
      var subLines := Truncated(sub, n);
      kept, left := SubFunction(path, subLines), n - Len(subLines);
  }

  function PrettyString(line: StructuredLine): string {
    "[" + LevelName(line.level) + "] " + Join(line.messages)
    + (if line.isTruncated then TRUNCATED_LINE_SUFFIX else "")
  }

  function LevelTag(level: LogLevel): string {
    match level
    case Debug => "[DEBUG] "
    case Error => "[ERROR] "
    case Warn => "[WARN] "
    case Info => "[INFO] "
    case Log => "[LOG] "
  }

  lemma TagIsBracketedName(level: LogLevel)
    ensures "[" + LevelName(level) + "] " == LevelTag(level)
  {
  }

  /** A pretty line is its level in brackets, a space, the joined messages and, if it was cut, a note saying so. */
  lemma PrettyStringSays(line: StructuredLine)
    ensures PrettyString(line) ==
            LevelTag(line.level) + Join(line.messages) + if line.isTruncated then " (truncated due to length)" else ""
  {
    TagIsBracketedName(line.level);
  }

  function LevelName(level: LogLevel): string {
    match level
    case Debug => "DEBUG"
    case Error => "ERROR"
    case Warn => "WARN"
    case Info => "INFO"
    case Log => "LOG"
  }

  function PrettyStrings(line: LogLine): seq<string>
    decreases line, 0
  {
    match line
    case Structured(s) => [PrettyString(s)]
    case SubFunction(_, sub) => AllPretty(sub)
  }

  function AllPretty(lines: seq<LogLine>): seq<string>
    decreases lines, 1
  {
    if lines == [] then [] else PrettyStrings(lines[0]) + AllPretty(lines[1..])
  }

  /** The length counts the flattened lines. */
  lemma {:induction false} LenCountsLines(lines: seq<LogLine>)
    ensures Len(lines) == |Flatten(lines)|
  {
    if lines != [] {
      LenCountsLines(lines[1..]);
      match lines[0]
      case Structured(_) =>
      case SubFunction(_, sub) => LenCountsLines(sub);
    }
  }

  function PrettyEach(lines: seq<StructuredLine>): seq<string> {
    seq(|lines|, i requires 0 <= i < |lines| => PrettyString(lines[i]))
  }

  lemma PrettyEachConcat(a: seq<StructuredLine>, b: seq<StructuredLine>)
    ensures PrettyEach(a + b) == PrettyEach(a) + PrettyEach(b)
    ensures |PrettyEach(a)| == |a|
  {
  }

  /** Pretty-printing prints the flattened lines one by one, so it prints as many strings as the length says. */
  lemma {:induction false} PrettyPrintsFlattened(lines: seq<LogLine>)
    ensures AllPretty(lines) == PrettyEach(Flatten(lines))
    ensures |AllPretty(lines)| == Len(lines)
  {
    LenCountsLines(lines);
    PrettyEachConcat(Flatten(lines), []);
    if lines != [] {
      PrettyPrintsFlattened(lines[1..]);
      match lines[0]
      case Structured(line) =>
        PrettyEachConcat([line], Flatten(lines[1..]));
      case SubFunction(_, sub) =>
        PrettyPrintsFlattened(sub);
        PrettyEachConcat(Flatten(sub), Flatten(lines[1..]));
    }
  }

  function Min(a: nat, b: nat): nat {
    if a < b then a else b
  }

  function Take<T>(lines: seq<T>, n: nat): seq<T> {
    lines[..Min(n, |lines|)]
  }

  lemma TakeConcat<T>(a: seq<T>, b: seq<T>, n: nat)
    ensures Take(a + b, n) == Take(a, n) + Take(b, n - |Take(a, n)|)
  {
  }

  lemma {:induction false} FlattenTruncate(lines: seq<LogLine>, n: nat)
    ensures Flatten(Truncate(lines, n)) == Take(Flatten(lines), n)
    decreases lines, 1
  {
    if n != 0 && lines != [] {
      var first, rest := lines[0], lines[1..];
      var (kept, left) := TruncateLine(first, n);
      FlattenTruncateLine(first, n);
      FlattenTruncate(rest, left);
      FlattenCons(kept, Truncate(rest, left));
      FlattenCons(first, rest);
      assert lines == [first] + rest;
      TakeConcat(FlattenLine(first), Flatten(rest), n);
    }
  }

  lemma {:induction false} FlattenTruncateLine(line: LogLine, n: nat)
    requires n > 0
    ensures FlattenLine(TruncateLine(line, n).0) == Take(FlattenLine(line), n)
    ensures TruncateLine(line, n).1 == n - |Take(FlattenLine(line), n)|
    decreases line, 0
  {
    match line
    case Structured(_) =>
    case SubFunction(_, sub) =>
      FlattenTruncate(sub, n);
      LenCountsLines(Truncate(sub, n));
  }

  /** Truncating and flattening is taking the first lines, however deep the nesting. */
  lemma TruncateTakesFirstLines(lines: seq<LogLine>, n: nat)
    ensures Flatten(Truncate(lines, n)) == Take(Flatten(lines), n)
    ensures Len(Truncate(lines, n)) == Min(Len(lines), n)
  {
    FlattenTruncate(lines, n);
    LenCountsLines(lines);
    LenCountsLines(Truncate(lines, n));
  }

  lemma FlattenCons(line: LogLine, rest: seq<LogLine>)
    ensures Flatten([line] + rest) == FlattenLine(line) + Flatten(rest)
  {
    assert ([line] + rest)[1..] == rest;
  }

  // ----- Truncation keeps paths and nesting -----

  /** A line with the paths of the functions around it, outermost first. */
  datatype Placed = Placed(path: seq<string>, line: StructuredLine)

  /** The lines with where they come from. */
  function Place(lines: seq<LogLine>, path: seq<string>): seq<Placed>
    decreases lines, 1
  {
    if lines == [] then [] else PlaceLine(lines[0], path) + Place(lines[1..], path)
  }

  function PlaceLine(line: LogLine, path: seq<string>): seq<Placed>
    decreases line, 0
  {
    match line
    case Structured(s) => [Placed(path, s)]
    case SubFunction(p, sub) => Place(sub, path + [p])
  }

  lemma PlaceCons(line: LogLine, rest: seq<LogLine>, path: seq<string>)
    ensures Place([line] + rest, path) == PlaceLine(line, path) + Place(rest, path)
  {
    assert ([line] + rest)[1..] == rest;
  }

  lemma {:induction false} PlaceCounts(lines: seq<LogLine>, path: seq<string>)
    ensures |Place(lines, path)| == Len(lines)
  {
    if lines != [] {
      PlaceCounts(lines[1..], path);
      match lines[0]
      case Structured(_) =>
      case SubFunction(p, sub) => PlaceCounts(sub, path + [p]);
    }
  }

  /** Truncating keeps the first lines, each under the same paths as before. */
  lemma {:induction false} TruncateKeepsPlaces(lines: seq<LogLine>, n: nat, path: seq<string>)
    ensures Place(Truncate(lines, n), path) == Take(Place(lines, path), n)
    decreases lines, 1
  {
    if n != 0 && lines != [] {
      var first, rest := lines[0], lines[1..];
      var (kept, left) := TruncateLine(first, n);
      TruncateLineKeepsPlaces(first, n, path);
      TruncateKeepsPlaces(rest, left, path);
      PlaceCons(kept, Truncate(rest, left), path);
      TakeConcat(PlaceLine(first, path), Place(rest, path), n);
    }
  }

  lemma {:induction false} TruncateLineKeepsPlaces(line: LogLine, n: nat, path: seq<string>)
    requires n > 0
    ensures PlaceLine(TruncateLine(line, n).0, path) == Take(PlaceLine(line, path), n)
    ensures TruncateLine(line, n).1 == n - |Take(PlaceLine(line, path), n)|
    decreases line, 0
  {
    match line
    case Structured(_) =>
    case SubFunction(p, sub) =>
      TruncateKeepsPlaces(sub, n, path + [p]);
      PlaceCounts(Truncate(sub, n), path + [p]);
  }

  /** What truncation makes of one entry when `left` more lines may be kept. */
  predicate TruncatedEntry(before: LogLine, after: LogLine, left: nat) {
    match before
    case Structured(_) => after == before
    case SubFunction(path, sub) => after == SubFunction(path, Truncate(sub, left))
  }

  lemma LenOfPrefix(lines: seq<LogLine>, i: nat)
    requires 0 < i <= |lines|
    ensures Len(lines[..i]) == LineLen(lines[0]) + Len(lines[1..][..i - 1])
  {
    assert lines[..i][1..] == lines[1..][..i - 1];
  }

  lemma LineLenTruncated(line: LogLine, n: nat)
    requires n > 0
    ensures TruncateLine(line, n).1 == if LineLen(line) < n then n - LineLen(line) else 0
  {
    match line
    case Structured(_) =>
    case SubFunction(_, sub) => TruncateTakesFirstLines(sub, n);
  }

  /**
   Entry by entry: those are kept before which fewer than `n` lines stand, plain lines as they are and
   sub-functions under their path with their own lines truncated to what is left.
   */
  lemma {:induction false} TruncateEntrywise(lines: seq<LogLine>, n: nat, i: nat)
    ensures i < |Truncate(lines, n)| <==> i < |lines| && Len(lines[..i]) < n
    ensures i < |Truncate(lines, n)| ==> TruncatedEntry(lines[i], Truncate(lines, n)[i], n - Len(lines[..i]))
    decreases |lines|
  {
    if lines != [] && n > 0 {
      var (kept, left) := TruncateLine(lines[0], n);
      if i == 0 {
        assert lines[..0] == [];
      } else {
        TruncateEntrywise(lines[1..], left, i - 1);
        LineLenTruncated(lines[0], n);
        if i < |lines| {
          LenOfPrefix(lines, i);
        }
      }
    }
  }

  /** Truncating to more lines than there are changes nothing. */
  lemma {:induction false} TruncateBeyondIsIdentity(lines: seq<LogLine>, n: nat)
    requires n > Len(lines)
    ensures Truncate(lines, n) == lines
    decreases lines, 1
  {
    if lines != [] {
      LenCons(lines[0], lines[1..]);
      assert lines == [lines[0]] + lines[1..];
      if lines[0].SubFunction? {
        TruncateBeyondIsIdentity(lines[0].lines, n);
      }
      TruncateBeyondIsIdentity(lines[1..], n - LineLen(lines[0]));
    }
  }

  // ----- Long developer messages -----

  /** Bytes of a character in UTF-8. */
  function Width(c: char): nat {
    if c as int < 0x80 then 1 else if c as int < 0x800 then 2 else if c as int < 0x10000 then 3 else 4
  }

  function ByteLen(s: string): nat {
    if s == [] then 0 else Width(s[0]) + ByteLen(s[1..])
  }

  function Join(messages: seq<string>): string {
    if messages == [] then ""
    else if |messages| == 1 then messages[0]
    else messages[0] + " " + Join(messages[1..])
  }

  /** Cuts at the last character boundary not beyond `max` bytes. */
  function FloorPrefix(s: string, max: nat): string {
    if s == [] || Width(s[0]) > max then [] else [s[0]] + FloorPrefix(s[1..], max - Width(s[0]))
  }

  /** The truncation loop; `None` is the panic when the space left is computed below zero. */
  function Cut(messages: seq<string>, used: nat): Option<seq<string>>
    decreases |messages|
  {
    if messages == [] then Some([])
    else if used > MAX_LOG_LINE_LENGTH then None
    else
      var remaining := MAX_LOG_LINE_LENGTH - used;
      if ByteLen(messages[0]) <= remaining then
        match Cut(messages[1..], used + ByteLen(messages[0]) + 1)
        case None => None
        case Some(rest) => Some([messages[0]] + rest)
      else
        Some([FloorPrefix(messages[0], remaining)])
  }

  datatype DeveloperLine = Line(messages: seq<string>, isTruncated: bool) | Panic

  /** Some proper prefix of the messages fills the limit to the byte. */
  ghost predicate FillsExactly(messages: seq<string>, space: int) {
    exists k :: 0 < k < |messages| && ByteLen(Join(messages[..k])) == space
  }

  method TotalLength(messages: seq<string>) returns (total: nat)
    ensures total == ByteLen(Join(messages))
  {
    total := 0;
    var i := 0;
    assert messages[0..] == messages;
    while i < |messages|
      invariant 0 <= i <= |messages|
      invariant total + SpacedLen(messages[i..]) == SpacedLen(messages)
    {
      assert messages[i..][1..] == messages[i + 1..];
      total := total + ByteLen(messages[i]) + 1;
      i := i + 1;
    }
    total := if total > 0 then total - 1 else 0;
    JoinLength(messages);
  }

  method CutMessages(messages: seq<string>) returns (r: Option<seq<string>>)
    ensures r == Cut(messages, 0)
  {
    var used: nat := 0;
    var truncated: seq<string> := [];
    var j := 0;
    assert messages[0..] == messages;
    PrependNothing(Cut(messages, 0));
    while j < |messages|
      invariant 0 <= j <= |messages|
      invariant Cut(messages, 0) == Prepend(truncated, Cut(messages[j..], used))
    {
      var message := messages[j];
      assert messages[j..][1..] == messages[j + 1..];
      if used > MAX_LOG_LINE_LENGTH {
        return None;
      }
      var remaining := MAX_LOG_LINE_LENGTH - used;
      if ByteLen(message) > remaining {
        return Some(truncated + [FloorPrefix(message, remaining)]);
      }
      PrependMore(truncated, message, Cut(messages[j + 1..], used + ByteLen(message) + 1));
      used := used + ByteLen(message) + 1;
      truncated := truncated + [message];
      j := j + 1;
    }
    assert truncated + [] == truncated;
    return Some(truncated);
  }

  lemma PrependNothing(rest: Option<seq<string>>)
    ensures Prepend([], rest) == rest
  {
    if rest.Some? {
      assert [] + rest.value == rest.value;
    }
  }

  lemma PrependMore(a: seq<string>, b: string, rest: Option<seq<string>>)
    ensures Prepend(a, Prepend([b], rest)) == Prepend(a + [b], rest)
  {
    if rest.Some? {
      assert a + ([b] + rest.value) == a + [b] + rest.value;
    }
  }

  /** Short lines pass unchanged; long ones panic or are cut, and say so. */
  method NewDeveloperLogLine(messages: seq<string>) returns (r: DeveloperLine)
    ensures r.Panic? <==> ByteLen(Join(messages)) > MAX_LOG_LINE_LENGTH && FillsExactly(messages, MAX_LOG_LINE_LENGTH)
    ensures ByteLen(Join(messages)) <= MAX_LOG_LINE_LENGTH ==> r == Line(messages, false)
    ensures ByteLen(Join(messages)) > MAX_LOG_LINE_LENGTH && r.Line? ==>
              r.isTruncated && Join(r.messages) == FloorPrefix(Join(messages), MAX_LOG_LINE_LENGTH)
    ensures r.Line? ==>
              && Encode(Join(r.messages)) <= Encode(Join(messages)) && |Encode(Join(r.messages))| <= 32768
              && (r.isTruncated <==> |Encode(Join(messages))| > 32768)
              && CutAt(messages, r.messages)
  {
    EncodeLength(Join(messages));
    CutInBytes(Join(messages), MAX_LOG_LINE_LENGTH);
    var total := TotalLength(messages);
    if total <= MAX_LOG_LINE_LENGTH {
      return Line(messages, false);
    }
    CutIsLongestPrefix(messages, 0);
    var cut := CutMessages(messages);
    if cut.Some? {
      CutKeepsMessages(messages, 0);
    }
    match cut
    case None => r := Panic;
    case Some(truncated) => r := Line(truncated, true);
  }

  function Prepend(messages: seq<string>, rest: Option<seq<string>>): Option<seq<string>> {
    if rest.None? then None else Some(messages + rest.value)
  }

  function SpacedLen(messages: seq<string>): nat {
    if messages == [] then 0 else ByteLen(messages[0]) + 1 + SpacedLen(messages[1..])
  }

  lemma {:induction false} ByteLenConcat(a: string, b: string)
    ensures ByteLen(a + b) == ByteLen(a) + ByteLen(b)
  {
    if a == [] {
      assert a + b == b;
    } else {
      assert (a + b)[1..] == a[1..] + b;
      ByteLenConcat(a[1..], b);
    }
  }

  /** The sum the code takes is the byte length of the joined messages. */
  lemma {:induction false} JoinLength(messages: seq<string>)
    ensures ByteLen(Join(messages)) == if SpacedLen(messages) > 0 then SpacedLen(messages) - 1 else 0
  {
    if |messages| > 1 {
      JoinLength(messages[1..]);
      ByteLenConcat(messages[0] + " ", Join(messages[1..]));
      ByteLenConcat(messages[0], " ");
      assert ByteLen(" ") == 1;
    } else if |messages| == 1 {
      assert messages[1..] == [];
    }
  }

  /** The cut is the longest prefix that fits: a prefix of `k` characters fits exactly up to its length. */
  lemma {:induction false} FloorPrefixIsLongest(s: string, max: nat, k: nat)
    requires k <= |s|
    ensures FloorPrefix(s, max) <= s
    ensures ByteLen(s[..k]) <= max <==> k <= |FloorPrefix(s, max)|
  {
    if s != [] {
      if k > 0 {
        assert s[..k] == [s[0]] + s[1..][..k - 1];
        assert s[..k][1..] == s[1..][..k - 1];
      }
      if Width(s[0]) <= max {
        FloorPrefixIsLongest(s[1..], max - Width(s[0]), if k > 0 then k - 1 else 0);
      }
    }
  }

  /** The UTF-8 bytes of a character (section 3 of RFC 3629): six bits per byte, the lead byte tells how many. */
  function EncodeChar(c: char): ByteString {
    var x := c as int;
    var x1 := x / 0x40;
    var x2 := x1 / 0x40;
    var x3 := x2 / 0x40;
    if x < 0x80 then [x]
    else if x < 0x800 then [0xC0 + x1, 0x80 + x % 0x40]
    else if x < 0x10000 then [0xE0 + x2, 0x80 + x1 % 0x40, 0x80 + x % 0x40]
    else [0xF0 + x3, 0x80 + x2 % 0x40, 0x80 + x1 % 0x40, 0x80 + x % 0x40]
  }

  function Encode(s: string): ByteString {
    if s == [] then [] else EncodeChar(s[0]) + Encode(s[1..])
  }

  /** The code point of a character from its bytes, by the lead byte; missing bytes are given as zero. */
  function Code(b0: int, b1: int, b2: int, b3: int): int {
    if b0 < 0xC0 then b0
    else if b0 < 0xE0 then (b0 - 0xC0) * 0x40 + (b1 - 0x80)
    else if b0 < 0xF0 then ((b0 - 0xE0) * 0x40 + (b1 - 0x80)) * 0x40 + (b2 - 0x80)
    else (((b0 - 0xF0) * 0x40 + (b1 - 0x80)) * 0x40 + (b2 - 0x80)) * 0x40 + (b3 - 0x80)
  }

  /** A character reads back from its bytes. */
  lemma EncodedCharReadsBack(c: char)
    ensures var b := EncodeChar(c);
            && 1 <= |b| <= 4
            && Code(b[0], if |b| > 1 then b[1] else 0, if |b| > 2 then b[2] else 0, if |b| > 3 then b[3] else 0) == c as int
  {
  }

  /** `Width` and `ByteLen` are the lengths of the encodings. */
  lemma {:induction false} EncodeLength(s: string)
    ensures |Encode(s)| == ByteLen(s)
  {
    if s != [] {
      EncodeLength(s[1..]);
    }
  }

  lemma {:induction false} EncodePrefix(s: string, k: nat)
    requires k <= |s|
    ensures Encode(s[..k]) <= Encode(s)
  {
    if k > 0 {
      EncodePrefix(s[1..], k - 1);
      assert s[..k][1..] == s[1..][..k - 1];
    }
  }

  /** In bytes: the cut is a prefix of the encoded text within the limit, and one more character would exceed it. */
  lemma CutInBytes(s: string, max: nat)
    ensures var cut := FloorPrefix(s, max);
            && cut <= s && Encode(cut) <= Encode(s) && |Encode(cut)| <= max
            && (cut != s ==> |Encode(s[..|cut| + 1])| > max)
  {
    var cut := FloorPrefix(s, max);
    FloorPrefixIsLongest(s, max, 0);
    FloorPrefixIsLongest(s, max, |cut|);
    assert s[..|cut|] == cut;
    EncodePrefix(s, |cut|);
    EncodeLength(cut);
    if cut != s {
      FloorPrefixIsLongest(s, max, |cut| + 1);
      EncodeLength(s[..|cut| + 1]);
    }
  }

  lemma FloorPrefixFirst(c: char, s: string, max: nat)
    requires Width(c) <= max
    ensures FloorPrefix([c] + s, max) == [c] + FloorPrefix(s, max - Width(c))
  {
    assert ([c] + s)[1..] == s;
  }

  lemma {:induction false} FloorPrefixPastFirst(a: string, b: string, max: nat)
    requires ByteLen(a) <= max
    ensures FloorPrefix(a + b, max) == a + FloorPrefix(b, max - ByteLen(a))
  {
    if a == [] {
      assert a + b == b;
    } else {
      var c, rest := a[0], max - Width(a[0]);
      FloorPrefixPastFirst(a[1..], b, rest);
      FloorPrefixFirst(c, a[1..] + b, max);
      assert a == [c] + a[1..] && a + b == [c] + (a[1..] + b);
    }
  }

  lemma {:induction false} FloorPrefixWithinFirst(a: string, b: string, max: nat)
    requires ByteLen(a) > max
    ensures FloorPrefix(a + b, max) == FloorPrefix(a, max)
  {
    assert (a + b)[1..] == a[1..] + b;
    if Width(a[0]) <= max {
      FloorPrefixWithinFirst(a[1..], b, max - Width(a[0]));
    }
  }

  lemma JoinFirst(messages: seq<string>)
    requires |messages| > 1
    ensures ByteLen(Join(messages)) == ByteLen(messages[0]) + 1 + ByteLen(Join(messages[1..]))
  {
    ByteLenConcat(messages[0] + " ", Join(messages[1..]));
    ByteLenConcat(messages[0], " ");
    assert ByteLen(" ") == 1;
  }

  /** Whether a prefix fills the limit, seen from the second message on. */
  lemma FillsExactlyShifts(messages: seq<string>, space: nat)
    requires |messages| > 1
    ensures FillsExactly(messages, space) <==>
            ByteLen(messages[0]) == space || FillsExactly(messages[1..], space - ByteLen(messages[0]) - 1)
  {
    var rest := messages[1..];
    if FillsExactly(messages, space) {
      var k :| 0 < k < |messages| && ByteLen(Join(messages[..k])) == space;
      if k > 1 {
        JoinFirst(messages[..k]);
        assert messages[..k][1..] == rest[..k - 1];
      }
    }
    if ByteLen(messages[0]) == space {
      assert Join(messages[..1]) == messages[0];
    }
    if FillsExactly(rest, space - ByteLen(messages[0]) - 1) {
      var k :| 0 < k < |rest| && ByteLen(Join(rest[..k])) == space - ByteLen(messages[0]) - 1;
      JoinFirst(messages[..k + 1]);
      assert messages[..k + 1][1..] == rest[..k];
    }
  }

  /**
   On over-long input the loop panics exactly when a proper prefix of the messages fills the limit,
   and otherwise leaves messages whose join is the longest fitting prefix of the full join.
   */
  lemma {:induction false} CutIsLongestPrefix(messages: seq<string>, used: nat)
    requires messages != [] && used <= MAX_LOG_LINE_LENGTH
    requires used + ByteLen(Join(messages)) > MAX_LOG_LINE_LENGTH
    ensures Cut(messages, used).None? <==> FillsExactly(messages, MAX_LOG_LINE_LENGTH - used)
    ensures Cut(messages, used).Some? ==>
              && Cut(messages, used).value != []
              && Join(Cut(messages, used).value) == FloorPrefix(Join(messages), MAX_LOG_LINE_LENGTH - used)
    decreases |messages|
  {
    var remaining := MAX_LOG_LINE_LENGTH - used;
    var first, rest := messages[0], messages[1..];
    if |messages| > 1 {
      FillsExactlyShifts(messages, remaining);
      JoinFirst(messages);
    }
    if ByteLen(first) <= remaining {
      var used' := used + ByteLen(first) + 1;
      if used' <= MAX_LOG_LINE_LENGTH {
        CutIsLongestPrefix(rest, used');
        ByteLenConcat(first, " ");
        assert ByteLen(" ") == 1;
        FloorPrefixPastFirst(first + " ", Join(rest), remaining);
        var cut := Cut(rest, used');
        if cut.Some? {
          assert ([first] + cut.value)[1..] == cut.value;
        }
      }
    } else {
      CutWithinFirst(messages, remaining);
    }
  }

  lemma CutWithinFirst(messages: seq<string>, space: nat)
    requires messages != [] && ByteLen(messages[0]) > space
    ensures !FillsExactly(messages, space)
    ensures FloorPrefix(Join(messages), space) == FloorPrefix(messages[0], space)
  {
    forall k | 0 < k < |messages|
      ensures ByteLen(Join(messages[..k])) > space
    {
      if k > 1 {
        JoinFirst(messages[..k]);
      }
    }
    if |messages| > 1 {
      FloorPrefixWithinFirst(messages[0], " " + Join(messages[1..]), space);
      assert messages[0] + (" " + Join(messages[1..])) == Join(messages);
    }
  }

  /** All messages but the last are whole, and the last is the start of the one in its place. */
  ghost predicate CutAt(messages: seq<string>, kept: seq<string>) {
    && |kept| <= |messages|
    && (forall i :: 0 <= i < |kept| - 1 ==> kept[i] == messages[i])
    && (kept != [] ==> kept[|kept| - 1] <= messages[|kept| - 1])
  }

  /** The loop keeps messages apart: it returns whole messages and then the start of one more. */
  lemma {:induction false} CutKeepsMessages(messages: seq<string>, used: nat)
    requires Cut(messages, used).Some?
    ensures CutAt(messages, Cut(messages, used).value)
    ensures messages != [] ==> Cut(messages, used).value != []
    decreases |messages|
  {
    if messages != [] {
      var remaining := MAX_LOG_LINE_LENGTH - used;
      if ByteLen(messages[0]) <= remaining {
        CutKeepsMessages(messages[1..], used + ByteLen(messages[0]) + 1);
      } else {
        FloorPrefixIsLongest(messages[0], remaining, 0);
      }
    }
  }


  function Repeat(c: char, n: nat): string {
    if n == 0 then "" else [c] + Repeat(c, n - 1)
  }

  lemma {:induction false} RepeatLength(c: char, n: nat)
    requires Width(c) == 1
    ensures ByteLen(Repeat(c, n)) == n
  {
    if n > 0 {
      RepeatLength(c, n - 1);
      assert Repeat(c, n)[1..] == Repeat(c, n - 1);
    }
  }

  /** The panic is real: a first message of exactly the limit, followed by any other. */
  lemma FullFirstMessagePanics(second: string)
    ensures var messages := [Repeat('x', MAX_LOG_LINE_LENGTH), second];
            ByteLen(Join(messages)) > MAX_LOG_LINE_LENGTH && Cut(messages, 0) == None
  {
    var messages := [Repeat('x', MAX_LOG_LINE_LENGTH), second];
    RepeatLength('x', MAX_LOG_LINE_LENGTH);
    JoinFirst(messages);
    FillsExactlyShifts(messages, MAX_LOG_LINE_LENGTH);
    CutIsLongestPrefix(messages, 0);
  }
}
