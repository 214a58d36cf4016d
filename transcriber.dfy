/**
 * The SRT side of `core/transcriber.py`: reading a timestamp, formatting
 * one, finding the blocks of a subtitle file, writing segments back as a
 * file, and handing the segments to the lemma index.
 *
 * Times are whole milliseconds (the source uses float seconds).  The block
 * regular expression is written out as the matcher `MatchAt`, which takes
 * the same choices the expression's lazy and greedy parts take.
 */
module Transcriber {
  import opened Wrappers
  import opened Text
  import opened Models
  import opened Store
  import opened Lemmatizer
  import opened SubProcessor

  /** Milliseconds in a day: `timedelta.seconds` never reaches a day. */
  const MsPerDay := 86400000

  /** One segment of a transcript: its text and its start and end (ms). */
  datatype Segment = Segment(text: string, start: int, end: int)

  // ------------------------------------------------------------ timestamps

  /** `_srt_time_to_seconds`, in milliseconds: split at `:` into exactly
      three parts, split the last at `,` (read as a space) into exactly two
      words, and read all four as integers.  `None` is the `ValueError` a
      failed unpacking or `int` raises. */
  function SrtTimeToMs(s: string): Option<int> {
    ReadClock(Fields(s, ':'))
  }

  /** `hours, minutes, seconds_milliseconds = ...` and the second split. */
  function ReadClock(parts: seq<string>): Option<int> {
    if |parts| != 3 then None else ReadFields(parts[0], parts[1], Words(Replace(parts[2], ',', ' ')))
  }

  /** `seconds, milliseconds = ...` and the four `int` calls. */
  function ReadFields(hours: string, minutes: string, secMs: seq<string>): Option<int> {
    if |secMs| != 2 then None else Combine(IntOf(hours), IntOf(minutes), IntOf(secMs[0]), IntOf(secMs[1]))
  }

  function Combine(h: Option<int>, m: Option<int>, sec: Option<int>, ms: Option<int>): Option<int> {
    if h.Some? && m.Some? && sec.Some? && ms.Some? then Some(ClockMs(h.value, m.value, sec.value, ms.value))
    else None
  }

  /** Hours, minutes, seconds and milliseconds as milliseconds. */
  function ClockMs(h: int, m: int, s: int, ms: int): int {
    h * 3600000 + m * 60000 + s * 1000 + ms
  }

  /** A timestamp as the block expression's `\d{2}:\d{2}:\d{2},\d{3}` accepts it. */
  predicate IsTimestamp(t: string) {
    && |t| == 12 && t[2] == ':' && t[5] == ':' && t[8] == ','
    && IsDigit(t[0]) && IsDigit(t[1]) && IsDigit(t[3]) && IsDigit(t[4])
    && IsDigit(t[6]) && IsDigit(t[7]) && IsDigit(t[9]) && IsDigit(t[10]) && IsDigit(t[11])
  }

  /** A digit string holds no space and neither separator. */
  lemma {:induction false} DigitPiece(c: string)
    requires AllDigits(c)
    ensures NoSpace(c) && ':' !in c && ',' !in c
  {
    assert forall i :: 0 <= i < |c| ==> IsDigit(c[i]);
  }

  lemma {:induction false} ReplaceComma(c: string, d: string)
    requires ',' !in c && ',' !in d
    ensures Replace(c + [','] + d, ',', ' ') == c + [' '] + d
  {
    var s, r := c + [','] + d, c + [' '] + d;
    forall i | 0 <= i < |s|
      ensures Replace(s, ',', ' ')[i] == r[i]
    {
      if i < |c| {
        assert s[i] == c[i] && r[i] == c[i];
      } else if i > |c| {
        assert s[i] == d[i - |c| - 1] && r[i] == d[i - |c| - 1];
      }
    }
  }

  /** The two splits of `HH:MM:SS,mmm` cut out the four fields. */
  lemma {:induction false} ClockPieces(a: string, b: string, c: string, d: string)
    requires a != [] && b != [] && c != [] && d != []
    requires AllDigits(a) && AllDigits(b) && AllDigits(c) && AllDigits(d)
    ensures Fields(a + ":" + b + ":" + c + "," + d, ':') == [a, b, c + [','] + d]
    ensures Words(Replace(c + [','] + d, ',', ' ')) == [c, d]
  {
    ClockSplit(a, b, c, d);
    DigitPiece(c);
    DigitPiece(d);
    ReplaceComma(c, d);
    WordsOfPair(c, d);
  }

  lemma {:induction false} ClockSplit(a: string, b: string, c: string, d: string)
    requires AllDigits(a) && AllDigits(b) && AllDigits(c) && AllDigits(d)
    ensures Fields(a + ":" + b + ":" + c + "," + d, ':') == [a, b, c + [','] + d]
  {
    var secMs := c + [','] + d;
    var tail := b + [':'] + secMs;
    assert a + ":" + b + ":" + c + "," + d == a + [':'] + tail by {
      AppendAssoc(a + ":" + b + ":", c, "," + d);
    }
    assert Fields(a + [':'] + tail, ':') == [a] + Fields(tail, ':') by {
      DigitPiece(a);
      FieldsCons(a, ':', tail);
    }
    assert Fields(tail, ':') == [b, secMs] by {
      DigitPiece(b);
      ColonFree(c, d);
      FieldsCons(b, ':', secMs);
      FieldsNone(secMs, ':');
    }
  }

  lemma {:induction false} ColonFree(c: string, d: string)
    requires AllDigits(c) && AllDigits(d)
    ensures ':' !in c + [','] + d
  {
    var secMs := c + [','] + d;
    assert forall i :: 0 <= i < |secMs| ==> secMs[i] == ',' || IsDigit(secMs[i]);
  }

  /** `HH:MM:SS,mmm` reads as HH * 3600000 + MM * 60000 + SS * 1000 + mmm. */
  lemma {:induction false} ClockValue(a: string, b: string, c: string, d: string)
    requires a != [] && b != [] && c != [] && d != []
    requires AllDigits(a) && AllDigits(b) && AllDigits(c) && AllDigits(d)
    ensures SrtTimeToMs(a + ":" + b + ":" + c + "," + d)
         == Some(ClockMs(DigitsValue(a), DigitsValue(b), DigitsValue(c), DigitsValue(d)))
  {
    ClockPieces(a, b, c, d);
    IntOfDigits(a);
    IntOfDigits(b);
    IntOfDigits(c);
    IntOfDigits(d);
    var t := a + ":" + b + ":" + c + "," + d;
    assert SrtTimeToMs(t) == ReadClock([a, b, c + [','] + d]);
    assert ReadClock([a, b, c + [','] + d]) == ReadFields(a, b, [c, d]);
  }

  /** A well-formed timestamp is its four digit fields and separators. */
  lemma {:induction false} TimestampSplit(t: string)
    requires IsTimestamp(t)
    ensures t == t[0..2] + ":" + t[3..5] + ":" + t[6..8] + "," + t[9..12]
    ensures AllDigits(t[0..2]) && AllDigits(t[3..5]) && AllDigits(t[6..8]) && AllDigits(t[9..12])
  {
  }

  /** A well-formed timestamp reads as HH * 3600000 + MM * 60000 + SS * 1000 + mmm. */
  lemma {:induction false} TimestampValue(t: string)
    requires IsTimestamp(t)
    ensures SrtTimeToMs(t) == Some(ClockMs(DigitsValue(t[0..2]), DigitsValue(t[3..5]), DigitsValue(t[6..8]), DigitsValue(t[9..12])))
  {
    TimestampSplit(t);
    ClockValue(t[0..2], t[3..5], t[6..8], t[9..12]);
  }

  /** `_format_timestamp`, in milliseconds: the time within its day (Python's
      `timedelta` keeps the days apart, and floor division keeps the rest
      non-negative) as zero-padded hours, minutes, seconds and milliseconds. */
  function FormatTimestamp(ms: int): string {
    var secs := (ms % MsPerDay) / 1000;
    ZeroPad(secs / 3600, 2) + ":" + ZeroPad(secs / 60 % 60, 2) + ":" + ZeroPad(secs % 60, 2)
      + "," + ZeroPad(ms % 1000, 3)
  }

  /** The clock fields of a time of day add back up to it. */
  lemma {:induction false} ClockFields(ms: int)
    ensures var day, secs := ms % MsPerDay, (ms % MsPerDay) / 1000;
      && secs / 3600 < 24 && secs / 60 % 60 < 60 && secs % 60 < 60 && ms % 1000 < 1000
      && ClockMs(secs / 3600, secs / 60 % 60, secs % 60, ms % 1000) == day
  {
    var day := ms % MsPerDay;
    var secs := day / 1000;
    var h, r := secs / 3600, secs % 3600;
    assert secs == 3600 * h + r && 0 <= r < 3600;
    assert secs / 60 == 60 * h + r / 60;
    assert secs / 60 % 60 == r / 60;
    assert secs % 60 == r % 60;
    assert ms == MsPerDay * (ms / MsPerDay) + day;
    assert ms % 1000 == day % 1000;
  }

  /** Digit fields of the widths a timestamp has, joined by its separators,
      form a well-formed timestamp. */
  lemma {:induction false} FieldsTimestamp(hh: string, mm: string, ss: string, fff: string)
    requires |hh| == 2 && |mm| == 2 && |ss| == 2 && |fff| == 3
    requires AllDigits(hh) && AllDigits(mm) && AllDigits(ss) && AllDigits(fff)
    ensures IsTimestamp(hh + ":" + mm + ":" + ss + "," + fff)
  {
    var t := hh + ":" + mm + ":" + ss + "," + fff;
    assert t == [hh[0], hh[1], ':', mm[0], mm[1], ':', ss[0], ss[1], ',', fff[0], fff[1], fff[2]];
    assert IsDigit(hh[0]) && IsDigit(hh[1]) && IsDigit(mm[0]) && IsDigit(mm[1]);
    assert IsDigit(ss[0]) && IsDigit(ss[1]) && IsDigit(fff[0]) && IsDigit(fff[1]) && IsDigit(fff[2]);
  }

  /** Zero-padded clock fields form a well-formed timestamp that reads back
      as the time they give. */
  lemma {:induction false} PaddedClock(h: nat, m: nat, s: nat, f: nat)
    requires h < 100 && m < 100 && s < 100 && f < 1000
    ensures IsTimestamp(ZeroPad(h, 2) + ":" + ZeroPad(m, 2) + ":" + ZeroPad(s, 2) + "," + ZeroPad(f, 3))
    ensures SrtTimeToMs(ZeroPad(h, 2) + ":" + ZeroPad(m, 2) + ":" + ZeroPad(s, 2) + "," + ZeroPad(f, 3))
         == Some(ClockMs(h, m, s, f))
  {
    assert Pow10(2) == 100 && Pow10(3) == 1000 by {
      assert Pow10(1) == 10;
    }
    ZeroPadValue(h, 2);
    ZeroPadValue(m, 2);
    ZeroPadValue(s, 2);
    ZeroPadValue(f, 3);
    FieldsTimestamp(ZeroPad(h, 2), ZeroPad(m, 2), ZeroPad(s, 2), ZeroPad(f, 3));
    ClockValue(ZeroPad(h, 2), ZeroPad(m, 2), ZeroPad(s, 2), ZeroPad(f, 3));
  }

  /** What `_format_timestamp` writes is a well-formed timestamp, and reading
      it back gives the time modulo a day. */
  lemma {:induction false} FormatThenRead(ms: int)
    ensures IsTimestamp(FormatTimestamp(ms))
    ensures SrtTimeToMs(FormatTimestamp(ms)) == Some(ms % MsPerDay)
  {
    var secs := (ms % MsPerDay) / 1000;
    ClockFields(ms);
    PaddedClock(secs / 3600, secs / 60 % 60, secs % 60, ms % 1000);
  }

  // -------------------------------------------------------- reading a file

  /** A blank line (`\n\n`) starting at `q`. */
  predicate BlankLineAt(s: string, q: int) {
    0 <= q && q + 1 < |s| && s[q] == '\n' && s[q + 1] == '\n'
  }

  predicate NoBlankLine(s: string) {
    forall q :: 0 <= q < |s| ==> !BlankLineAt(s, q)
  }

  /** One piece of the head of the block expression,
      `(\d+)\s*?\n(timestamp)\s*?-->\s*?(timestamp)\s*?\n`.  Given what the
      next piece needs, each matches a prefix in one way only: a lazy space
      run followed by a digit or by `-->` must reach it, so it takes every
      space there is, while the one before the text stops at its first line
      break (the text group after it always matches, so nothing makes the
      engine try a longer run). */
  datatype Piece =
    | Number        // `\d+`
    | SpacesToBreak // `\s*?\n`, then a digit: the whole space run, ending in a line break
    | Stamp         // `\d{2}:\d{2}:\d{2},\d{3}`, a captured group
    | SpacesArrow   // `\s*?-->`
    | Spaces        // `\s*?`, then a digit: the whole space run
    | FirstBreak    // `\s*?\n`, then the text: up to the first line break

  /** The head of the block expression, piece by piece. */
  const HeadPattern: seq<Piece> := [Number, SpacesToBreak, Stamp, SpacesArrow, Spaces, Stamp, FirstBreak]

  /** How much of the front of `s` piece `p` takes, if it matches there. */
  function PieceAt(p: Piece, s: string): (r: Option<nat>)
    ensures r.Some? ==> r.value <= |s| && (p != Spaces ==> r.value > 0)
    ensures r.Some? && p == Stamp ==> r.value == 12 && IsTimestamp(s[..12])
  {
    match p
    case Number =>
      var d := DigitRun(s);
      if d == 0 then None else Some(d)
    case SpacesToBreak =>
      var w := SpaceRun(s);
      if w == 0 || s[w - 1] != '\n' then None else Some(w)
    case Stamp =>
      if |s| < 12 || !IsTimestamp(s[..12]) then None else Some(12)
    case SpacesArrow =>
      var w := SpaceRun(s);
      if |s| < w + 3 || s[w..w + 3] != "-->" then None else Some(w + 3)
    case Spaces =>
      Some(SpaceRun(s))
    case FirstBreak =>
      var w := SpaceRun(s);
      var k := Find(s[..w], '\n');
      if k == w then None else Some(k + 1)
  }

  /** What pieces `ps`, one after another, capture at the front of `s` and
      how much they take. */
  datatype Scan = Scan(captures: seq<string>, length: nat)

  /** How many groups pieces `ps` capture. */
  function Captures(ps: seq<Piece>): nat {
    if ps == [] then 0 else (if ps[0] == Stamp then 1 else 0) + Captures(ps[1..])
  }

  function PiecesAt(ps: seq<Piece>, s: string): (r: Option<Scan>)
    ensures r.Some? ==> r.value.length <= |s| && |r.value.captures| == Captures(ps)
    ensures r.Some? ==> forall i :: 0 <= i < |r.value.captures| ==> IsTimestamp(r.value.captures[i])
    ensures r.Some? && ps != [] && ps[0] != Spaces ==> r.value.length > 0
  {
    if ps == [] then Some(Scan([], 0))
    else
      match PieceAt(ps[0], s)
      case None => None
      case Some(k) =>
        match PiecesAt(ps[1..], s[k..])
        case None => None
        case Some(m) => Some(Scan((if ps[0] == Stamp then [s[..k]] else []) + m.captures, k + m.length))
  }

  /** Where a block's two timestamps are and where its text starts. */
  datatype Head = Head(startTime: string, endTime: string, textAt: nat)

  /** The head of the block expression matched at the front of `s`. */
  function HeadAt(s: string): (r: Option<Head>)
    ensures r.Some? ==> 0 < r.value.textAt <= |s| && IsTimestamp(r.value.startTime) && IsTimestamp(r.value.endTime)
  {
    assert Captures(HeadPattern) == 2;
    match PiecesAt(HeadPattern, s)
    case None => None
    case Some(m) => Some(Head(m.captures[0], m.captures[1], m.length))
  }

  /** Where the lazy text group `([\s\S]*?)(?=\n\n|\Z)` stops: the first blank
      line at or after `from`, or the end of the content. */
  function TextEnd(s: string, from: nat): (q: nat)
    requires from <= |s|
    ensures from <= q <= |s| && (q == |s| || BlankLineAt(s, q))
    ensures forall j :: from <= j < q ==> !BlankLineAt(s, j)
    decreases |s| - from
  {
    if from == |s| || BlankLineAt(s, from) then from else TextEnd(s, from + 1)
  }

  /** The groups of one match: the two timestamps and the text. */
  datatype Groups = Groups(startTime: string, endTime: string, text: string)

  /** Both timestamps of `g` have the shape the expression demands. */
  predicate Readable(g: Groups) {
    IsTimestamp(g.startTime) && IsTimestamp(g.endTime)
  }

  /** A match: its groups and how much of the content it takes. */
  datatype Match = Match(groups: Groups, length: nat)

  /** The block expression matched at the front of `s`. */
  function MatchAt(s: string): (r: Option<Match>)
    ensures r.Some? ==> 0 < r.value.length <= |s| && Readable(r.value.groups)
  {
    match HeadAt(s)
    case None => None
    case Some(h) =>
      var q := TextEnd(s, h.textAt);
      Some(Match(Groups(h.startTime, h.endTime, s[h.textAt..q]), q))
  }

  /** What `finditer` yields over `s`, in order: where the expression matches,
      its groups, and the search goes on after the match; elsewhere the search
      moves on by one character. */
  function FindIter(s: string): (r: seq<Groups>)
    ensures forall i :: 0 <= i < |r| ==> Readable(r[i])
    decreases |s|
  {
    if s == [] then []
    else
      match MatchAt(s)
      case Some(m) => [m.groups] + FindIter(s[m.length..])
      case None => FindIter(s[1..])
  }

  /** The segment the loop body builds from one match: both timestamps read
      with `_srt_time_to_seconds`, the text stripped. */
  function SegmentOf(g: Groups): Segment
    requires Readable(g)
  {
    TimestampValue(g.startTime);
    TimestampValue(g.endTime);
    Segment(Strip(g.text), SrtTimeToMs(g.startTime).value, SrtTimeToMs(g.endTime).value)
  }

  /** The segments built from the matches `gs`, in order. */
  function SegmentsOf(gs: seq<Groups>): (r: seq<Segment>)
    requires forall i :: 0 <= i < |gs| ==> Readable(gs[i])
    ensures |r| == |gs| && forall i :: 0 <= i < |gs| ==> r[i] == SegmentOf(gs[i])
  {
    seq(|gs|, i requires 0 <= i < |gs| => SegmentOf(gs[i]))
  }

  /** `parse_srt_file`: `None` for a missing file (the source exits);
      otherwise one segment per match in the stripped content, in order.
      `file` is the decoded file; the text-mode `open` translates its
      newlines (`ReadText`) before anything else sees it. */
  method ParseSrtFile(file: Option<string>) returns (r: Option<seq<Segment>>)
    ensures file.None? ==> r.None?
    ensures file.Some? ==> r == Some(SegmentsOf(FindIter(Strip(ReadText(file.value)))))
  {
    if file.None? {
      return None;
    }
    var content := Strip(ReadText(file.value));
    var segments := SegmentsLoop(FindIter(content));
    return Some(segments);
  }

  /** The loop of `parse_srt_file` over the matches: one segment per match,
      appended in order. */
  method SegmentsLoop(found: seq<Groups>) returns (segments: seq<Segment>)
    requires forall i :: 0 <= i < |found| ==> Readable(found[i])
    ensures segments == SegmentsOf(found)
  {
    segments := [];
    for i := 0 to |found|
      invariant segments == SegmentsOf(found[..i])
    {
      segments := segments + [SegmentOf(found[i])];
    }
    assert found[..|found|] == found;
  }

  // -------------------------------------------------------- writing a file

  /** The four fields of one block of the file the writer emits: its number,
      its two times and its text. */
  datatype SrtBlock = SrtBlock(number: nat, start: int, end: int, text: string)

  /** The first two lines of a block: its number and its timestamps. */
  function HeadLines(b: SrtBlock): string {
    NatToString(b.number) + "\n" + FormatTimestamp(b.start) + " --> " + FormatTimestamp(b.end) + "\n"
  }

  /** One block as written: number, timestamps, text, then a blank line. */
  function Render(b: SrtBlock): string {
    HeadLines(b) + b.text + "\n\n"
  }

  /** The fields the writer fills in for segment `seg` as block `n`; the text
      is left-stripped. */
  function BlockOf(n: nat, seg: Segment): SrtBlock {
    SrtBlock(n, seg.start, seg.end, LStrip(seg.text))
  }

  /** The blocks for `segs`, numbered from `first`. */
  function BlocksOf(segs: seq<Segment>, first: nat): (r: seq<SrtBlock>)
    ensures |r| == |segs|
  {
    if segs == [] then []
    else BlocksOf(segs[..|segs| - 1], first) + [BlockOf(first + |segs| - 1, segs[|segs| - 1])]
  }

  /** `f` of each of `xs`, one after another. */
  function Join<T>(xs: seq<T>, f: T -> string): string {
    if xs == [] then [] else f(xs[0]) + Join(xs[1..], f)
  }

  /** The file the writer produces for `segs`, numbering from `first`. */
  function SrtText(segs: seq<Segment>, first: nat): string {
    Join(BlocksOf(segs, first), Render)
  }

  lemma {:induction false} JoinSnoc<T>(xs: seq<T>, x: T, f: T -> string)
    ensures Join(xs + [x], f) == Join(xs, f) + f(x)
  {
    if xs == [] {
      assert [x][1..] == [];
    } else {
      assert (xs + [x])[1..] == xs[1..] + [x];
      JoinSnoc(xs[1..], x, f);
    }
  }

  /** Writing one more segment appends its block. */
  lemma {:induction false} SrtTextSnoc(segs: seq<Segment>, i: nat, b: SrtBlock)
    requires i < |segs| && b == BlockOf(i + 1, segs[i])
    ensures SrtText(segs[..i + 1], 1) == SrtText(segs[..i], 1) + Render(b)
  {
    assert segs[..i + 1][..i] == segs[..i];
    JoinSnoc(BlocksOf(segs[..i], 1), b, Render);
  }

  /** The writer loop: block `i + 1` for segment `i`, in order. */
  method WriteSrt(segs: seq<Segment>) returns (out: string)
    ensures out == SrtText(segs, 1)
  {
    out := [];
    for i := 0 to |segs|
      invariant out == SrtText(segs[..i], 1)
    {
      var b := BlockOf(i + 1, segs[i]);
      SrtTextSnoc(segs, i, b);
      out := out + Render(b);
    }
    assert segs[..|segs|] == segs;
  }

  // ------------------------------------------------ reading the file back

  /** Pieces matched one after another. */
  lemma {:induction false} PiecesStep(ps: seq<Piece>, s: string, k: nat, m: Scan)
    requires ps != [] && PieceAt(ps[0], s) == Some(k) && PiecesAt(ps[1..], s[k..]) == Some(m)
    ensures PiecesAt(ps, s) == Some(Scan((if ps[0] == Stamp then [s[..k]] else []) + m.captures, k + m.length))
  {
  }

  /** The line break after the written timestamps ends the head at once. */
  lemma {:induction false} FirstBreakOfBlock(rest: string)
    ensures PiecesAt([FirstBreak], "\n" + rest) == Some(Scan([], 1))
  {
    var s := "\n" + rest;
    var w := SpaceRun(s);
    assert s[..w][0] == '\n';
    assert PieceAt(FirstBreak, s) == Some(1);
    PiecesStep([FirstBreak], s, 1, Scan([], 0));
  }

  lemma {:induction false} EndStampOfBlock(t2: string, rest: string)
    requires IsTimestamp(t2)
    ensures PiecesAt([Stamp, FirstBreak], t2 + "\n" + rest) == Some(Scan([t2], 13))
  {
    var s := t2 + ("\n" + rest);
    assert s == t2 + "\n" + rest;
    assert s[..12] == t2 && s[12..] == "\n" + rest;
    FirstBreakOfBlock(rest);
    assert [Stamp, FirstBreak][1..] == [FirstBreak];
    assert [s[..12]] + [] == [t2];
    PiecesStep([Stamp, FirstBreak], s, 12, Scan([], 1));
  }

  lemma {:induction false} SpacesOfBlock(t2: string, rest: string)
    requires IsTimestamp(t2)
    ensures PiecesAt([Spaces, Stamp, FirstBreak], " " + t2 + "\n" + rest) == Some(Scan([t2], 14))
  {
    var r := t2 + "\n" + rest;
    var s := " " + r;
    assert s == " " + t2 + "\n" + rest;
    assert r[0] == t2[0];
    SpaceRunOf(" ", r);
    assert s[1..] == r;
    EndStampOfBlock(t2, rest);
    assert [Spaces, Stamp, FirstBreak][1..] == [Stamp, FirstBreak];
    assert [] + [t2] == [t2];
    PiecesStep([Spaces, Stamp, FirstBreak], s, 1, Scan([t2], 13));
  }

  lemma {:induction false} ArrowOfBlock(t2: string, rest: string)
    requires IsTimestamp(t2)
    ensures PiecesAt([SpacesArrow, Spaces, Stamp, FirstBreak], " --> " + t2 + "\n" + rest) == Some(Scan([t2], 18))
  {
    var r := " " + t2 + "\n" + rest;
    var s := " --> " + t2 + "\n" + rest;
    assert s[4..] == r by {
      assert s == " -->" + r;
    }
    ArrowPiece(s);
    SpacesOfBlock(t2, rest);
    assert [SpacesArrow, Spaces, Stamp, FirstBreak][1..] == [Spaces, Stamp, FirstBreak];
    assert [] + [t2] == [t2];
    PiecesStep([SpacesArrow, Spaces, Stamp, FirstBreak], s, 4, Scan([t2], 14));
  }

  /** A space then the arrow: the arrow piece takes four characters. */
  lemma {:induction false} ArrowPiece(s: string)
    requires |s| >= 4 && s[0] == ' ' && s[1] == '-' && s[2] == '-' && s[3] == '>'
    ensures PieceAt(SpacesArrow, s) == Some(4)
  {
    assert s[1..][0] == '-';
    assert SpaceRun(s[1..]) == 0;
    assert SpaceRun(s) == 1;
    assert s[1..4] == "-->";
  }

  lemma {:induction false} TimesOfBlock(t1: string, t2: string, rest: string)
    requires IsTimestamp(t1) && IsTimestamp(t2)
    ensures PiecesAt(HeadPattern[2..], t1 + " --> " + t2 + "\n" + rest) == Some(Scan([t1, t2], 30))
  {
    var r := " --> " + t2 + "\n" + rest;
    var s := t1 + r;
    assert s == t1 + " --> " + t2 + "\n" + rest;
    assert s[..12] == t1 && s[12..] == r;
    ArrowOfBlock(t2, rest);
    assert HeadPattern[2..][1..] == [SpacesArrow, Spaces, Stamp, FirstBreak];
    assert [s[..12]] + [t2] == [t1, t2];
    PiecesStep(HeadPattern[2..], s, 12, Scan([t2], 18));
  }

  lemma {:induction false} BreakOfBlock(r: string)
    requires |r| >= 30 && PiecesAt(HeadPattern[2..], r).Some? && IsDigit(r[0])
    ensures PiecesAt(HeadPattern[1..], "\n" + r) == Some(Scan(PiecesAt(HeadPattern[2..], r).value.captures, 1 + PiecesAt(HeadPattern[2..], r).value.length))
  {
    var s := "\n" + r;
    SpaceRunOf("\n", r);
    assert s[1..] == r;
    assert HeadPattern[1..][1..] == HeadPattern[2..];
    assert [] + PiecesAt(HeadPattern[2..], r).value.captures == PiecesAt(HeadPattern[2..], r).value.captures;
    PiecesStep(HeadPattern[1..], s, 1, PiecesAt(HeadPattern[2..], r).value);
  }

  /** The head of a written block is matched whatever follows its last line
      break, and the text starts right after that line break. */
  lemma {:induction false} HeadOfBlock(num: string, t1: string, t2: string, rest: string)
    requires num != [] && AllDigits(num) && IsTimestamp(t1) && IsTimestamp(t2)
    ensures HeadAt(num + "\n" + t1 + " --> " + t2 + "\n" + rest) == Some(Head(t1, t2, |num| + 31))
  {
    var r := t1 + " --> " + t2 + "\n" + rest;
    var s := num + ("\n" + r);
    assert s == num + "\n" + t1 + " --> " + t2 + "\n" + rest;
    TimesOfBlock(t1, t2, rest);
    assert r[0] == t1[0];
    BreakOfBlock(r);
    DigitRunOf(num, "\n" + r);
    assert s[|num|..] == "\n" + r;
    assert HeadPattern[0] == Number;
    assert [] + [t1, t2] == [t1, t2];
    PiecesStep(HeadPattern, s, |num|, Scan([t1, t2], 31));
  }

  /** What the text group captures of a written text followed by a blank
      line: all of it, less a final line break that starts the blank line. */
  function TextGroup(body: string): string {
    if body != [] && body[|body| - 1] == '\n' then body[..|body| - 1] else body
  }

  /** The lazy text group stops at the blank line after a written text. */
  lemma {:induction false} TextEndOfBody(s: string, from: nat, body: string, rest: string)
    requires from <= |s| && s[from..] == body + "\n\n" + rest && NoBlankLine(body)
    ensures TextEnd(s, from) == from + |TextGroup(body)|
  {
    var q0 := from + |TextGroup(body)|;
    var n := |body|;
    assert forall j :: 0 <= j < n ==> s[from + j] == body[j] by {
      forall j | 0 <= j < n ensures s[from + j] == body[j] {
        assert s[from..][j] == s[from + j];
      }
    }
    assert s[from + n] == '\n' && s[from + n + 1] == '\n' by {
      assert s[from..][n] == s[from + n] && s[from..][n + 1] == s[from + n + 1];
    }
    assert BlankLineAt(s, q0);
    forall j | from <= j < q0
      ensures !BlankLineAt(s, j)
    {
      if j + 1 < from + n {
        assert !BlankLineAt(body, j - from);
      }
    }
    var q := TextEnd(s, from);
    assert !(q < q0) && !(q0 < q);
  }

  /** Without a blank line, the text of the last block runs to the end. */
  lemma {:induction false} TextEndOfLast(s: string, from: nat)
    requires from <= |s| && NoBlankLine(s[from..])
    ensures TextEnd(s, from) == |s|
  {
    forall j | from <= j < |s|
      ensures !BlankLineAt(s, j)
    {
      if j + 1 < |s| {
        assert s[from..][j - from] == s[j] && s[from..][j + 1 - from] == s[j + 1];
        assert !BlankLineAt(s[from..], j - from);
      }
    }
  }

  /** The text group of a written text followed by a blank line. */
  lemma {:induction false} TextOfBody(s: string, from: nat, body: string, rest: string)
    requires from <= |s| && s[from..] == body + "\n\n" + rest
    ensures from + |TextGroup(body)| <= |s| && s[from..from + |TextGroup(body)|] == TextGroup(body)
  {
    var g := TextGroup(body);
    assert g == body[..|g|];
    assert s[from..][..|g|] == g;
  }

  /** After a matched head, the text group runs up to the blank line after
      a written text. */
  lemma {:induction false} MatchOfText(s: string, h: Head, body: string, rest: string)
    requires HeadAt(s) == Some(h) && s[h.textAt..] == body + "\n\n" + rest && NoBlankLine(body)
    ensures MatchAt(s) == Some(Match(Groups(h.startTime, h.endTime, TextGroup(body)), h.textAt + |TextGroup(body)|))
  {
    var g := TextGroup(body);
    var q := h.textAt + |g|;
    assert q <= |s| && TextEnd(s, h.textAt) == q && s[h.textAt..q] == g by {
      TextOfBlank(s, h.textAt, body, rest);
    }
    assert MatchAt(s) == Some(Match(Groups(h.startTime, h.endTime, g), q)) by {
      MatchOfHeadEnd(s, h, q, g);
    }
  }

  /** Where the text group of a written text ends, and what it holds. */
  lemma {:induction false} TextOfBlank(s: string, from: nat, body: string, rest: string)
    requires from <= |s| && s[from..] == body + "\n\n" + rest && NoBlankLine(body)
    ensures from + |TextGroup(body)| <= |s| && TextEnd(s, from) == from + |TextGroup(body)|
    ensures s[from..from + |TextGroup(body)|] == TextGroup(body)
  {
    TextEndOfBody(s, from, body, rest);
    TextOfBody(s, from, body, rest);
  }

  /** A matched head and where its text group ends make the match. */
  lemma {:induction false} MatchOfHeadEnd(s: string, h: Head, q: nat, g: string)
    requires HeadAt(s) == Some(h) && h.textAt <= q <= |s| && TextEnd(s, h.textAt) == q && s[h.textAt..q] == g
    ensures MatchAt(s) == Some(Match(Groups(h.startTime, h.endTime, g), q))
  {
  }

  /** A match never starts at a line break. */
  lemma {:induction false} FindIterBreak(s: string)
    requires s != [] && s[0] == '\n'
    ensures FindIter(s) == FindIter(s[1..])
  {
    assert DigitRun(s) == 0;
  }

  /** Nor does one start in the blank line that ends a written block. */
  lemma {:induction false} FindIterBlank(tail: string, rest: string)
    requires |tail| >= 2 && tail[0] == '\n' && tail[1] == '\n' && tail[2..] == rest
    ensures FindIter(tail) == FindIter(rest)
  {
    FindIterBreak(tail);
    FindIterBreak(tail[1..]);
    assert tail[1..][1..] == tail[2..];
  }

  /** What follows the text group of a written text: the line breaks that
      end it, then the rest. */
  lemma {:induction false} AfterText(s: string, from: nat, body: string, rest: string)
    requires from <= |s| && s[from..] == body + "\n\n" + rest
    ensures var n, e := from + |TextGroup(body)|, from + |body|;
      e + 2 <= |s| && s[e] == '\n' && s[e + 1] == '\n' && s[e + 2..] == rest
      && (n == e || (n + 1 == e && s[n] == '\n'))
  {
    var e := from + |body|;
    assert s[from..][|body|] == s[e] && s[from..][|body| + 1] == s[e + 1];
    assert s[e + 2..] == s[from..][|body| + 2..];
    if TextGroup(body) != body {
      assert s[from..][|body| - 1] == s[e - 1];
    }
  }

  /** The search goes on after the text group with what follows the blank
      line. */
  lemma {:induction false} FindIterAfterText(s: string, n: nat, e: nat, rest: string)
    requires e + 2 <= |s| && s[e] == '\n' && s[e + 1] == '\n' && s[e + 2..] == rest
    requires n == e || (n + 1 == e && s[n] == '\n')
    ensures FindIter(s[n..]) == FindIter(rest)
  {
    assert s[e..][2..] == rest;
    FindIterBlank(s[e..], rest);
    if n < e {
      FindIterBreak(s[n..]);
      assert s[n..][1..] == s[e..];
    }
  }

  /** After a match the search resumes at its end. */
  lemma {:induction false} FindIterFound(s: string, m: Match)
    requires MatchAt(s) == Some(m)
    ensures FindIter(s) == [m.groups] + FindIter(s[m.length..])
  {
  }

  /** After a match that ends in front of the line breaks closing a
      written block, the search goes on with what follows them. */
  lemma {:induction false} FindIterOfText(s: string, m: Match, e: nat, rest: string)
    requires MatchAt(s) == Some(m)
    requires e + 2 <= |s| && s[e] == '\n' && s[e + 1] == '\n' && s[e + 2..] == rest
    requires m.length == e || (m.length + 1 == e && s[m.length] == '\n')
    ensures FindIter(s) == [m.groups] + FindIter(rest)
  {
    FindIterFound(s, m);
    FindIterAfterText(s, m.length, e, rest);
  }

  /** After a written block the search goes on with what follows it. */
  lemma {:induction false} FindIterOfBlock(num: string, t1: string, t2: string, body: string, rest: string)
    requires num != [] && AllDigits(num) && IsTimestamp(t1) && IsTimestamp(t2) && NoBlankLine(body)
    ensures FindIter(num + "\n" + t1 + " --> " + t2 + "\n" + body + "\n\n" + rest)
      == [Groups(t1, t2, TextGroup(body))] + FindIter(rest)
  {
    var after := body + "\n\n" + rest;
    var s := num + "\n" + t1 + " --> " + t2 + "\n" + after;
    assert s == num + "\n" + t1 + " --> " + t2 + "\n" + body + "\n\n" + rest;
    HeadOfBlock(num, t1, t2, after);
    var h := Head(t1, t2, |num| + 31);
    assert s[h.textAt..] == after;
    MatchOfText(s, h, body, rest);
    AfterText(s, h.textAt, body, rest);
    FindIterOfText(s, Match(Groups(t1, t2, TextGroup(body)), h.textAt + |TextGroup(body)|), h.textAt + |body|, rest);
  }

  /** The text of the last block, without a blank line after it, runs to the
      end of the content. */
  lemma {:induction false} FindIterOfLast(num: string, t1: string, t2: string, txt: string)
    requires num != [] && AllDigits(num) && IsTimestamp(t1) && IsTimestamp(t2) && NoBlankLine(txt)
    ensures FindIter(num + "\n" + t1 + " --> " + t2 + "\n" + txt) == [Groups(t1, t2, txt)]
  {
    var s := num + "\n" + t1 + " --> " + t2 + "\n" + txt;
    HeadOfBlock(num, t1, t2, txt);
    var h := Head(t1, t2, |num| + 31);
    assert s[h.textAt..] == txt;
    TextEndOfLast(s, h.textAt);
    MatchOfHeadEnd(s, h, |s|, txt);
    FindIterFound(s, Match(Groups(t1, t2, txt), |s|));
    assert s[|s|..] == [];
  }

  // ------------------------------------------------ writing, then reading

  /** The groups the block expression finds in a block as written, when more
      blocks follow it. */
  function WrittenGroups(b: SrtBlock): Groups {
    Groups(FormatTimestamp(b.start), FormatTimestamp(b.end), TextGroup(b.text))
  }

  function AllWrittenGroups(bs: seq<SrtBlock>): (r: seq<Groups>)
    ensures |r| == |bs|
  {
    if bs == [] then [] else [WrittenGroups(bs[0])] + AllWrittenGroups(bs[1..])
  }

  lemma {:induction false} AllWrittenGroupsAt(bs: seq<SrtBlock>, i: nat)
    requires i < |bs|
    ensures AllWrittenGroups(bs)[i] == WrittenGroups(bs[i])
  {
    if i > 0 {
      AllWrittenGroupsAt(bs[1..], i - 1);
      ConsAt(WrittenGroups(bs[0]), AllWrittenGroups(bs[1..]), i);
      ConsAt(bs[0], bs[1..], i);
    }
  }

  lemma {:induction false} ConsAt<T>(x: T, xs: seq<T>, i: nat)
    requires 0 < i <= |xs|
    ensures ([x] + xs)[i] == xs[i - 1]
  {
  }

  /** A rendered block, followed by anything, is found as one match. */
  lemma {:induction false} FindIterOfRendered(b: SrtBlock, rest: string)
    requires NoBlankLine(b.text)
    ensures FindIter(Render(b) + rest) == [WrittenGroups(b)] + FindIter(rest)
  {
    var num, t1, t2 := NatToString(b.number), FormatTimestamp(b.start), FormatTimestamp(b.end);
    FormatThenRead(b.start);
    FormatThenRead(b.end);
    assert Render(b) + rest == num + "\n" + t1 + " --> " + t2 + "\n" + b.text + "\n\n" + rest;
    FindIterOfBlock(num, t1, t2, b.text, rest);
  }

  /** The first rendered block is found as one match, then the search goes
      on with the rest. */
  lemma {:induction false} FindIterOfJoinStep(bs: seq<SrtBlock>, rest: string)
    requires bs != [] && NoBlankLine(bs[0].text)
    ensures FindIter(Join(bs, Render) + rest) == [WrittenGroups(bs[0])] + FindIter(Join(bs[1..], Render) + rest)
  {
    var tail := Join(bs[1..], Render) + rest;
    assert Join(bs, Render) + rest == Render(bs[0]) + tail;
    FindIterOfRendered(bs[0], tail);
  }

  lemma {:induction false} ConsAppend<T>(x: T, a: seq<T>, b: seq<T>)
    ensures [x] + (a + b) == [x] + a + b
  {
  }

  /** Rendered blocks, followed by anything, are found one match each, in
      order. */
  lemma {:induction false} FindIterOfJoin(bs: seq<SrtBlock>, rest: string)
    requires forall i :: 0 <= i < |bs| ==> NoBlankLine(bs[i].text)
    ensures FindIter(Join(bs, Render) + rest) == AllWrittenGroups(bs) + FindIter(rest)
  {
    if bs == [] {
      assert Join(bs, Render) + rest == rest;
    } else {
      FindIterOfJoinStep(bs, rest);
      FindIterOfJoin(bs[1..], rest);
      var g, gs := WrittenGroups(bs[0]), AllWrittenGroups(bs[1..]);
      assert AllWrittenGroups(bs) == [g] + gs;
      ConsAppend(g, gs, FindIter(rest));
    }
  }

  lemma {:induction false} AppendAssoc<T>(a: seq<T>, b: seq<T>, c: seq<T>)
    ensures a + (b + c) == a + b + c
  {
  }

  /** A rendered block starts with the digits of its number. */
  lemma {:induction false} RenderStartsWithDigit(b: SrtBlock, rest: string)
    ensures Render(b) + rest != [] && IsDigit((Render(b) + rest)[0])
  {
    var num := NatToString(b.number);
    assert HeadLines(b)[0] == num[0];
    assert Render(b)[0] == num[0];
  }

  lemma {:induction false} JoinLast<T>(xs: seq<T>, f: T -> string)
    requires xs != []
    ensures Join(xs, f) == Join(xs[..|xs| - 1], f) + f(xs[|xs| - 1])
  {
    assert xs == xs[..|xs| - 1] + [xs[|xs| - 1]];
    JoinSnoc(xs[..|xs| - 1], xs[|xs| - 1], f);
  }

  /** `rstrip()` of content ending in a block's text and its blank line. */
  lemma {:induction false} RStripOfLast(a: string, head: string, text: string)
    requires RStrip(text) != []
    ensures RStrip(a + (head + text + "\n\n")) == a + (head + RStrip(text))
  {
    AppendAssoc(a, head + text, "\n\n");
    AppendAssoc(a, head, text);
    RStripSpaces(a + head + text, "\n\n");
    RStripKeepsHead(a + head, text);
    AppendAssoc(a, head, RStrip(text));
  }

  /** Written content starts with a digit, so `lstrip()` keeps all of it. */
  lemma {:induction false} LStripOfJoin(bs: seq<SrtBlock>)
    requires bs != []
    ensures LStrip(Join(bs, Render)) == Join(bs, Render)
  {
    JoinFirst(bs, Render);
    RenderStartsWithDigit(bs[0], Join(bs[1..], Render));
    LStripOfDigit(Join(bs, Render));
  }

  lemma {:induction false} JoinFirst<T>(xs: seq<T>, f: T -> string)
    requires xs != []
    ensures Join(xs, f) == f(xs[0]) + Join(xs[1..], f)
  {
  }

  lemma {:induction false} LStripOfDigit(s: string)
    requires s != [] && IsDigit(s[0])
    ensures LStrip(s) == s
  {
  }

  /** The stripped content of a written file: every block as rendered, but
      the last one's text right-stripped and without the blank line. */
  lemma {:induction false} StripOfJoin(bs: seq<SrtBlock>)
    requires bs != [] && RStrip(bs[|bs| - 1].text) != []
    ensures var last := bs[|bs| - 1];
      Strip(Join(bs, Render)) == Join(bs[..|bs| - 1], Render) + (HeadLines(last) + RStrip(last.text))
  {
    var last := bs[|bs| - 1];
    LStripOfJoin(bs);
    JoinLast(bs, Render);
    RStripOfLast(Join(bs[..|bs| - 1], Render), HeadLines(last), last.text);
  }

  /** Dropping the line break in front of the blank line does not change the
      stripped text. */
  lemma {:induction false} StripOfTextGroup(t: string)
    ensures Strip(TextGroup(LStrip(t))) == Strip(t)
  {
    var u := LStrip(t);
    LStripFacts(t);
    if TextGroup(u) != u {
      var v := u[..|u| - 1];
      assert RStrip(u) == RStrip(v);
      if v != [] {
        assert v[0] == u[0];
      }
    }
  }

  /** Right-stripping the last text does not change the stripped text. */
  lemma {:induction false} StripOfRStripped(t: string)
    ensures Strip(RStrip(LStrip(t))) == Strip(t)
  {
    var u := LStrip(t);
    LStripFacts(t);
    RStripFacts(u);
    var r := RStrip(u);
    if r != [] {
      assert r[0] == u[0];
      assert LStrip(r) == r;
    }
  }

  /** A prefix of a text without a blank line has none either. */
  lemma {:induction false} NoBlankLinePrefix(s: string, k: nat)
    requires k <= |s| && NoBlankLine(s)
    ensures NoBlankLine(s[..k])
  {
    forall q | 0 <= q < k
      ensures !BlankLineAt(s[..k], q)
    {
      assert !BlankLineAt(s, q);
    }
  }

  lemma {:induction false} BlocksOfAt(segs: seq<Segment>, first: nat, i: nat)
    requires i < |segs|
    ensures BlocksOf(segs, first)[i] == BlockOf(first + i, segs[i])
    decreases |segs|
  {
    if i < |segs| - 1 {
      var init := segs[..|segs| - 1];
      assert init[i] == segs[i];
      BlocksOfAt(init, first, i);
    }
  }

  /** What reading a written segment back gives: its text stripped, its
      times modulo a day. */
  function ReadBack(seg: Segment): Segment {
    Segment(Strip(seg.text), seg.start % MsPerDay, seg.end % MsPerDay)
  }

  /** A file can be read back into the segments it was written from: no
      text holds a carriage return (text-mode reading would turn it into a
      line break), every text, left-stripped, holds no blank line, and the
      last one holds more than spaces. */
  predicate Rewritable(segs: seq<Segment>) {
    && (forall i :: 0 <= i < |segs| ==> '\r' !in segs[i].text)
    && (forall i :: 0 <= i < |segs| ==> NoBlankLine(LStrip(segs[i].text)))
    && (segs != [] ==> Strip(segs[|segs| - 1].text) != [])
  }

  /** A block written before others reads back as its segment. */
  lemma {:induction false} SegmentOfWritten(b: SrtBlock, n: nat, seg: Segment)
    requires b == BlockOf(n, seg)
    ensures Readable(WrittenGroups(b)) && SegmentOf(WrittenGroups(b)) == ReadBack(seg)
  {
    FormatThenRead(seg.start);
    FormatThenRead(seg.end);
    StripOfTextGroup(seg.text);
  }

  /** The last block written reads back as its segment. */
  lemma {:induction false} SegmentOfLast(b: SrtBlock, n: nat, seg: Segment)
    requires b == BlockOf(n, seg)
    ensures var g := Groups(FormatTimestamp(b.start), FormatTimestamp(b.end), RStrip(b.text));
      Readable(g) && SegmentOf(g) == ReadBack(seg)
  {
    FormatThenRead(seg.start);
    FormatThenRead(seg.end);
    StripOfRStripped(seg.text);
  }

  /** The groups of the last block as written. */
  function LastGroups(b: SrtBlock): Groups {
    Groups(FormatTimestamp(b.start), FormatTimestamp(b.end), RStrip(b.text))
  }

  /** What the block expression finds in a written file. */
  lemma {:induction false} FindIterOfWritten(segs: seq<Segment>)
    requires Rewritable(segs) && segs != []
    ensures var bs := BlocksOf(segs, 1);
      FindIter(Strip(SrtText(segs, 1))) == AllWrittenGroups(bs[..|bs| - 1]) + [LastGroups(bs[|bs| - 1])]
  {
    var bs := BlocksOf(segs, 1);
    var n := |bs|;
    var init, last := bs[..n - 1], bs[n - 1];
    var tail := HeadLines(last) + RStrip(last.text);
    WrittenBlocks(segs);
    FindIterOfJoin(init, tail);
    FindIterOfLastBlock(last);
  }

  /** The blocks of a written file have no blank line in their text, and
      stripping the file leaves the blocks before the last one followed by
      the last block without its trailing newlines. */
  lemma {:induction false} WrittenBlocks(segs: seq<Segment>)
    requires Rewritable(segs) && segs != []
    ensures var bs := BlocksOf(segs, 1);
      var last := bs[|bs| - 1];
      && (forall i :: 0 <= i < |bs| ==> NoBlankLine(bs[i].text))
      && Strip(SrtText(segs, 1)) == Join(bs[..|bs| - 1], Render) + (HeadLines(last) + RStrip(last.text))
  {
    var bs := BlocksOf(segs, 1);
    forall i | 0 <= i < |bs|
      ensures NoBlankLine(bs[i].text)
    {
      BlocksOfAt(segs, 1, i);
    }
    BlocksOfAt(segs, 1, |bs| - 1);
    StripOfJoin(bs);
  }

  /** The last block, as it stands in the stripped content, is one match. */
  lemma {:induction false} FindIterOfLastBlock(b: SrtBlock)
    requires NoBlankLine(b.text)
    ensures FindIter(HeadLines(b) + RStrip(b.text)) == [LastGroups(b)]
  {
    var txt := RStrip(b.text);
    RStripFacts(b.text);
    NoBlankLinePrefix(b.text, |txt|);
    FormatThenRead(b.start);
    FormatThenRead(b.end);
    FindIterOfLast(NatToString(b.number), FormatTimestamp(b.start), FormatTimestamp(b.end), txt);
  }

  /** A file written from texts without a carriage return holds none: the
      numbers and timestamps are digits and punctuation, and each text is a
      suffix of a segment's text. */
  lemma {:induction false} NoReturnWritten(segs: seq<Segment>, first: nat)
    requires forall i :: 0 <= i < |segs| ==> '\r' !in segs[i].text
    ensures '\r' !in SrtText(segs, first)
  {
    var bs := BlocksOf(segs, first);
    forall i | 0 <= i < |bs|
      ensures '\r' !in Render(bs[i])
    {
      BlocksOfAt(segs, first, i);
      var t := segs[i].text;
      LStripFacts(t);
      assert '\r' !in LStrip(t) by {
        forall k | 0 <= k < |LStrip(t)|
          ensures LStrip(t)[k] != '\r'
        {
          assert LStrip(t)[k] == t[|t| - |LStrip(t)| + k];
        }
      }
      NoReturnHead(bs[i]);
    }
    NoReturnJoin(bs);
  }

  /** The two head lines of a block hold no carriage return. */
  lemma NoReturnHead(b: SrtBlock)
    ensures '\r' !in HeadLines(b)
  {
    var n, t1, t2 := NatToString(b.number), FormatTimestamp(b.start), FormatTimestamp(b.end);
    NoReturnStamp(b.start);
    NoReturnStamp(b.end);
    assert '\r' !in n by {
      forall k | 0 <= k < |n|
        ensures n[k] != '\r'
      {
        assert IsDigit(n[k]);
      }
    }
    assert HeadLines(b) == n + "\n" + t1 + " --> " + t2 + "\n";
  }

  /** A formatted timestamp holds no carriage return. */
  lemma NoReturnStamp(ms: int)
    ensures '\r' !in FormatTimestamp(ms)
  {
    var secs := (ms % MsPerDay) / 1000;
    var h, m, s, f := ZeroPad(secs / 3600, 2), ZeroPad(secs / 60 % 60, 2), ZeroPad(secs % 60, 2), ZeroPad(ms % 1000, 3);
    assert forall k :: 0 <= k < |h| ==> IsDigit(h[k]);
    assert forall k :: 0 <= k < |m| ==> IsDigit(m[k]);
    assert forall k :: 0 <= k < |s| ==> IsDigit(s[k]);
    assert forall k :: 0 <= k < |f| ==> IsDigit(f[k]);
    assert FormatTimestamp(ms) == h + ":" + m + ":" + s + "," + f;
  }

  /** Blocks whose renderings hold no carriage return join into a file
      without one. */
  lemma {:induction false} NoReturnJoin(bs: seq<SrtBlock>)
    requires forall i :: 0 <= i < |bs| ==> '\r' !in Render(bs[i])
    ensures '\r' !in Join(bs, Render)
    decreases |bs|
  {
    if bs != [] {
      assert forall i :: 0 <= i < |bs| - 1 ==> bs[1..][i] == bs[i + 1];
      NoReturnJoin(bs[1..]);
    }
  }

  /** Reading back what `transcribe` writes gives, in order, one segment per
      segment written, with its text stripped and its times taken modulo a
      day. */
  lemma {:induction false} RoundTrip(segs: seq<Segment>)
    requires Rewritable(segs)
    ensures var found := FindIter(Strip(ReadText(SrtText(segs, 1))));
      |found| == |segs| && forall i :: 0 <= i < |segs| ==> SegmentOf(found[i]) == ReadBack(segs[i])
  {
    NoReturnWritten(segs, 1);
    ReadTextPlain(SrtText(segs, 1));
    var found := FindIter(Strip(SrtText(segs, 1)));
    if segs != [] {
      var bs := BlocksOf(segs, 1);
      var n := |bs|;
      FindIterOfWritten(segs);
      forall i | 0 <= i < n
        ensures SegmentOf(found[i]) == ReadBack(segs[i])
      {
        BlocksOfAt(segs, 1, i);
        if i < n - 1 {
          AllWrittenGroupsAt(bs[..n - 1], i);
          SegmentOfWritten(bs[i], 1 + i, segs[i]);
        } else {
          SegmentOfLast(bs[i], 1 + i, segs[i]);
        }
      }
    } else {
      assert Strip(SrtText(segs, 1)) == [];
    }
  }

  // ------------------------------------------------ feeding the lemma index

  /** The records `process_subtitle` buffers for `segs`: each text
      left-stripped, under episode `episode`. */
  function Records(segs: seq<Segment>, episode: int): (r: seq<Subtitle>)
    ensures |r| == |segs|
    ensures forall i :: 0 <= i < |segs| ==>
      r[i] == Subtitle(LStrip(segs[i].text), episode, segs[i].start, segs[i].end)
  {
    seq(|segs|, i requires 0 <= i < |segs| => Subtitle(LStrip(segs[i].text), episode, segs[i].start, segs[i].end))
  }

  /** The loop of `transcribe` that hands every segment, in order, to the
      module's processor through `process_subtitle`, then one
      `flush_batch`: the processor ends as though `process` had run on its
      earlier buffer followed by the records of `segs`. */
  method FeedSegments(proc: SubtitleProcessor, db: Database, nlp: string -> seq<Token>, rand: nat -> nat,
                      segs: seq<Segment>, episode: int)
      returns (r: Outcome<BatchError>, order: seq<string>)
    requires db.Valid()
    modifies proc, db
    ensures db.Valid()
    ensures var batch := old(proc.subtitlesData) + Records(segs, episode);
      old(proc.lemmaCache).None? && !old(db.tablesExist) ==>
        && r == Fail(Database(NoSuchTable)) && proc.lemmaCache == None
        && proc.subtitlesData == batch && db.Contents() == old(db.Contents())
    ensures var batch := old(proc.subtitlesData) + Records(segs, episode);
      (old(proc.lemmaCache).Some? || old(db.tablesExist)) && batch == [] ==>
        && r == Pass && proc.lemmaCache == Some(CacheBefore(old(proc.lemmaCache), old(db.lemmas)))
        && proc.subtitlesData == [] && db.Contents() == old(db.Contents())
    ensures var batch, cache0 := old(proc.subtitlesData) + Records(segs, episode), CacheBefore(old(proc.lemmaCache), old(db.lemmas));
      (old(proc.lemmaCache).Some? || old(db.tablesExist)) && batch != [] ==>
        && FlushArgs(batch, LemmaListsOf(batch, nlp), cache0, order)
        && proc.lemmaCache.Some? && proc.subtitlesData == []
        && Flushed(r, db.Contents(), proc.lemmaCache.value)
             == Flush(old(db.tablesExist), db.maxVariables, old(db.Contents()), batch, LemmaListsOf(batch, nlp), cache0, order, rand)
    ensures old(proc.Consistent(db)) ==> Indexed(db.Contents())
    ensures old(proc.Consistent(db)) && r.Pass? ==> proc.Consistent(db)
  {
    for i := 0 to |segs|
      invariant proc.subtitlesData == old(proc.subtitlesData) + Records(segs[..i], episode)
      invariant proc.lemmaCache == old(proc.lemmaCache)
      invariant db.Valid() && db.Contents() == old(db.Contents()) && db.tablesExist == old(db.tablesExist)
      invariant db.lemmas == old(db.lemmas)
      invariant old(proc.Consistent(db)) ==> proc.Consistent(db)
    {
      assert Records(segs[..i + 1], episode) == Records(segs[..i], episode) + [Records(segs, episode)[i]];
      proc.Add(LStrip(segs[i].text), episode, segs[i].start, segs[i].end);
    }
    assert segs[..|segs|] == segs;
    r, order := proc.Process(db, nlp, rand);
  }
}
