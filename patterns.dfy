/**
 * The console patterns of the line classifier (src/classes/RCEManager.ts, the
 * `handleWebsocketMessage` handler) written as `Regex` pieces, and the extractors that
 * turn a match into the fields the handler reads from its capture groups. A capture
 * group is the text between two top-level pieces of its pattern.
 */
module Patterns {
  import opened Text
  import opened Regex
  import opened KillInfo
  import opened Events
  import opened Numbers

  // ----- the log line -----

  /** `\d{2}\/\d{2}\/\d{4} \d{2}:\d{2}:\d{2}`, one piece per character. */
  function TimestampPieces(): (ps: seq<Piece>)
    ensures |ps| == 19 && forall k :: 0 <= k < 19 ==> SingleChar(ps[k])
  {
    [One(Digit), One(Digit), Lit("/"), One(Digit), One(Digit), Lit("/"),
     One(Digit), One(Digit), One(Digit), One(Digit), Lit(" "),
     One(Digit), One(Digit), Lit(":"), One(Digit), One(Digit), Lit(":"), One(Digit), One(Digit)]
  }

  /** `(\d{2}\/\d{2}\/\d{4} \d{2}:\d{2}:\d{2}):LOG:[^:]+: (.+)$` */
  function LogLinePattern(): (ps: seq<Piece>)
    ensures WellFormed(ps) && |ps| == 24
    ensures ps[..19] == TimestampPieces()
    ensures ps[22] == Many(InLine, true, false) && ps[23] == End
  {
    TimestampPieces() + [Lit(":LOG:"), Many(AllBut(':'), true, false), Lit(": "), Many(InLine, true, false), End]
  }

  /** `dd/dd/dddd dd:dd:dd`: each character is one the matching timestamp piece accepts. */
  predicate IsTimestamp(d: string)
  {
    |d| == 19 && forall j :: 0 <= j < 19 ==> CharFits(TimestampPieces()[j], d[j])
  }

  /** A console line split into its timestamp (group 1) and its content (group 2). */
  datatype LogLine = LogLine(date: string, content: string)

  /** The leftmost match of the log-line pattern: group 1 is the date, group 2 the content, and
      from the match's start the line reads the date, `:LOG:`, a colon-free tag, `: ` and the
      content up to its end. */
  function ParseLogLine(line: string): (r: Option<LogLine>)
    ensures r.Some? <==> exists q :: 0 <= q <= |line| && MatchesFrom(LogLinePattern(), line, q)
    ensures r.Some? ==> IsTimestamp(r.value.date)
    ensures r.Some? ==> r.value.content != [] && AllIn(InLine, r.value.content) && EndsWith(line, r.value.content)
    ensures r.Some? ==> exists i: nat, x :: FirstStart(LogLinePattern(), line, i) && Run(AllBut(':'), x)
                          && line[i..] == r.value.date + ":LOG:" + x + ": " + r.value.content
  {
    hide MatchAt, FirstStart, Group;
    match Leftmost(LogLinePattern(), line)
    case None => None
    case Some(m) =>
      LogLineFound(line, m);
      Some(LogLine(Group(line, m, 0, 19), Group(line, m, 22, 23)))
  }

  /** The groups of the leftmost log-line match, in the text the line reads from its start. */
  lemma LogLineFound(line: string, m: Match)
    requires Leftmost(LogLinePattern(), line) == Some(m)
    ensures |m.pos| == 25 && m.pos[0] <= m.pos[19] <= |line| && m.pos[22] <= m.pos[23] <= |line|
    ensures var date, c := Group(line, m, 0, 19), Group(line, m, 22, 23);
      && IsTimestamp(date) && c != [] && AllIn(InLine, c) && EndsWith(line, c)
      && exists i: nat, x :: FirstStart(LogLinePattern(), line, i) && Run(AllBut(':'), x)
           && line[i..] == date + ":LOG:" + x + ": " + c
  {
    hide MatchAt, Matches, Leftmost;
    LogLineGroups(line, m);
    var i, x := m.pos[0], Group(line, m, 20, 21);
    assert FirstStart(LogLinePattern(), line, i);
    hide FirstStart, LogLinePattern;
    assert Run(AllBut(':'), x) && line[i..] == Group(line, m, 0, 19) + ":LOG:" + x + ": " + Group(line, m, 22, 23);
  }

  /** A match of the log-line pattern: group 1 is a timestamp, group 2 a non-empty run of
      characters other than line terminators that ends the line, and the two, with the literal
      text and the tag between them, make up the rest of the line from the match's start. */
  lemma LogLineGroups(line: string, m: Match)
    requires |m.pos| > 0 && Positions(m.pos, |LogLinePattern()|, m.pos[0], line)
    requires Spans(LogLinePattern(), line, m.pos)
    ensures m.pos[0] <= m.pos[19] <= m.pos[20] <= m.pos[21] <= |line| && m.pos[22] <= m.pos[23] <= |line|
    ensures IsTimestamp(Group(line, m, 0, 19))
    ensures var c := Group(line, m, 22, 23); c != [] && AllIn(InLine, c) && EndsWith(line, c)
    ensures Run(AllBut(':'), Group(line, m, 20, 21))
    ensures line[m.pos[0]..] == Group(line, m, 0, 19) + ":LOG:" + Group(line, m, 20, 21) + ": " + Group(line, m, 22, 23)
  {
    var ps := LogLinePattern();
    var date := line[m.pos[0]..m.pos[19]];
    assert forall k :: 0 <= k < 19 ==> ps[k] == ps[..19][k];
    SingleCharRun(ps, line, m.pos, 0, 19);
    forall j | 0 <= j < 19 ensures CharFits(TimestampPieces()[j], date[j]) {
      assert date[j] == line[m.pos[j]];
      assert ps[j] == ps[..19][j];
    }
    LogLineTail(line, m);
  }

  /** After the timestamp, a log-line match reads `:LOG:`, a colon-free tag, `: ` and the
      content, which runs to the end of the line. */
  lemma LogLineTail(line: string, m: Match)
    requires |m.pos| > 0 && Positions(m.pos, |LogLinePattern()|, m.pos[0], line)
    requires Spans(LogLinePattern(), line, m.pos)
    ensures m.pos[0] <= m.pos[19] <= m.pos[20] <= m.pos[21] <= |line| && m.pos[22] <= m.pos[23] <= |line|
    ensures var c := Group(line, m, 22, 23); c != [] && AllIn(InLine, c) && EndsWith(line, c)
    ensures Run(AllBut(':'), Group(line, m, 20, 21))
    ensures line[m.pos[0]..] == Group(line, m, 0, 19) + ":LOG:" + Group(line, m, 20, 21) + ": " + Group(line, m, 22, 23)
  {
    var ps := LogLinePattern();
    assert PieceSpan(ps[20], line, m.pos[20], m.pos[21]);
    assert PieceSpan(ps[22], line, m.pos[22], m.pos[23]);
    assert PieceSpan(ps[23], line, m.pos[23], m.pos[24]);
    Shape4(ps, line, m.pos, 19);
    hide Spans, Positions, LogLinePattern;
    assert line[m.pos[0]..] == line[m.pos[0]..m.pos[19]] + line[m.pos[19]..m.pos[23]];
  }

  /** A non-empty run of characters of class `cc`: what a `cc+` group captures. */
  predicate Run(cc: CharClass, g: string)
  {
    g != [] && AllIn(cc, g)
  }

  // ----- population, RF and command echo -----

  /** `"(.*?)"`, used with the `g` flag. */
  function QuotedPattern(): (ps: seq<Piece>)
    ensures WellFormed(ps) && |ps| == 3
  {
    [Lit("\""), Many(InLine, false, true), Lit("\"")]
  }

  /** `.replace(/"/g, "")` */
  function RemoveQuotes(t: string): (r: string)
    ensures |r| <= |t| && '"' !in r
    ensures '"' !in t ==> r == t
  {
    if t == [] then []
    else if t[0] == '"' then RemoveQuotes(t[1..])
    else [t[0]] + RemoveQuotes(t[1..])
  }

  lemma {:induction false} RemoveQuotesAppend(a: string, b: string)
    ensures RemoveQuotes(a + b) == RemoveQuotes(a) + RemoveQuotes(b)
  {
    if a != [] {
      assert (a + b)[0] == a[0] && (a + b)[1..] == a[1..] + b;
      RemoveQuotesAppend(a[1..], b);
    } else {
      assert a + b == b;
    }
  }

  /** A match of `"(.*?)"` is a quote, a text on one line without a quote, and a quote: the
      lazy group stops at the first quote after the opening one. */
  lemma QuotedText(log: string, f: Found)
    requires f.start <= |log| && MatchAt(QuotedPattern(), log, f.start) == Some(f.m)
    ensures var p := f.m.pos; var g := log[p[1]..p[2]];
      && OccursAt(log, "\"" + g + "\"", f.start) && '"' !in g && AllIn(InLine, g)
      && f.m.End() == f.start + |g| + 2 && RemoveQuotes(log[f.start..f.m.End()]) == g
  {
    var ps, p := QuotedPattern(), f.m.pos;
    MatchSpans(ps, log, f.start);
    Shape3(ps, log, p, 0);
    var g := log[p[1]..p[2]];
    assert ps[1] == Many(InLine, false, true) && PieceSpan(ps[1], log, p[1], p[2]);
    assert AllIn(InLine, g);
    assert log[p[0]..p[1]] == "\"" && log[p[2]..p[3]] == "\"" by {
      assert PieceSpan(ps[0], log, p[0], p[1]) && PieceSpan(ps[2], log, p[2], p[3]);
    }
    QuoteFree(log, f);
    hide QuotedPattern, Spans, Positions, PieceSpan, MatchAt;
    assert log[f.start..f.m.End()] == "\"" + g + "\"";
    RemoveQuotesAppend("\"" + g, "\"");
    RemoveQuotesAppend("\"", g);
  }

  /** The lazy group of `"(.*?)"` holds no quote: at each of its positions the closing quote
      would have matched. */
  lemma QuoteFree(log: string, f: Found)
    requires f.start <= |log| && MatchAt(QuotedPattern(), log, f.start) == Some(f.m)
    ensures var p := f.m.pos; |p| == 4 && p[1] <= p[2] <= |log| && '"' !in log[p[1]..p[2]]
  {
    var ps, p := QuotedPattern(), f.m.pos;
    MatchSpans(ps, log, f.start);
    Shape3(ps, log, p, 0);
    LazyShortest(ps, log, f.start, 1, [Lit("\"")]);
    assert RunLow(log, p[1], false) == p[1];
    hide MatchAt, Spans, Positions;
    NoLitIn(log, '"', p[1], p[2]);
  }

  /** The texts of the matches with their quotes removed: the quote-free text each match
      encloses. */
  function Unquoted(log: string, fs: seq<Found>): (r: seq<string>)
    requires forall k :: 0 <= k < |fs| ==> fs[k].start <= |log| && MatchAt(QuotedPattern(), log, fs[k].start) == Some(fs[k].m)
    ensures |r| == |fs|
    ensures forall k :: 0 <= k < |r| ==>
      OccursAt(log, "\"" + r[k] + "\"", fs[k].start) && '"' !in r[k] && AllIn(InLine, r[k])
  {
    if fs == [] then []
    else
      var m := fs[0].m;
      assert MatchAt(QuotedPattern(), log, fs[0].start).value == m;
      QuotedText(log, fs[0]);
      [RemoveQuotes(log[fs[0].start..m.End()])] + Unquoted(log, fs[1..])
  }

  /** `log.match(/"(.*?)"/g)` with the quotes removed: `None` when there is no quoted token;
      otherwise the `k`-th token is the text the `k`-th successive match encloses in quotes. */
  function QuotedTokens(log: string): (r: Option<seq<string>>)
    ensures r.Some? <==> Matches(QuotedPattern(), log)
    ensures r.Some? ==> |r.value| > 0 && |r.value| == |MatchAll(QuotedPattern(), log, 0)|
    ensures r.Some? ==> forall k :: 0 <= k < |r.value| ==>
      && OccursAt(log, "\"" + r.value[k] + "\"", MatchAll(QuotedPattern(), log, 0)[k].start)
      && '"' !in r.value[k] && AllIn(InLine, r.value[k])
  {
    var ps := QuotedPattern();
    SearchLeftmost(ps, log);
    var fs := MatchAll(ps, log, 0);
    if fs == [] then None else Some(Unquoted(log, fs))
  }

  /** The player list of a population snapshot: the quoted tokens without the first one
      (the `"name"` column header); `None` when the line is not a snapshot. */
  function SnapshotPlayers(log: string): (r: Option<seq<string>>)
    ensures r.Some? <==> StartsWith(log, "<slot:\"name\">") && Matches(QuotedPattern(), log)
    ensures r.Some? ==> r.value == QuotedTokens(log).value[1..]
  {
    match QuotedTokens(log)
    case Some(tokens) => if StartsWith(log, "<slot:\"name\">") then Some(tokens[1..]) else None
    case None => None
  }

  /** One `[freq MHz] Position: (x, y, z), Range: r` entry of an RF listing. */
  datatype Broadcast = Broadcast(frequency: nat, coordinates: Coordinates, range: nat)

  /** `\[(\d+)\sMHz\]\sPosition:\s\(([-\d.]+),\s([-\d.]+),\s([-\d.]+)\),\sRange:\s(\d+)`, used with the `g` flag. */
  function RfPattern(): (ps: seq<Piece>)
    ensures WellFormed(ps) && |ps| == 20
    ensures forall k :: 0 <= k < 20 ==> ps[k] == RfPiece(k)
  {
    seq(20, k requires 0 <= k < 20 => RfPiece(k))
  }

  /** Piece `k` of the RF pattern. */
  function RfPiece(k: nat): (p: Piece)
    requires k < 20
    ensures !p.Alt?
  {
    if k == 0 then Lit("[")
    else if k == 1 || k == 19 then Many(Digit, true, false)
    else if k == 3 then Lit("MHz]")
    else if k == 5 then Lit("Position:")
    else if k == 7 then Lit("(")
    else if k == 8 || k == 11 || k == 14 then Many(SignedDecimalChar, true, false)
    else if k == 9 || k == 12 then Lit(",")
    else if k == 15 then Lit("),")
    else if k == 17 then Lit("Range:")
    else One(Space)
  }

  /** The text of one RF entry: frequency, coordinates and range with the seven white-space
      characters `sp` between its parts. */
  function RfEntryText(freq: string, xyz: Coordinates, range: string, sp: string): string
    requires |sp| == 7
  {
    "[" + freq + [sp[0]] + "MHz]" + [sp[1]] + "Position:" + [sp[2]] + "(" + xyz.x + "," + [sp[3]] + xyz.y + ","
    + [sp[4]] + xyz.z + ")," + [sp[5]] + "Range:" + [sp[6]] + range
  }

  /** Entry `b` is what an RF match at `start` reads: the frequency and the range are the
      values of its digit runs, the range run being the whole digit run there. */
  ghost predicate ReadsBroadcast(log: string, start: nat, b: Broadcast)
  {
    exists freq, range, sp :: |sp| == 7 && AllIn(Space, sp)
      && OccursMaximal(log, RfEntryText(freq, b.coordinates, range, sp), start, Digit)
      && Run(Digit, freq) && Run(Digit, range) && b.frequency == DigitsValue(freq) && b.range == DigitsValue(range)
      && Run(SignedDecimalChar, b.coordinates.x) && Run(SignedDecimalChar, b.coordinates.y)
      && Run(SignedDecimalChar, b.coordinates.z)
  }

  /** The requirements of the RF lemmas below: `p` are the positions of an RF match. */
  predicate RfSpans(log: string, p: seq<nat>)
  {
    |p| > 0 && Positions(p, 20, p[0], log) && Spans(RfPattern(), log, p)
  }

  /** The positions of an RF match in order. */
  lemma RfOrder(log: string, p: seq<nat>)
    requires RfSpans(log, p)
    ensures |p| == 21 && p[0] <= p[1] <= p[2] <= p[3] <= p[4] <= p[5] <= p[6] <= p[7] <= p[8] <= p[9] <= p[10]
      <= p[11] <= p[12] <= p[13] <= p[14] <= p[15] <= p[16] <= p[17] <= p[18] <= p[19] <= p[20] <= |log|
  {
    hide Spans;
    forall k | 0 <= k < 20 ensures p[k] <= p[k + 1] { }
  }

  /** The white-space character matched by the `One(Space)` piece at `k`. */
  lemma RfSpace(log: string, p: seq<nat>, k: nat)
    requires RfSpans(log, p) && k in {2, 4, 6, 10, 13, 16, 18}
    ensures p[k] < |log| && log[p[k]..p[k + 1]] == [log[p[k]]] && InClass(Space, log[p[k]])
  {
    hide RfPattern;
    assert PieceSpan(RfPattern()[k], log, p[k], p[k + 1]);
  }

  /** An entry text cut where the pieces of the RF pattern that begin with a literal start. */
  lemma RfEntryParts(f: string, xyz: Coordinates, rg: string, sp: string)
    requires |sp| == 7
    ensures RfEntryText(f, xyz, rg, sp)
      == ("[" + f) + [sp[0]] + ("MHz]" + [sp[1]]) + ("Position:" + [sp[2]] + "(" + xyz.x + "," + [sp[3]]) + xyz.y
         + ("," + [sp[4]]) + xyz.z + (")," + [sp[5]] + "Range:" + [sp[6]]) + rg
  {
  }

  /** A slice cut at nine inner points. */
  lemma Join9(s: string, a0: nat, a1: nat, a2: nat, a3: nat, a4: nat, a5: nat, a6: nat, a7: nat, a8: nat, a9: nat)
    requires a0 <= a1 <= a2 <= a3 <= a4 <= a5 <= a6 <= a7 <= a8 <= a9 <= |s|
    ensures s[a0..a9] == s[a0..a1] + s[a1..a2] + s[a2..a3] + s[a3..a4] + s[a4..a5] + s[a5..a6] + s[a6..a7]
      + s[a7..a8] + s[a8..a9]
  {
    SliceJoin(s, a0, a1, a2);
    SliceJoin(s, a0, a2, a3);
    SliceJoin(s, a0, a3, a4);
    SliceJoin(s, a0, a4, a5);
    SliceJoin(s, a0, a5, a6);
    SliceJoin(s, a0, a6, a7);
    SliceJoin(s, a0, a7, a8);
    SliceJoin(s, a0, a8, a9);
  }

  /** The stretches of an RF match up to the position label: the frequency in brackets
      and the unit, each followed by white space. */
  lemma RfHeadSegments(log: string, p: seq<nat>)
    requires RfSpans(log, p)
    ensures p[2] < |log| && p[4] < |log| && InClass(Space, log[p[2]]) && InClass(Space, log[p[4]])
    ensures log[p[0]..p[2]] == "[" + log[p[1]..p[2]]
    ensures log[p[2]..p[3]] == [log[p[2]]]
    ensures log[p[3]..p[5]] == "MHz]" + [log[p[4]]]
  {
    hide RfPattern;
    var ps := RfPattern();
    RfSpace(log, p, 2); RfSpace(log, p, 4);
    hide Spans, RfSpans;
    Shape2(ps, log, p, 0);
    Shape2(ps, log, p, 3);
  }

  /** The stretch of an RF match from the position label to the second coordinate. */
  lemma RfPositionSegment(log: string, p: seq<nat>)
    requires RfSpans(log, p)
    ensures p[6] < |log| && p[10] < |log| && InClass(Space, log[p[6]]) && InClass(Space, log[p[10]])
    ensures log[p[5]..p[11]] == "Position:" + [log[p[6]]] + "(" + log[p[8]..p[9]] + "," + [log[p[10]]]
  {
    hide RfPattern;
    var ps := RfPattern();
    RfSpace(log, p, 6); RfSpace(log, p, 10);
    hide Spans, RfSpans;
    Shape6(ps, log, p, 5);
  }

  /** The stretches of an RF match between the coordinates and before the range. */
  lemma RfTailSegments(log: string, p: seq<nat>)
    requires RfSpans(log, p)
    ensures p[13] < |log| && p[16] < |log| && p[18] < |log|
    ensures InClass(Space, log[p[13]]) && InClass(Space, log[p[16]]) && InClass(Space, log[p[18]])
    ensures log[p[12]..p[14]] == "," + [log[p[13]]]
    ensures log[p[15]..p[19]] == ")," + [log[p[16]]] + "Range:" + [log[p[18]]]
  {
    hide RfPattern;
    var ps := RfPattern();
    RfSpace(log, p, 13); RfSpace(log, p, 16); RfSpace(log, p, 18);
    hide Spans, RfSpans;
    Shape2(ps, log, p, 12);
    Shape4(ps, log, p, 15);
  }

  /** An RF match reads the entry text of its groups and its seven white-space characters. */
  lemma RfText(log: string, p: seq<nat>)
    requires RfSpans(log, p)
    ensures p[2] < |log| && p[4] < |log| && p[6] < |log| && p[10] < |log| && p[13] < |log| && p[16] < |log|
      && p[18] < |log|
    ensures var sp := [log[p[2]], log[p[4]], log[p[6]], log[p[10]], log[p[13]], log[p[16]], log[p[18]]];
      && AllIn(Space, sp)
      && log[p[0]..p[20]] == RfEntryText(log[p[1]..p[2]], Coordinates(log[p[8]..p[9]], log[p[11]..p[12]], log[p[14]..p[15]]),
                                         log[p[19]..p[20]], sp)
  {
    hide Positions, Spans, RfPattern, RfEntryText;
    RfHeadSegments(log, p);
    RfPositionSegment(log, p);
    RfTailSegments(log, p);
    RfOrder(log, p);
    hide RfSpans;
    var sp := [log[p[2]], log[p[4]], log[p[6]], log[p[10]], log[p[13]], log[p[16]], log[p[18]]];
    assert AllIn(Space, sp) by {
      hide InClass;
      assert forall k :: 0 <= k < 7 ==> InClass(Space, sp[k]);
    }
    var f, x, y, z, rg := log[p[1]..p[2]], log[p[8]..p[9]], log[p[11]..p[12]], log[p[14]..p[15]], log[p[19]..p[20]];
    RfEntryParts(f, Coordinates(x, y, z), rg, sp);
    Join9(log, p[0], p[2], p[3], p[5], p[11], p[12], p[14], p[15], p[19], p[20]);
  }

  /** The entry an RF match at `f.start` reads. */
  function ReadBroadcast(log: string, f: Found): (b: Broadcast)
    requires f.start <= |log| && MatchAt(RfPattern(), log, f.start) == Some(f.m)
    ensures ReadsBroadcast(log, f.start, b)
  {
    var ps, p := RfPattern(), f.m.pos;
    MatchSpans(ps, log, f.start);
    GreedyLast(ps, log, f.start);
    RfReads(log, p);
    Broadcast(DigitsValue(log[p[1]..p[2]]), Coordinates(log[p[8]..p[9]], log[p[11]..p[12]], log[p[14]..p[15]]),
              DigitsValue(log[p[19]..p[20]]))
  }

  /** The groups of an RF match that ends its range run are the frequency, the coordinates
      and the range of an entry text that the match reads whole. */
  lemma RfReads(log: string, p: seq<nat>)
    requires RfSpans(log, p) && (p[20] < |log| ==> !InClass(Digit, log[p[20]]))
    ensures p[0] <= p[1] <= p[2] <= p[8] <= p[9] <= p[11] <= p[12] <= p[14] <= p[15] <= p[19] <= p[20] <= |log|
    ensures var freq, range := log[p[1]..p[2]], log[p[19]..p[20]];
      && Run(Digit, freq) && Run(Digit, range)
      && ReadsBroadcast(log, p[0], Broadcast(DigitsValue(freq),
                          Coordinates(log[p[8]..p[9]], log[p[11]..p[12]], log[p[14]..p[15]]), DigitsValue(range)))
  {
    hide Spans, Positions, RfPattern, Run, AllIn, RfEntryText, ReadsBroadcast;
    RfText(log, p);
    RfRuns(log, p);
    RfOrder(log, p);
    hide RfSpans;
    var freq, range := log[p[1]..p[2]], log[p[19]..p[20]];
    var xyz := Coordinates(log[p[8]..p[9]], log[p[11]..p[12]], log[p[14]..p[15]]);
    var sp := [log[p[2]], log[p[4]], log[p[6]], log[p[10]], log[p[13]], log[p[16]], log[p[18]]];
    var t := RfEntryText(freq, xyz, range, sp);
    assert OccursMaximal(log, t, p[0], Digit) by {
      assert log[p[0]..p[20]] == t;
      assert p[0] + |t| == p[20];
    }
    ReadsEntry(log, p[0], freq, xyz, range, sp);
  }

  /** An entry text read whole, with runs of the right classes, reads the entry of its values. */
  lemma ReadsEntry(log: string, start: nat, freq: string, xyz: Coordinates, range: string, sp: string)
    requires |sp| == 7 && AllIn(Space, sp) && OccursMaximal(log, RfEntryText(freq, xyz, range, sp), start, Digit)
    requires Run(Digit, freq) && Run(Digit, range)
    requires Run(SignedDecimalChar, xyz.x) && Run(SignedDecimalChar, xyz.y) && Run(SignedDecimalChar, xyz.z)
    ensures ReadsBroadcast(log, start, Broadcast(DigitsValue(freq), xyz, DigitsValue(range)))
  {
  }

  /** The frequency, the coordinates and the range of an RF match are non-empty runs of their classes. */
  lemma RfRuns(log: string, p: seq<nat>)
    requires RfSpans(log, p)
    ensures p[0] <= p[1] <= p[2] <= p[8] <= p[9] <= p[11] <= p[12] <= p[14] <= p[15] <= p[19] <= p[20] <= |log|
    ensures Run(Digit, log[p[1]..p[2]]) && Run(Digit, log[p[19]..p[20]])
    ensures Run(SignedDecimalChar, log[p[8]..p[9]]) && Run(SignedDecimalChar, log[p[11]..p[12]])
      && Run(SignedDecimalChar, log[p[14]..p[15]])
  {
    hide RfPattern;
    var ps := RfPattern();
    assert PieceSpan(ps[1], log, p[1], p[2]) && PieceSpan(ps[8], log, p[8], p[9]);
    assert PieceSpan(ps[11], log, p[11], p[12]) && PieceSpan(ps[14], log, p[14], p[15]);
    assert PieceSpan(ps[19], log, p[19], p[20]);
  }

  function ToBroadcasts(log: string, fs: seq<Found>): (r: seq<Broadcast>)
    requires forall k :: 0 <= k < |fs| ==> fs[k].start <= |log| && MatchAt(RfPattern(), log, fs[k].start) == Some(fs[k].m)
    ensures |r| == |fs|
    ensures forall k :: 0 <= k < |r| ==> ReadsBroadcast(log, fs[k].start, r[k])
  {
    seq(|fs|, k requires 0 <= k < |fs| => ReadBroadcast(log, fs[k]))
  }

  /** Every RF entry of the line, in order: the `k`-th entry is what the `k`-th successive
      match reads; empty exactly when the line has none. */
  function Broadcasts(log: string): (r: seq<Broadcast>)
    ensures r == [] <==> !Matches(RfPattern(), log)
    ensures |r| == |MatchAll(RfPattern(), log, 0)|
    ensures forall k :: 0 <= k < |r| ==> ReadsBroadcast(log, MatchAll(RfPattern(), log, 0)[k].start, r[k])
  {
    var ps := RfPattern();
    SearchLeftmost(ps, log);
    ToBroadcasts(log, MatchAll(ps, log, 0))
  }

  /** `Executing console system command '([^']+)'` */
  function EchoPattern(): (ps: seq<Piece>)
    ensures WellFormed(ps) && |ps| == 3 && ps[1] == Many(AllBut('\''), true, false)
  {
    [Lit("Executing console system command '"), Many(AllBut('\''), true, false), Lit("'")]
  }

  /** The command an echo line reports. */
  function EchoCommand(log: string): (r: Option<string>)
    ensures r.Some? <==> Matches(EchoPattern(), log)
    ensures r.Some? ==> Run(AllBut('\''), r.value)
    ensures r.Some? ==>
      exists i :: FirstStart(EchoPattern(), log, i)
        && OccursAt(log, "Executing console system command '" + r.value + "'", i)
  {
    var ps := EchoPattern();
    match Leftmost(ps, log)
    case None => None
    case Some(m) =>
      Shape3(ps, log, m.pos, 0);
      Some(Capture(ps, log, m, 1))
  }

  // ----- the AioRpc error of a data frame -----

  /** `status\s*=\s*([^\n]+)\s+details\s*=\s*"([^"]+)"` */
  function AioRpcPattern(): (ps: seq<Piece>)
    ensures WellFormed(ps) && |ps| == 13 && ps[4] == Many(AllBut('\n'), true, false)
  {
    [Lit("status"), Many(Space, false, false), Lit("="), Many(Space, false, false), Many(AllBut('\n'), true, false),
     Many(Space, true, false), Lit("details"), Many(Space, false, false), Lit("="), Many(Space, false, false),
     Lit("\""), Many(AllBut('"'), true, false), Lit("\"")]
  }

  /** At the leftmost AioRpc match of `error` the text reads `status`, white space, `=`, white
      space and then the status group `status`, a run of characters other than a line break. */
  ghost predicate StatusAt(error: string, status: string)
  {
    exists i, a, b :: FirstStart(AioRpcPattern(), error, i) && AllIn(Space, a) && AllIn(Space, b)
      && OccursAt(error, "status" + a + "=" + b + status, i) && Run(AllBut('\n'), status)
  }

  /** The error reports the server unavailable: it matches the AioRpc pattern and its status
      group, trimmed, is `StatusCode.UNAVAILABLE`. */
  function Unavailable(error: string): (r: bool)
    ensures r ==> Matches(AioRpcPattern(), error)
    ensures r ==> exists status :: StatusAt(error, status) && Trim(status) == "StatusCode.UNAVAILABLE"
    ensures !r && Matches(AioRpcPattern(), error) ==>
      exists status :: StatusAt(error, status) && Trim(status) != "StatusCode.UNAVAILABLE"
  {
    hide Leftmost, MatchAt, Matches, FirstStart, StatusAt;
    var ps := AioRpcPattern();
    match Leftmost(ps, error)
    case None => false
    case Some(m) =>
      AioRpcFound(error, m);
      Trim(Capture(ps, error, m, 4)) == "StatusCode.UNAVAILABLE"
  }

  /** The status group of the leftmost match. */
  lemma AioRpcFound(error: string, m: Match)
    requires Leftmost(AioRpcPattern(), error) == Some(m)
    ensures |m.pos| > 0 && Positions(m.pos, 13, m.pos[0], error) && Spans(AioRpcPattern(), error, m.pos)
    ensures StatusAt(error, Capture(AioRpcPattern(), error, m, 4))
  {
    hide Leftmost, MatchAt, Matches;
    var ps, p := AioRpcPattern(), m.pos;
    AioRpcText(error, m);
    var status := Capture(ps, error, m, 4);
    assert Run(AllBut('\n'), status) by {
      assert PieceSpan(ps[4], error, p[4], p[5]);
    }
    hide Spans, Positions, FirstStart;
    StatusFound(error, p[0], error[p[1]..p[2]], error[p[3]..p[4]], status);
  }

  lemma StatusFound(error: string, i: nat, a: string, b: string, status: string)
    requires FirstStart(AioRpcPattern(), error, i) && AllIn(Space, a) && AllIn(Space, b)
    requires OccursAt(error, "status" + a + "=" + b + status, i) && Run(AllBut('\n'), status)
    ensures StatusAt(error, status)
  {
  }

  lemma AioRpcText(error: string, m: Match)
    requires |m.pos| > 0 && Positions(m.pos, 13, m.pos[0], error) && Spans(AioRpcPattern(), error, m.pos)
    ensures var p := m.pos;
      && AllIn(Space, error[p[1]..p[2]]) && AllIn(Space, error[p[3]..p[4]])
      && OccursAt(error, "status" + error[p[1]..p[2]] + "=" + error[p[3]..p[4]] + error[p[4]..p[5]], p[0])
  {
    var ps, p := AioRpcPattern(), m.pos;
    assert PieceSpan(ps[1], error, p[1], p[2]) && PieceSpan(ps[3], error, p[3], p[4]);
    Shape4(ps, error, p, 0);
    hide Spans;
    Consume(ps, error, p, 0, 4);
  }

  // ----- domain events -----

  /** `" was killed by "`: both sides, trimmed, through the kill-source lookup. */
  function KillEvent(log: string): (r: Option<Event>)
    ensures r.Some? <==> Contains(log, " was killed by ")
    ensures r.Some? ==>
      exists victim, killer :: IsFirstPart(log, " was killed by ", victim) && IsSecondPart(log, " was killed by ", killer)
        && r.value == PlayerKill(GetKillInformation(Some(Trim(victim))), GetKillInformation(Some(Trim(killer))))
  {
    var sep := " was killed by ";
    if Contains(log, sep) then
      Some(PlayerKill(GetKillInformation(Some(Trim(Before(log, sep)))),
                      GetKillInformation(Some(Trim(SecondPart(log, sep))))))
    else None
  }

  /** `\[VENDING MACHINE\] Player \[ ([^\]]+) \] changed name from \[ ([^\]]+) \] to \[ ([^\]]+) \]` */
  function VendingPattern(): (ps: seq<Piece>)
    ensures WellFormed(ps) && |ps| == 7
    ensures ps[1] == ps[3] == ps[5] == Many(AllBut(']'), true, false)
  {
    [Lit("[VENDING MACHINE] Player [ "), Many(AllBut(']'), true, false), Lit(" ] changed name from [ "),
     Many(AllBut(']'), true, false), Lit(" ] to [ "), Many(AllBut(']'), true, false), Lit(" ]")]
  }

  /** The vending machine rename: at the leftmost match the line reads the fixed text with the
      player, the old name and the new name in its three bracket-free gaps. */
  function VendingEvent(log: string): (r: Option<Event>)
    ensures r.Some? <==> Matches(VendingPattern(), log)
    ensures r.Some? ==> (r.value.VendingMachineName?
      && Run(AllBut(']'), r.value.ign) && Run(AllBut(']'), r.value.oldName) && Run(AllBut(']'), r.value.newName))
    ensures r.Some? ==> exists i :: FirstStart(VendingPattern(), log, i) && OccursAt(log,
      "[VENDING MACHINE] Player [ " + r.value.ign + " ] changed name from [ " + r.value.oldName + " ] to [ "
      + r.value.newName + " ]", i)
  {
    hide Leftmost, MatchAt, Matches, FirstStart, Capture;
    var ps := VendingPattern();
    match Leftmost(ps, log)
    case None => None
    case Some(m) =>
      VendingFound(log, m);
      Some(VendingMachineName(Capture(ps, log, m, 1), Capture(ps, log, m, 3), Capture(ps, log, m, 5)))
  }

  /** The three groups of the leftmost vending machine match, in the text it reads. */
  lemma VendingFound(log: string, m: Match)
    requires Leftmost(VendingPattern(), log) == Some(m)
    ensures |m.pos| > 0 && Positions(m.pos, 7, m.pos[0], log) && Spans(VendingPattern(), log, m.pos)
    ensures var ps := VendingPattern();
      var ign, oldName, newName := Capture(ps, log, m, 1), Capture(ps, log, m, 3), Capture(ps, log, m, 5);
      && Run(AllBut(']'), ign) && Run(AllBut(']'), oldName) && Run(AllBut(']'), newName)
      && exists i :: FirstStart(ps, log, i) && OccursAt(log,
           "[VENDING MACHINE] Player [ " + ign + " ] changed name from [ " + oldName + " ] to [ " + newName + " ]", i)
  {
    hide MatchAt, Matches, Leftmost;
    var ps, p := VendingPattern(), m.pos;
    Shape7(ps, log, p, 0);
    assert FirstStart(ps, log, p[0]);
  }

  /** `(\[CHAT (TEAM|SERVER|LOCAL)\]) ([\w\s\-_]+) : (.+)` */
  function QuickChatPattern(): (ps: seq<Piece>)
    ensures WellFormed(ps) && |ps| == 7
    ensures ps[4] == Many(WordSpaceDash, true, false) && ps[6] == Many(InLine, true, false)
  {
    var ps := [Lit("[CHAT "), Alt([[Lit("TEAM")], [Lit("SERVER")], [Lit("LOCAL")]]), Lit("]"), Lit(" "),
               Many(WordSpaceDash, true, false), Lit(" : "), Many(InLine, true, false)];
    assert forall j :: 0 <= j < |ps[1].options| ==> Plain(ps[1].options[j]);
    ps
  }

  /** The `quickChatTypes` table: the kind named by the bracketed prefix (group 1). */
  function ChatKindOf(prefix: string): ChatKind
  {
    if prefix == "[CHAT TEAM]" then TeamChat
    else if prefix == "[CHAT SERVER]" then ServerChat
    else LocalChat
  }

  /** The word a chat kind shows in its prefix. */
  function KindName(k: ChatKind): string
  {
    match k
    case TeamChat => "TEAM"
    case ServerChat => "SERVER"
    case LocalChat => "LOCAL"
  }

  /** A quick chat line reads the prefix of its kind, the player and the whole rest of the line. */
  function QuickChatEvent(log: string): (r: Option<Event>)
    ensures r.Some? <==> Matches(QuickChatPattern(), log)
    ensures r.Some? ==> r.value.QuickChat? && Run(WordSpaceDash, r.value.ign) && Run(InLine, r.value.message)
    ensures r.Some? ==>
      exists i :: FirstStart(QuickChatPattern(), log, i)
        && OccursMaximal(log, "[CHAT " + KindName(r.value.kind) + "]" + " " + r.value.ign + " : " + r.value.message, i,
                         InLine)
  {
    var ps := QuickChatPattern();
    match Leftmost(ps, log)
    case None => None
    case Some(m) =>
      QuickChatText(log, m);
      Some(QuickChat(ChatKindOf(Group(log, m, 0, 3)), Capture(ps, log, m, 4), Capture(ps, log, m, 6)))
  }

  /** A quick chat match: the bracketed prefix names the kind `ChatKindOf` reads from it. */
  lemma QuickChatText(log: string, m: Match)
    requires Leftmost(QuickChatPattern(), log) == Some(m)
    ensures var ps := QuickChatPattern(); var k := ChatKindOf(Group(log, m, 0, 3));
      OccursMaximal(log, "[CHAT " + KindName(k) + "]" + " " + Capture(ps, log, m, 4) + " : " + Capture(ps, log, m, 6),
                    m.pos[0], InLine)
  {
    hide FirstStart, Matches, MatchAt, Leftmost, QuickChatPattern, ChatKindOf, KindName, Spans;
    var ps, p := QuickChatPattern(), m.pos;
    assert p[7] < |log| ==> !InClass(InLine, log[p[7]]) by { GreedyLast(ps, log, p[0]); }
    QuickChatParts(log, p);
  }

  /** The text of a quick chat match: its prefix names a kind, then the player and the message. */
  lemma QuickChatParts(log: string, p: seq<nat>)
    requires |p| > 0 && Positions(p, 7, p[0], log) && Spans(QuickChatPattern(), log, p)
    ensures var k := ChatKindOf(log[p[0]..p[3]]);
      log[p[0]..p[7]] == "[CHAT " + KindName(k) + "]" + " " + log[p[4]..p[5]] + " : " + log[p[6]..p[7]]
  {
    var ps := QuickChatPattern();
    var alt := log[p[1]..p[2]];
    assert alt == "TEAM" || alt == "SERVER" || alt == "LOCAL" by {
      assert LiteralOptions(ps[1].options);
      assert PieceSpan(ps[1], log, p[1], p[2]);
    }
    assert ps[0] == Lit("[CHAT ") && ps[2] == Lit("]") && ps[3] == Lit(" ") && ps[5] == Lit(" : ");
    hide Spans, QuickChatPattern, ChatKindOf, KindName;
    var g4, g6 := log[p[4]..p[5]], log[p[6]..p[7]];
    assert log[p[0]..p[3]] == "[CHAT " + alt + "]" by {
      assert log[p[0]..p[1]] == "[CHAT " by { Consume(ps, log, p, 0, 0); assert log[p[0]..p[0]] == []; }
      Consume(ps, log, p, 0, 1);
      Consume(ps, log, p, 0, 2);
    }
    assert log[p[0]..p[7]] == "[CHAT " + alt + "]" + " " + g4 + " : " + g6 by {
      Consume(ps, log, p, 0, 3);
      Consume(ps, log, p, 0, 4);
      Consume(ps, log, p, 0, 5);
      Consume(ps, log, p, 0, 6);
    }
    KindOfPrefix(alt);
  }

  /** The kind `ChatKindOf` reads from a prefix shows the prefix's word again. */
  lemma KindOfPrefix(alt: string)
    requires alt == "TEAM" || alt == "SERVER" || alt == "LOCAL"
    ensures KindName(ChatKindOf("[CHAT " + alt + "]")) == alt
  {
    if alt == "TEAM" {
      assert "[CHAT " + alt + "]" == "[CHAT TEAM]";
    } else if alt == "SERVER" {
      assert "[CHAT " + alt + "]" == "[CHAT SERVER]";
    } else {
      assert "[CHAT " + alt + "]" == "[CHAT LOCAL]";
    }
  }

  /** Both suicide checks of the handler: the same event twice. */
  function SuicideEvents(log: string): (r: seq<Event>)
    ensures Contains(log, "was suicide by Suicide") ==> |r| == 2 && r[0] == r[1] && r[0].PlayerSuicide?
    ensures !Contains(log, "was suicide by Suicide") ==> r == []
    ensures Contains(log, "was suicide by Suicide") ==> IsFirstPart(log, " was suicide by Suicide", r[0].ign)
  {
    if Contains(log, "was suicide by Suicide") then
      var e := PlayerSuicide(Before(log, " was suicide by Suicide"));
      [e, e]
    else []
  }

  function RespawnEvent(log: string): (r: Option<Event>)
    ensures r.Some? <==> Contains(log, "has entered the game")
    ensures r.Some? ==> r.value.PlayerRespawned? && (r.value.platform == XBL <==> Contains(log, "[xboxone]"))
    ensures r.Some? ==> IsFirstPart(log, " [", r.value.ign)
  {
    if Contains(log, "has entered the game") then
      Some(PlayerRespawned(Before(log, " ["), if Contains(log, "[xboxone]") then XBL else PS))
    else None
  }

  /** `Successfully created zone \[([\w\d\s_-]+)\]` and `Successfully removed zone \[([\w\d\s_-]+)\]`. */
  function ZonePattern(verb: string): (ps: seq<Piece>)
    ensures WellFormed(ps) && |ps| == 3 && ps[1] == Many(WordSpaceDash, true, false)
  {
    [Lit("Successfully " + verb + " zone ["), Many(WordSpaceDash, true, false), Lit("]")]
  }

  /** A created and a removed zone are both reported as `CustomZoneAdded`, named by the
      bracketed group at the leftmost match. */
  function ZoneEvent(log: string, verb: string): (r: Option<Event>)
    ensures r.Some? <==> Matches(ZonePattern(verb), log)
    ensures r.Some? ==> r.value.CustomZoneAdded? && Run(WordSpaceDash, r.value.name)
    ensures r.Some? ==>
      exists i :: FirstStart(ZonePattern(verb), log, i)
        && OccursAt(log, "Successfully " + verb + " zone [" + r.value.name + "]", i)
  {
    var ps := ZonePattern(verb);
    match Leftmost(ps, log)
    case None => None
    case Some(m) =>
      Shape3(ps, log, m.pos, 0);
      Some(CustomZoneAdded(Capture(ps, log, m, 1)))
  }

  /** `\[?SERVER\]?\s*Added\s*\[([^\]]+)\](?::\[([^\]]+)\])?\s*(?:to\s*(?:Group\s*)?)?\[(\w+)\]` under the
      `i` flag. The optional `to\s*(?:Group\s*)?` is written as three options tried in order; the
      piece after it is `[`, which neither `G` nor white space can be, so at most one of the three
      options lets the rest match and the first match is the engine's. */
  function RolePattern(): (ps: seq<Piece>)
    ensures WellFormed(ps) && |ps| == 15
    ensures ps[7] == Many(AllBut(']'), true, false) && ps[13] == Many(Word, true, false)
  {
    var ps := [Alt([[Lit("[")], []]), LitNoCase("server"), Alt([[Lit("]")], []]), Many(Space, false, false),
               LitNoCase("added"), Many(Space, false, false), Lit("["), Many(AllBut(']'), true, false), Lit("]"),
               Alt([[Lit(":["), Many(AllBut(']'), true, false), Lit("]")], []]), Many(Space, false, false),
               Alt([[LitNoCase("to"), Many(Space, false, false), LitNoCase("group"), Many(Space, false, false)],
                    [LitNoCase("to"), Many(Space, false, false)], []]),
               Lit("["), Many(Word, true, false), Lit("]")];
    assert forall j :: 0 <= j < |ps[0].options| ==> Plain(ps[0].options[j]);
    assert forall j :: 0 <= j < |ps[2].options| ==> Plain(ps[2].options[j]);
    assert forall j :: 0 <= j < |ps[9].options| ==> Plain(ps[9].options[j]);
    assert forall j :: 0 <= j < |ps[11].options| ==> Plain(ps[11].options[j]);
    ps
  }

  /** The role line needs both the pattern and a literal `Added`. */
  function RoleEvent(log: string): (r: Option<Event>)
    ensures r.Some? <==> Matches(RolePattern(), log) && Contains(log, "Added")
    ensures r.Some? ==> r.value.PlayerRoleAdd? && Run(AllBut(']'), r.value.ign) && Run(Word, r.value.role)
    ensures r.Some? ==> RoleAt(log, r.value.ign, r.value.role)
  {
    var ps := RolePattern();
    match Leftmost(ps, log)
    case None => None
    case Some(m) =>
      RoleText(log, m);
      var ign, role := Capture(ps, log, m, 7), Capture(ps, log, m, 13);
      RoleFound(log, ign, role, m.pos[0], m.pos[6], m.pos[12]);
      if Contains(log, "Added") then Some(PlayerRoleAdd(ign, role)) else None
  }

  /** The placement of a role line's two bracketed groups after the start of the first match. */
  ghost predicate RoleAt(log: string, ign: string, role: string)
  {
    exists i: nat, a: nat, b: nat :: FirstStart(RolePattern(), log, i) && i <= a
      && OccursAt(log, "[" + ign + "]", a) && a + |ign| + 2 <= b
      && OccursAt(log, "[" + role + "]", b)
  }

  lemma RoleFound(log: string, ign: string, role: string, i: nat, a: nat, b: nat)
    requires FirstStart(RolePattern(), log, i) && i <= a
    requires OccursAt(log, "[" + ign + "]", a) && a + |ign| + 2 <= b && OccursAt(log, "[" + role + "]", b)
    ensures RoleAt(log, ign, role)
  {
  }

  lemma RoleText(log: string, m: Match)
    requires Leftmost(RolePattern(), log) == Some(m)
    ensures var ps, p := RolePattern(), m.pos; var ign := Capture(ps, log, m, 7);
      && p[0] <= p[6] && OccursAt(log, "[" + ign + "]", p[6]) && p[6] + |ign| + 2 <= p[12]
      && OccursAt(log, "[" + Capture(ps, log, m, 13) + "]", p[12])
  {
    hide FirstStart, Matches, MatchAt, Leftmost;
    RoleParts(log, m.pos);
  }

  /** The player and the role of a role match are the texts of its two bracketed groups. */
  lemma RoleParts(log: string, p: seq<nat>)
    requires |p| > 0 && Positions(p, 15, p[0], log) && Spans(RolePattern(), log, p)
    ensures OccursAt(log, "[" + log[p[7]..p[8]] + "]", p[6]) && p[9] <= p[12]
    ensures OccursAt(log, "[" + log[p[13]..p[14]] + "]", p[12])
  {
    var ps := RolePattern();
    assert ps[6] == Lit("[") && ps[8] == Lit("]") && ps[12] == Lit("[") && ps[14] == Lit("]");
    hide RolePattern, Spans;
    Shape3(ps, log, p, 6);
    Shape3(ps, log, p, 12);
  }

  /** `\bgiving ([\w\s_-]+) ([\d.]+) x ([\w\s-]+(?: [\w\s-]+)*)\b`. Group 3 is written as one greedy
      run of `[\w\s-]`: the space of `(?: [\w\s-]+)*` belongs to that class already, so both
      accept the same texts, and the engine ends both at the longest one followed by `\b`. */
  function ItemPattern(): (ps: seq<Piece>)
    ensures WellFormed(ps) && |ps| == 8
    ensures ps[2] == ps[6] == Many(WordSpaceDash, true, false) && ps[4] == Many(DecimalChar, true, false)
  {
    [Boundary, Lit("giving "), Many(WordSpaceDash, true, false), Lit(" "), Many(DecimalChar, true, false),
     Lit(" x "), Many(WordSpaceDash, true, false), Boundary]
  }

  /** The player, the amount text and the item of an item spawn line, between two word
      boundaries; the quantity is `Number()` of the amount text. */
  function ItemEvent(log: string): (r: Option<Event>)
    ensures r.Some? <==> Matches(ItemPattern(), log)
    ensures r.Some? ==> r.value.ItemSpawn? && Run(WordSpaceDash, r.value.ign) && Run(WordSpaceDash, r.value.item)
    ensures r.Some? ==>
      exists i, amount :: FirstStart(ItemPattern(), log, i)
        && WordAt(log, "giving " + r.value.ign + " " + amount + " x " + r.value.item, i)
        && Run(DecimalChar, amount) && r.value.quantity == DecimalNumber(amount)
  {
    hide Leftmost, MatchAt, Matches, FirstStart, Capture, WordAt;
    var ps := ItemPattern();
    match Leftmost(ps, log)
    case None => None
    case Some(m) =>
      ItemFound(log, m);
      Some(ItemSpawn(Capture(ps, log, m, 2), Capture(ps, log, m, 6), DecimalNumber(Capture(ps, log, m, 4))))
  }

  /** The player, the amount and the item of the leftmost item spawn match, in the text it reads. */
  lemma ItemFound(log: string, m: Match)
    requires Leftmost(ItemPattern(), log) == Some(m)
    ensures |m.pos| > 0 && Positions(m.pos, 8, m.pos[0], log) && Spans(ItemPattern(), log, m.pos)
    ensures var ps := ItemPattern();
      var ign, amount, item := Capture(ps, log, m, 2), Capture(ps, log, m, 4), Capture(ps, log, m, 6);
      && Run(WordSpaceDash, ign) && Run(WordSpaceDash, item) && Run(DecimalChar, amount)
      && exists i :: FirstStart(ps, log, i) && WordAt(log, "giving " + ign + " " + amount + " x " + item, i)
  {
    hide MatchAt, Matches, Leftmost;
    var ps, p := ItemPattern(), m.pos;
    ItemText(log, m);
    assert FirstStart(ps, log, p[0]);
  }

  lemma ItemText(log: string, m: Match)
    requires Leftmost(ItemPattern(), log) == Some(m)
    ensures var ps := ItemPattern();
      WordAt(log, "giving " + Capture(ps, log, m, 2) + " " + Capture(ps, log, m, 4) + " x " + Capture(ps, log, m, 6),
             m.pos[0])
  {
    var ps, p := ItemPattern(), m.pos;
    hide FirstStart, Matches, MatchAt, Leftmost;
    var t := "giving " + log[p[2]..p[3]] + " " + log[p[4]..p[5]] + " x " + log[p[6]..p[7]];
    assert p[0] == p[1] && IsBoundary(log, p[0]) by { assert PieceSpan(ps[0], log, p[0], p[1]); }
    assert p[7] == p[8] && IsBoundary(log, p[7]) by { assert PieceSpan(ps[7], log, p[7], p[8]); }
    assert log[p[1]..p[7]] == t by { Shape6(ps, log, p, 1); }
    assert WordAt(log, t, p[0]);
  }

  /** `\[NOTE PANEL\] Player \[ ([^\]]+) \] changed name from \[\s*([\s\S]*?)\s*\] to \[\s*([\s\S]*?)\s*\]` */
  function NotePattern(): (ps: seq<Piece>)
    ensures WellFormed(ps) && |ps| == 11
  {
    [Lit("[NOTE PANEL] Player [ "), Many(AllBut(']'), true, false), Lit(" ] changed name from ["),
     Many(Space, false, false), Many(AnyChar, false, true), Many(Space, false, false), Lit("] to ["),
     Many(Space, false, false), Many(AnyChar, false, true), Many(Space, false, false), Lit("]")]
  }

  /** `.trim().split("\\n")[0]`: the first line of a note, where lines are separated by the two
      characters backslash and `n`. */
  function NoteLine(g: string): (r: string)
    ensures IsFirstPart(Trim(g), "\\n", r) && !Contains(r, "\\n")
    ensures !Contains(Trim(g), "\\n") ==> r == Trim(g)
  {
    var t := Trim(g);
    var r := Before(t, "\\n");
    assert !Contains(r, "\\n") by {
      if Contains(r, "\\n") {
        var j := IndexFrom(r, "\\n", 0).value;
        assert r[j..j + 2] == t[j..j + 2];
        assert OccursAt(t, "\\n", j);
      }
    }
    r
  }

  /** The player group and the whole contents of the old and the new brackets of a note line. */
  datatype NoteParts = NoteParts(ign: string, oldText: string, newText: string)

  function NoteGroups(log: string): (r: Option<NoteParts>)
    ensures r.Some? <==> Matches(NotePattern(), log)
    ensures r.Some? ==> Run(AllBut(']'), r.value.ign)
    ensures r.Some? ==>
      exists i :: FirstStart(NotePattern(), log, i)
        && OccursAt(log, "[NOTE PANEL] Player [ " + r.value.ign + " ] changed name from [" + r.value.oldText
                         + "] to [" + r.value.newText + "]", i)
  {
    var ps := NotePattern();
    match Leftmost(ps, log)
    case None => None
    case Some(m) =>
      NoteText(log, m);
      Some(NoteParts(Capture(ps, log, m, 1), Group(log, m, 3, 6), Group(log, m, 7, 10)))
  }

  lemma NoteText(log: string, m: Match)
    requires |m.pos| > 0 && Positions(m.pos, 11, m.pos[0], log) && Spans(NotePattern(), log, m.pos)
    ensures var p := m.pos; OccursAt(log, "[NOTE PANEL] Player [ " + log[p[1]..p[2]] + " ] changed name from ["
      + log[p[3]..p[6]] + "] to [" + log[p[7]..p[10]] + "]", p[0])
  {
    var ps, p := NotePattern(), m.pos;
    assert ps[0].text == "[NOTE PANEL] Player [ " && ps[2].text == " ] changed name from [";
    assert PieceSpan(ps[6], log, p[6], p[7]) && PieceSpan(ps[10], log, p[10], p[11]);
    assert log[p[6]..p[7]] == "] to [" && log[p[10]..p[11]] == "]";
    assert p[0] <= p[3] <= p[6] <= p[7] <= p[10] <= p[11] <= |log|;
    Shape3(ps, log, p, 0);
    hide Spans, Positions, NotePattern, PieceSpan;
    var h, b, c := log[p[0]..p[3]], log[p[3]..p[6]], log[p[7]..p[10]];
    assert log[p[0]..p[11]] == h + b + log[p[6]..p[7]] + c + log[p[10]..p[11]] by {
      SliceJoin(log, p[0], p[3], p[6]);
      SliceJoin(log, p[0], p[6], p[7]);
      SliceJoin(log, p[0], p[7], p[10]);
      SliceJoin(log, p[0], p[10], p[11]);
    }
  }

  /** The lazy group inside a note bracket trims to what the whole bracket contents trim to. */
  lemma NoteInner(log: string, m: Match)
    requires |m.pos| > 0 && Positions(m.pos, 11, m.pos[0], log) && Spans(NotePattern(), log, m.pos)
    ensures var p := m.pos; Trim(log[p[4]..p[5]]) == Trim(log[p[3]..p[6]]) && Trim(log[p[8]..p[9]]) == Trim(log[p[7]..p[10]])
  {
    NoteBracket(log, m, 3);
    NoteBracket(log, m, 7);
  }

  /** The bracket contents from piece `a` on: white space, the lazy group, white space. */
  lemma NoteBracket(log: string, m: Match, a: nat)
    requires |m.pos| > 0 && Positions(m.pos, 11, m.pos[0], log) && Spans(NotePattern(), log, m.pos)
    requires a == 3 || a == 7
    ensures var p := m.pos; p[a] <= p[a + 1] <= p[a + 2] <= p[a + 3] <= |log|
    ensures var p := m.pos; Trim(log[p[a + 1]..p[a + 2]]) == Trim(log[p[a]..p[a + 3]])
  {
    var ps, p := NotePattern(), m.pos;
    assert PieceSpan(ps[a], log, p[a], p[a + 1]) && PieceSpan(ps[a + 2], log, p[a + 2], p[a + 3]);
    assert p[a] <= p[a + 1] <= p[a + 2] <= p[a + 3] <= |log|;
    hide Spans, Positions, NotePattern;
    var u, v, w := log[p[a]..p[a + 1]], log[p[a + 1]..p[a + 2]], log[p[a + 2]..p[a + 3]];
    assert log[p[a]..p[a + 3]] == u + v + w by {
      SliceJoin(log, p[a], p[a + 1], p[a + 2]);
      SliceJoin(log, p[a], p[a + 2], p[a + 3]);
    }
    TrimPadding(u, v, w);
  }

  /** A note edit is reported exactly when the note line matches and the first line of the new
      contents is non-empty and differs from the first line of the old; the player is trimmed. */
  function NoteEvent(log: string): (r: Option<Event>)
    ensures r.Some? <==> (NoteGroups(log).Some? && NoteLine(NoteGroups(log).value.newText) != []
                         && NoteLine(NoteGroups(log).value.oldText) != NoteLine(NoteGroups(log).value.newText))
    ensures r.Some? ==> var g := NoteGroups(log).value;
      r.value == NoteEdit(Trim(g.ign), NoteLine(g.oldText), NoteLine(g.newText))
    ensures r.Some? ==> !Contains(r.value.oldContent, "\\n") && !Contains(r.value.newContent, "\\n")
  {
    var ps := NotePattern();
    match Leftmost(ps, log)
    case None => None
    case Some(m) =>
      NoteInner(log, m);
      var oldContent, newContent := NoteLine(Capture(ps, log, m, 4)), NoteLine(Capture(ps, log, m, 8));
      if newContent != [] && oldContent != newContent then
        Some(NoteEdit(Trim(Capture(ps, log, m, 1)), oldContent, newContent))
      else None
  }

  /** `\[([^\]]+)\] created a new team, ID: (\d+)` */
  function TeamCreatePattern(): (ps: seq<Piece>)
    ensures WellFormed(ps) && |ps| == 4
    ensures ps[1] == Many(AllBut(']'), true, false) && ps[3] == Many(Digit, true, false)
  {
    [Lit("["), Many(AllBut(']'), true, false), Lit("] created a new team, ID: "), Many(Digit, true, false)]
  }

  /** The owner is the bracketed group; the id is the value of the whole digit run after `ID: `. */
  function TeamCreateEvent(log: string): (r: Option<Event>)
    ensures r.Some? <==> Matches(TeamCreatePattern(), log)
    ensures r.Some? ==> r.value.TeamCreate? && Run(AllBut(']'), r.value.owner)
    ensures r.Some? ==>
      exists i, digits :: FirstStart(TeamCreatePattern(), log, i)
        && OccursMaximal(log, "[" + r.value.owner + "] created a new team, ID: " + digits, i, Digit)
        && Run(Digit, digits) && r.value.id == DigitsValue(digits)
  {
    var ps := TeamCreatePattern();
    match Leftmost(ps, log)
    case None => None
    case Some(m) =>
      TeamCreateText(log, m);
      Some(TeamCreate(Capture(ps, log, m, 1), DigitsValue(Capture(ps, log, m, 3))))
  }

  lemma TeamCreateText(log: string, m: Match)
    requires Leftmost(TeamCreatePattern(), log) == Some(m)
    ensures var ps := TeamCreatePattern(); var digits := Capture(ps, log, m, 3);
      && OccursMaximal(log, "[" + Capture(ps, log, m, 1) + "] created a new team, ID: " + digits, m.pos[0], Digit)
      && Run(Digit, digits)
  {
    var ps, p := TeamCreatePattern(), m.pos;
    hide FirstStart, Matches, MatchAt, Leftmost;
    var t := "[" + log[p[1]..p[2]] + "] created a new team, ID: " + log[p[3]..p[4]];
    assert log[p[0]..p[4]] == t by { Shape4(ps, log, p, 0); }
    assert p[4] < |log| ==> !InClass(Digit, log[p[4]]) by { GreedyLast(ps, log, p[0]); }
    assert OccursMaximal(log, t, p[0], Digit);
  }

  /** `\[([^\]]+)\] has joined \[([^\]]+)]s team, ID: \[(\d+)\]` and its `has left` twin. */
  function TeamMovePattern(verb: string): (ps: seq<Piece>)
    ensures WellFormed(ps) && |ps| == 7
    ensures ps[1] == ps[3] == Many(AllBut(']'), true, false) && ps[5] == Many(Digit, true, false)
  {
    [Lit("["), Many(AllBut(']'), true, false), Lit("] " + verb + " ["), Many(AllBut(']'), true, false),
     Lit("]s team, ID: ["), Many(Digit, true, false), Lit("]")]
  }

  /** A team move line at the first match: the player, the verb, the owner and the digits of the id,
      in brackets. */
  ghost predicate TeamMoveAt(log: string, verb: string, ign: string, owner: string, id: nat)
  {
    exists i: nat, digits :: FirstStart(TeamMovePattern(verb), log, i)
      && OccursAt(log, "[" + ign + ("] " + verb + " [") + owner + "]s team, ID: [" + digits + "]", i)
      && Run(Digit, digits) && id == DigitsValue(digits)
  }

  /** A team move match reads the player, the verb, the owner and the id digits. */
  lemma TeamMoveText(log: string, m: Match, verb: string)
    requires Leftmost(TeamMovePattern(verb), log) == Some(m)
    ensures var ps := TeamMovePattern(verb); var ign, owner := Capture(ps, log, m, 1), Capture(ps, log, m, 3);
      && Run(AllBut(']'), ign) && Run(AllBut(']'), owner)
      && TeamMoveAt(log, verb, ign, owner, DigitsValue(Capture(ps, log, m, 5)))
  {
    var ps, p := TeamMovePattern(verb), m.pos;
    var digits := log[p[5]..p[6]];
    assert FirstStart(ps, log, p[0]);
    assert Run(Digit, digits) by { assert PieceSpan(ps[5], log, p[5], p[6]); }
    hide FirstStart, Matches, MatchAt, Leftmost;
    Shape7(ps, log, p, 0);
  }

  function TeamJoinEvent(log: string): (r: Option<Event>)
    ensures r.Some? <==> Matches(TeamMovePattern("has joined"), log)
    ensures r.Some? ==> r.value.TeamJoin? && Run(AllBut(']'), r.value.ign) && Run(AllBut(']'), r.value.owner)
    ensures r.Some? ==> TeamMoveAt(log, "has joined", r.value.ign, r.value.owner, r.value.id)
  {
    var ps := TeamMovePattern("has joined");
    match Leftmost(ps, log)
    case None => None
    case Some(m) =>
      TeamMoveText(log, m, "has joined");
      Some(TeamJoin(Capture(ps, log, m, 1), Capture(ps, log, m, 3), DigitsValue(Capture(ps, log, m, 5))))
  }

  function TeamLeaveEvent(log: string): (r: Option<Event>)
    ensures r.Some? <==> Matches(TeamMovePattern("has left"), log)
    ensures r.Some? ==> r.value.TeamLeave? && Run(AllBut(']'), r.value.ign) && Run(AllBut(']'), r.value.owner)
    ensures r.Some? ==> TeamMoveAt(log, "has left", r.value.ign, r.value.owner, r.value.id)
  {
    var ps := TeamMovePattern("has left");
    match Leftmost(ps, log)
    case None => None
    case Some(m) =>
      TeamMoveText(log, m, "has left");
      Some(TeamLeave(Capture(ps, log, m, 1), Capture(ps, log, m, 3), DigitsValue(Capture(ps, log, m, 5))))
  }

  /** `SERVER giving (.+?) kit (\w+)` */
  function KitSpawnPattern(): (ps: seq<Piece>)
    ensures WellFormed(ps) && |ps| == 4
    ensures ps[1] == Many(InLine, true, true) && ps[3] == Many(Word, true, false)
  {
    [Lit("SERVER giving "), Many(InLine, true, true), Lit(" kit "), Many(Word, true, false)]
  }

  /** ` kit ` followed by a word character: where the lazy player group of a kit spawn may stop. */
  predicate KitFollows(s: string, j: nat)
  {
    OccursAt(s, " kit ", j) && j + 5 < |s| && IsWordChar(s[j + 5])
  }

  /** The rest of the kit spawn pattern matches wherever ` kit ` and a word character follow. */
  lemma KitRest(s: string, j: nat)
    requires j <= |s| && KitFollows(s, j)
    ensures MatchAt(KitSpawnPattern()[2..], s, j).Some?
  {
    var rest := KitSpawnPattern()[2..];
    assert rest == [Lit(" kit "), Many(Word, true, false)] && rest[1..] == [Many(Word, true, false)];
    var hi := RunEnd(s, j + 5, Word);
    assert Downward([], s, hi, hi) == Some(Match([hi]));
  }

  /** The player is the shortest text after `SERVER giving ` that ` kit ` and a word follow;
      the kit is the whole word run after it. */
  function KitSpawnEvent(log: string): (r: Option<Event>)
    ensures r.Some? <==> Matches(KitSpawnPattern(), log)
    ensures r.Some? ==> r.value.KitSpawn? && Run(InLine, r.value.ign) && Run(Word, r.value.kit)
    ensures r.Some? ==>
      exists i: nat :: FirstStart(KitSpawnPattern(), log, i)
        && OccursMaximal(log, "SERVER giving " + r.value.ign + " kit " + r.value.kit, i, Word)
        && forall j :: i + 14 < j < i + 14 + |r.value.ign| ==> !KitFollows(log, j)
  {
    hide Leftmost, MatchAt, Matches, FirstStart, Capture, OccursMaximal, KitFollows;
    var ps := KitSpawnPattern();
    match Leftmost(ps, log)
    case None => None
    case Some(m) =>
      KitSpawnFound(log, m);
      Some(KitSpawn(Capture(ps, log, m, 1), Capture(ps, log, m, 3)))
  }

  /** The player and the kit of the leftmost kit spawn match, in the text it reads. */
  lemma KitSpawnFound(log: string, m: Match)
    requires Leftmost(KitSpawnPattern(), log) == Some(m)
    ensures |m.pos| > 0 && Positions(m.pos, 4, m.pos[0], log) && Spans(KitSpawnPattern(), log, m.pos)
    ensures var ps := KitSpawnPattern(); var ign, kit := Capture(ps, log, m, 1), Capture(ps, log, m, 3);
      && Run(InLine, ign) && Run(Word, kit)
      && exists i: nat ::
           && FirstStart(ps, log, i)
           && OccursMaximal(log, "SERVER giving " + ign + " kit " + kit, i, Word)
           && forall j :: i + 14 < j < i + 14 + |ign| ==> !KitFollows(log, j)
  {
    hide MatchAt, Matches, Leftmost;
    var ps, p := KitSpawnPattern(), m.pos;
    KitSpawnText(log, m);
    assert FirstStart(ps, log, p[0]);
  }

  lemma KitSpawnText(log: string, m: Match)
    requires Leftmost(KitSpawnPattern(), log) == Some(m)
    ensures var ps := KitSpawnPattern(); var ign := Capture(ps, log, m, 1);
      && OccursMaximal(log, "SERVER giving " + ign + " kit " + Capture(ps, log, m, 3), m.pos[0], Word)
      && forall j :: m.pos[0] + 14 < j < m.pos[0] + 14 + |ign| ==> !KitFollows(log, j)
  {
    var ps, p := KitSpawnPattern(), m.pos;
    hide FirstStart, Matches, MatchAt, Leftmost;
    var t := "SERVER giving " + log[p[1]..p[2]] + " kit " + log[p[3]..p[4]];
    assert log[p[0]..p[4]] == t by { Shape4(ps, log, p, 0); }
    assert p[4] < |log| ==> !InClass(Word, log[p[4]]) by { GreedyLast(ps, log, p[0]); }
    assert OccursMaximal(log, t, p[0], Word);
    assert p[1] == p[0] + 14 by { assert PieceSpan(ps[0], log, p[0], p[1]); }
    forall j | p[1] < j < p[2] ensures !KitFollows(log, j) {
      LazyShortest(ps, log, p[0], 1, ps[2..]);
      if KitFollows(log, j) {
        KitRest(log, j);
      }
    }
  }

  /** `\[ServerVar\] ([\w\s_-]+) giving ([\w\s_-]+) kit ([\w\s_-]+)` */
  function KitGivePattern(): (ps: seq<Piece>)
    ensures WellFormed(ps) && |ps| == 6
    ensures ps[1] == ps[3] == ps[5] == Many(WordSpaceDash, true, false)
  {
    [Lit("[ServerVar] "), Many(WordSpaceDash, true, false), Lit(" giving "), Many(WordSpaceDash, true, false),
     Lit(" kit "), Many(WordSpaceDash, true, false)]
  }

  function KitGiveEvent(log: string): (r: Option<Event>)
    ensures r.Some? <==> Matches(KitGivePattern(), log)
    ensures r.Some? ==> (r.value.KitGive?
      && Run(WordSpaceDash, r.value.admin) && Run(WordSpaceDash, r.value.ign) && Run(WordSpaceDash, r.value.kit))
    ensures r.Some? ==>
      exists i :: FirstStart(KitGivePattern(), log, i)
        && OccursMaximal(log, "[ServerVar] " + r.value.admin + " giving " + r.value.ign + " kit " + r.value.kit, i,
                         WordSpaceDash)
  {
    var ps := KitGivePattern();
    match Leftmost(ps, log)
    case None => None
    case Some(m) =>
      KitGiveText(log, m);
      Some(KitGive(Capture(ps, log, m, 1), Capture(ps, log, m, 3), Capture(ps, log, m, 5)))
  }

  lemma KitGiveText(log: string, m: Match)
    requires Leftmost(KitGivePattern(), log) == Some(m)
    ensures var ps := KitGivePattern();
      OccursMaximal(log, "[ServerVar] " + Capture(ps, log, m, 1) + " giving " + Capture(ps, log, m, 3) + " kit "
                         + Capture(ps, log, m, 5), m.pos[0], WordSpaceDash)
  {
    var ps, p := KitGivePattern(), m.pos;
    hide FirstStart, Matches, MatchAt, Leftmost;
    var t := "[ServerVar] " + log[p[1]..p[2]] + " giving " + log[p[3]..p[4]] + " kit " + log[p[5]..p[6]];
    assert log[p[0]..p[6]] == t by { Shape6(ps, log, p, 0); }
    assert p[6] < |log| ==> !InClass(WordSpaceDash, log[p[6]]) by { GreedyLast(ps, log, p[0]); }
    assert OccursMaximal(log, t, p[0], WordSpaceDash);
  }

  /** `Setting event as :(\w+)` */
  function SpecialStartPattern(): (ps: seq<Piece>)
    ensures WellFormed(ps) && |ps| == 2 && ps[1] == Many(Word, true, false)
  {
    [Lit("Setting event as :"), Many(Word, true, false)]
  }

  function SpecialStartEvent(log: string): (r: Option<Event>)
    ensures r.Some? <==> Matches(SpecialStartPattern(), log)
    ensures r.Some? ==> r.value.SpecialEventStart? && Run(Word, r.value.event)
    ensures r.Some? ==>
      exists i :: FirstStart(SpecialStartPattern(), log, i)
        && OccursMaximal(log, "Setting event as :" + r.value.event, i, Word)
  {
    var ps := SpecialStartPattern();
    match Leftmost(ps, log)
    case None => None
    case Some(m) =>
      SpecialStartText(log, m);
      Some(SpecialEventStart(Capture(ps, log, m, 1)))
  }

  lemma SpecialStartText(log: string, m: Match)
    requires Leftmost(SpecialStartPattern(), log) == Some(m)
    ensures OccursMaximal(log, "Setting event as :" + Capture(SpecialStartPattern(), log, m, 1), m.pos[0], Word)
  {
    var ps, p := SpecialStartPattern(), m.pos;
    hide FirstStart, Matches, MatchAt, Leftmost;
    var t := "Setting event as :" + log[p[1]..p[2]];
    assert log[p[0]..p[2]] == t by { Shape2(ps, log, p, 0); }
    assert p[2] < |log| ==> !InClass(Word, log[p[2]]) by { GreedyLast(ps, log, p[0]); }
    assert OccursMaximal(log, t, p[0], Word);
  }

  /** The `EVENTS` entries whose key the line contains, in table order. */
  function TableEvents(log: string, table: seq<EventInfo>): (r: seq<Event>)
    ensures |r| <= |table| && forall k :: 0 <= k < |r| ==> r[k].EventStart?
  {
    if table == [] then []
    else
      var rest := TableEvents(log, table[1..]);
      if Contains(log, table[0].key) then [EventStart(table[0].name, table[0].special)] + rest else rest
  }

  /** `ev` starts the event of an entry of `table` whose key the line contains. */
  predicate Listed(log: string, table: seq<EventInfo>, ev: Event)
  {
    exists e :: e in table && Contains(log, e.key) && ev == EventStart(e.name, e.special)
  }

  lemma ListedTail(log: string, table: seq<EventInfo>, ev: Event)
    requires table != [] && Listed(log, table[1..], ev)
    ensures Listed(log, table, ev)
  {
    var e :| e in table[1..] && Contains(log, e.key) && ev == EventStart(e.name, e.special);
    assert e in table;
  }

  /** An `[event]` line starts exactly the table's events whose key it contains. */
  lemma {:induction false} TableEventsMatch(log: string, table: seq<EventInfo>)
    ensures forall ev :: ev in TableEvents(log, table) ==> ev.EventStart? && Listed(log, table, ev)
    ensures forall e :: e in table && Contains(log, e.key) ==> EventStart(e.name, e.special) in TableEvents(log, table)
  {
    if table != [] {
      hide Contains;
      TableEventsMatch(log, table[1..]);
      var r, rest := TableEvents(log, table), TableEvents(log, table[1..]);
      var head := if Contains(log, table[0].key) then [EventStart(table[0].name, table[0].special)] else [];
      assert r == head + rest;
      forall ev | ev in r ensures ev.EventStart? && Listed(log, table, ev) {
        if ev in head {
          assert table[0] in table && ev == EventStart(table[0].name, table[0].special);
        } else {
          ListedTail(log, table, ev);
        }
      }
      forall e | e in table && Contains(log, e.key) ensures EventStart(e.name, e.special) in r {
        if e != table[0] {
          assert e in table[1..];
        }
      }
    }
  }

  function Opt(o: Option<Event>): (r: seq<Event>)
    ensures o.Some? ==> r == [o.value]
    ensures o.None? ==> r == []
  {
    if o.Some? then [o.value] else []
  }

  /** No event of `evs` is a `PlayerSuicide`. */
  predicate SuicideFree(evs: seq<Event>)
  {
    forall e :: e in evs ==> !e.PlayerSuicide?
  }

  lemma FreeOpt(o: Option<Event>)
    requires o.None? || !o.value.PlayerSuicide?
    ensures SuicideFree(Opt(o))
  {
  }

  lemma FreeAppend(a: seq<Event>, b: seq<Event>)
    requires SuicideFree(a) && SuicideFree(b)
    ensures SuicideFree(a + b)
  {
  }

  /** Kill, vending machine and quick chat lines. */
  function KillChatEvents(log: string): (r: seq<Event>)
    ensures SuicideFree(r)
  {
    var k, v, q := KillEvent(log), VendingEvent(log), QuickChatEvent(log);
    FreeOpt(k);
    FreeOpt(v);
    FreeOpt(q);
    FreeAppend(Opt(k), Opt(v));
    FreeAppend(Opt(k) + Opt(v), Opt(q));
    Opt(k) + Opt(v) + Opt(q)
  }

  /** Respawn and zone lines. */
  function RespawnZoneEvents(log: string): (r: seq<Event>)
    ensures SuicideFree(r)
  {
    var e0, e1, e2 := RespawnEvent(log), ZoneEvent(log, "created"), ZoneEvent(log, "removed");
    FreeOpt(e0);
    FreeOpt(e1);
    FreeOpt(e2);
    FreeAppend(Opt(e0), Opt(e1));
    FreeAppend(Opt(e0) + Opt(e1), Opt(e2));
    Opt(e0) + Opt(e1) + Opt(e2)
  }

  /** Role, item and note lines. */
  function RoleItemNoteEvents(log: string): (r: seq<Event>)
    ensures SuicideFree(r)
  {
    var e0, e1, e2 := RoleEvent(log), ItemEvent(log), NoteEvent(log);
    FreeOpt(e0);
    FreeOpt(e1);
    FreeOpt(e2);
    FreeAppend(Opt(e0), Opt(e1));
    FreeAppend(Opt(e0) + Opt(e1), Opt(e2));
    Opt(e0) + Opt(e1) + Opt(e2)
  }

  /** Team lines. */
  function TeamEvents(log: string): (r: seq<Event>)
    ensures SuicideFree(r)
  {
    var e0, e1, e2 := TeamCreateEvent(log), TeamJoinEvent(log), TeamLeaveEvent(log);
    FreeOpt(e0);
    FreeOpt(e1);
    FreeOpt(e2);
    FreeAppend(Opt(e0), Opt(e1));
    FreeAppend(Opt(e0) + Opt(e1), Opt(e2));
    Opt(e0) + Opt(e1) + Opt(e2)
  }

  /** Kit lines. */
  function KitEvents(log: string): (r: seq<Event>)
    ensures SuicideFree(r)
  {
    var e0, e1 := KitSpawnEvent(log), KitGiveEvent(log);
    FreeOpt(e0);
    FreeOpt(e1);
    FreeAppend(Opt(e0), Opt(e1));
    Opt(e0) + Opt(e1)
  }

  /** Special event start and end, and the `[event]` lines looked up in the `EVENTS` table. */
  function GameEventEvents(log: string, table: seq<EventInfo>): (r: seq<Event>)
    ensures SuicideFree(r)
    ensures SpecialEventEnd in r <==> StartsWith(log, "Event set as: none")
    ensures forall e :: e in r && e.EventStart? ==> StartsWith(log, "[event]") && Listed(log, table, e)
    ensures StartsWith(log, "[event]") ==>
      forall e :: e in table && Contains(log, e.key) ==> EventStart(e.name, e.special) in r
  {
    hide SpecialStartEvent, TableEvents, Listed, Contains, StartsWith, SuicideFree;
    TableEventsMatch(log, table);
    var e0 := SpecialStartEvent(log);
    var end := if StartsWith(log, "Event set as: none") then [SpecialEventEnd] else [];
    var listed := if StartsWith(log, "[event]") then TableEvents(log, table) else [];
    FreeOpt(e0);
    FreeAppend(Opt(e0), end);
    FreeAppend(Opt(e0) + end, listed);
    Opt(e0) + end + listed
  }

  /** Every event the domain patterns report for a line, in the order the handler checks them. */
  function DomainEvents(log: string, table: seq<EventInfo>): seq<Event>
  {
    KillChatEvents(log) + SuicideEvents(log) + RespawnZoneEvents(log) + RoleItemNoteEvents(log) + TeamEvents(log)
    + KitEvents(log) + GameEventEvents(log, table)
  }

  /** How many `PlayerSuicide` events `evs` holds. */
  function Suicides(evs: seq<Event>): nat
  {
    if evs == [] then 0 else (if evs[0].PlayerSuicide? then 1 else 0) + Suicides(evs[1..])
  }

  lemma {:induction false} SuicidesAppend(a: seq<Event>, b: seq<Event>)
    ensures Suicides(a + b) == Suicides(a) + Suicides(b)
  {
    if a != [] {
      assert (a + b)[1..] == a[1..] + b;
      SuicidesAppend(a[1..], b);
    } else {
      assert a + b == b;
    }
  }

  lemma {:induction false} NoSuicides(b: seq<Event>)
    requires SuicideFree(b)
    ensures Suicides(b) == 0
  {
    if b != [] {
      assert b[0] in b;
      assert SuicideFree(b[1..]) by {
        forall e | e in b[1..] ensures !e.PlayerSuicide? {
          assert e in b;
        }
      }
      NoSuicides(b[1..]);
    }
  }

  /** Suicide-free groups around `s` add nothing to the count. */
  lemma SuicideCount(a: seq<Event>, s: seq<Event>, z: seq<Event>, n: seq<Event>, t: seq<Event>, k: seq<Event>,
                     g: seq<Event>)
    requires SuicideFree(a) && SuicideFree(z) && SuicideFree(n) && SuicideFree(t) && SuicideFree(k) && SuicideFree(g)
    ensures Suicides(a + s + z + n + t + k + g) == Suicides(s)
  {
    NoSuicides(a);
    NoSuicides(z);
    NoSuicides(n);
    NoSuicides(t);
    NoSuicides(k);
    NoSuicides(g);
    SuicidesAppend(a, s);
    SuicidesAppend(a + s, z);
    SuicidesAppend(a + s + z, n);
    SuicidesAppend(a + s + z + n, t);
    SuicidesAppend(a + s + z + n + t, k);
    SuicidesAppend(a + s + z + n + t + k, g);
  }

  /** A suicide line yields exactly two `PlayerSuicide` events; any other line yields none. */
  lemma SuicideReportedTwice(log: string, table: seq<EventInfo>)
    ensures Suicides(DomainEvents(log, table)) == if Contains(log, "was suicide by Suicide") then 2 else 0
  {
    hide KillChatEvents, RespawnZoneEvents, RoleItemNoteEvents, TeamEvents, KitEvents, GameEventEvents;
    var s := SuicideEvents(log);
    if s != [] {
      assert s[1..][0] == s[1] && Suicides(s[1..][1..]) == 0;
      assert Suicides(s[1..]) == 1;
    }
    SuicideCount(KillChatEvents(log), SuicideEvents(log), RespawnZoneEvents(log), RoleItemNoteEvents(log),
                 TeamEvents(log), KitEvents(log), GameEventEvents(log, table));
  }
}
