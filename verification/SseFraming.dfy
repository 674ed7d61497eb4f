/**
 * The event stream's text: printed by src/controllers/events.controller.ts, parsed by
 * scripts/dashboard.py. The grammar is that of the HTML Living Standard, sections 9.2.5
 * and 9.2.6, as far as these two programs use it.
 */
module SseFraming {
  /** What the server writes: stamped events, the gap notice, and keepalive comments between them. */
  datatype Item = Event(id: nat, kind: string, data: string) | Gap | Keepalive

  /** What the client does with a frame. */
  datatype Signal = Dispatch(id: int, kind: string, data: string) | Resync

  // ------------------------------------------------------------------- printer

  const GAP_DATA := "{\"reason\":\"buffer-overflow\"}"

  function Digit(d: nat): char
    requires d < 10
  {
    "0123456789"[d]
  }

  function Decimal(n: nat): (r: string)
    ensures r != "" && forall i :: 0 <= i < |r| ==> '0' <= r[i] <= '9'
  {
    if n < 10 then [Digit(n)] else Decimal(n / 10) + [Digit(n % 10)]
  }

  /** The lines of an item, without the blank line that ends it. */
  function ItemLines(item: Item): seq<string> {
    match item
    case Event(id, kind, data) => ["id: " + Decimal(id), "event: " + kind, "data: " + data]
    case Gap => ["event: gap", "data: " + GAP_DATA]
    case Keepalive => [": keepalive"]
  }

  function WriteLines(lines: seq<string>): string {
    if lines == [] then "" else lines[0] + "\n" + WriteLines(lines[1..])
  }

  function WriteItem(item: Item): string { WriteLines(ItemLines(item)) + "\n" }

  function Write(items: seq<Item>): string {
    if items == [] then "" else WriteItem(items[0]) + Write(items[1..])
  }

  // -------------------------------------------------------------------- parser

  /** The characters that Python's `strip` removes. */
  predicate IsSpace(c: char) {
    var n := c as int;
    || 0x9 <= n <= 0xd || 0x1c <= n <= 0x20 || n == 0x85 || n == 0xa0 || n == 0x1680
    || 0x2000 <= n <= 0x200a || n == 0x2028 || n == 0x2029 || n == 0x202f || n == 0x205f || n == 0x3000
  }

  predicate IsBreak(c: char) { c == '\r' || c == '\n' }

  function LStrip(s: string): string {
    if s != "" && IsSpace(s[0]) then LStrip(s[1..]) else s
  }

  function RStrip(s: string, drop: char -> bool): string {
    if s != "" && drop(s[|s| - 1]) then RStrip(s[..|s| - 1], drop) else s
  }

  function Strip(s: string): string { RStrip(LStrip(s), IsSpace) }

  predicate StartsWith(s: string, p: string) { |p| <= |s| && s[..|p|] == p }

  predicate AllDigits(s: string) { s != "" && forall i :: 0 <= i < |s| ==> '0' <= s[i] <= '9' }

  function DigitsValue(s: string): nat
    requires AllDigits(s)
  {
    var d := s[|s| - 1] as int - '0' as int;
    if |s| == 1 then d else DigitsValue(s[..|s| - 1]) * 10 + d
  }

  /** `int(...)` on optionally signed decimal digits, 0 in place of ValueError. */
  function ParseInt(s: string): int {
    if AllDigits(s) then DigitsValue(s)
    else if s != "" && s[0] in {'+', '-'} && AllDigits(s[1..]) then
      var n: int := DigitsValue(s[1..]); if s[0] == '-' then -n else n
    else 0
  }

  datatype Reader = Reader(event: string, data: seq<string>, id: int, signals: seq<Signal>)

  /** The reader at the start of a frame. */
  function Fresh(signals: seq<Signal>): Reader { Reader("message", [], 0, signals) }

  function JoinLines(data: seq<string>): string
    requires data != []
  {
    if |data| == 1 then data[0] else data[0] + "\n" + JoinLines(data[1..])
  }

  /** `_dispatch_sse_frame`. */
  function DispatchFrame(r: Reader): seq<Signal> {
    if r.event == "gap" then r.signals + [Resync]
    else if r.data == [] then r.signals
    else r.signals + [Dispatch(r.id, r.event, JoinLines(r.data))]
  }

  /** One iteration of `parse_sse_stream`. */
  function ReadLine(r: Reader, raw: string): Reader {
    var line := RStrip(raw, IsBreak);
    if line == "" then Fresh(DispatchFrame(r))
    else if StartsWith(line, ":") then r
    else if StartsWith(line, "id:") then r.(id := ParseInt(Strip(line[3..])))
    else if StartsWith(line, "event:") then r.(event := Strip(line[6..]))
    else if StartsWith(line, "data:") then r.(data := r.data + [LStrip(line[5..])])
    else r
  }

  function ReadLines(r: Reader, lines: seq<string>): Reader
    decreases |lines|
  {
    if lines == [] then r else ReadLines(ReadLine(r, lines[0]), lines[1..])
  }

  /** Iterating a byte stream: lines keep their newline; an unfinished last line comes as it is. */
  function Lines(text: string): seq<string> {
    LinesFrom(text, 0)
  }

  function LinesFrom(text: string, i: nat): seq<string>
    requires i <= |text|
    decreases |text|, |text| - i
  {
    if i == |text| then (if text == "" then [] else [text])
    else if text[i] == '\n' then [text[..i + 1]] + LinesFrom(text[i + 1..], 0)
    else LinesFrom(text, i + 1)
  }

  /** `parse_sse_stream`, over the lines that one connection delivered before it ended. */
  method ParseSseStream(lines: seq<string>) returns (signals: seq<Signal>)
    ensures signals == ReadLines(Fresh([]), lines).signals
  {
    var r := Fresh([]);
    for i := 0 to |lines|
      invariant ReadLines(r, lines[i..]) == ReadLines(Fresh([]), lines)
    {
      r := ReadLine(r, lines[i]);
    }
    signals := r.signals;
  }

  function Parse(text: string): seq<Signal> { ReadLines(Fresh([]), Lines(text)).signals }

  // --------------------------------------------------------------- correctness

  predicate NoBreaks(s: string) { forall i :: 0 <= i < |s| ==> !IsBreak(s[i]) }

  /** What the server guarantees of an event: a trimmed type and one line of JSON. */
  predicate Printable(item: Item) {
    item.Event? ==>
      && item.kind != "" && item.kind != "gap" && NoBreaks(item.kind)
      && !IsSpace(item.kind[0]) && !IsSpace(item.kind[|item.kind| - 1])
      && item.data != "" && NoBreaks(item.data) && !IsSpace(item.data[0])
  }

  function SignalOf(item: Item): seq<Signal> {
    match item
    case Event(id, kind, data) => [Dispatch(id, kind, data)]
    case Gap => [Resync]
    case Keepalive => []
  }

  function SignalsOf(items: seq<Item>): seq<Signal> {
    if items == [] then [] else SignalOf(items[0]) + SignalsOf(items[1..])
  }

  lemma {:induction false} DecimalRoundTrip(n: nat)
    ensures AllDigits(Decimal(n)) && DigitsValue(Decimal(n)) == n
  {
    if n >= 10 {
      DecimalRoundTrip(n / 10);
      var s := Decimal(n);
      assert s[..|s| - 1] == Decimal(n / 10);
    }
  }

  /** A sign before the digits counts, and what is no number is 0. */
  lemma SignedRoundTrip(n: nat)
    ensures ParseInt("-" + Decimal(n)) == 0 - n && ParseInt("+" + Decimal(n)) == n && ParseInt(Decimal(n)) == n
  {
    DecimalRoundTrip(n);
    assert ("-" + Decimal(n))[1..] == Decimal(n) && ("+" + Decimal(n))[1..] == Decimal(n);
  }

  lemma NoNumberIsZero(s: string)
    requires s == "" || s == "-" || s == "+" || exists i :: 0 < i < |s| && !('0' <= s[i] <= '9')
    ensures ParseInt(s) == 0
  {
    forall i | 0 < i < |s| && !('0' <= s[i] <= '9') ensures !AllDigits(s) && !AllDigits(s[1..]) {
      assert s[1..][i - 1] == s[i];
    }
  }

  /** The white space of Python's `str.isspace`. */
  const WHITE: string :=
    "\t\n\r \U{000B}\U{000C}\U{001C}\U{001D}\U{001E}\U{001F}\U{0085}\U{00A0}\U{1680}\U{2000}\U{2001}\U{2002}\U{2003}"
    + "\U{2004}\U{2005}\U{2006}\U{2007}\U{2008}\U{2009}\U{200A}\U{2028}\U{2029}\U{202F}\U{205F}\U{3000}"

  lemma SpaceIsWhite(c: char)
    ensures IsSpace(c) <==> c in WHITE
  {
    assert |WHITE| == 29;
    if c in WHITE {
      var i :| 0 <= i < 29 && WHITE[i] == c;
    }
  }

  ghost predicate AllSpace(s: string) { forall i :: 0 <= i < |s| ==> IsSpace(s[i]) }

  lemma {:induction false} LStripIs(s: string) returns (front: string)
    ensures s == front + LStrip(s) && AllSpace(front)
    ensures LStrip(s) != "" ==> !IsSpace(LStrip(s)[0])
  {
    front := "";
    if s != "" && IsSpace(s[0]) {
      var rest := LStripIs(s[1..]);
      front := [s[0]] + rest;
      assert s == [s[0]] + s[1..];
    }
  }

  lemma {:induction false} RStripIs(s: string) returns (back: string)
    ensures s == RStrip(s, IsSpace) + back && AllSpace(back)
    ensures var r := RStrip(s, IsSpace); r != "" ==> !IsSpace(r[|r| - 1])
  {
    back := "";
    if s != "" && IsSpace(s[|s| - 1]) {
      var rest := RStripIs(s[..|s| - 1]);
      back := rest + [s[|s| - 1]];
      assert s == s[..|s| - 1] + [s[|s| - 1]];
    }
  }

  /** Stripping takes white space off both ends and nothing else. */
  lemma StripIs(s: string) returns (front: string, back: string)
    ensures s == front + Strip(s) + back && AllSpace(front) && AllSpace(back)
    ensures Strip(s) != "" ==> !IsSpace(Strip(s)[0]) && !IsSpace(Strip(s)[|Strip(s)| - 1])
  {
    front := LStripIs(s);
    back := RStripIs(LStrip(s));
  }

  /** Joined data lines are those lines again, one after the other. */
  lemma {:induction false} JoinedLines(data: seq<string>, rest: string)
    requires data != [] && forall i :: 0 <= i < |data| ==> '\n' !in data[i]
    ensures Lines(JoinLines(data) + "\n" + rest)
            == seq(|data|, i requires 0 <= i < |data| => data[i] + "\n") + Lines(rest)
  {
    if |data| == 1 {
      LinesFromSkips(data[0], rest, 0);
    } else {
      var more := JoinLines(data[1..]) + "\n" + rest;
      assert JoinLines(data) + "\n" + rest == data[0] + "\n" + more;
      LinesFromSkips(data[0], more, 0);
      JoinedLines(data[1..], rest);
    }
  }

  lemma {:induction false} LinesFromSkips(line: string, rest: string, i: nat)
    requires '\n' !in line && i <= |line|
    ensures LinesFrom(line + "\n" + rest, i) == [line + "\n"] + Lines(rest)
    decreases |line| - i
  {
    var text := line + "\n" + rest;
    if i < |line| {
      assert text[i] == line[i] && line[i] in line;
      LinesFromSkips(line, rest, i + 1);
    } else {
      assert text[..i + 1] == line + "\n" && text[i + 1..] == rest;
    }
  }

  lemma RStripLine(line: string)
    requires NoBreaks(line)
    ensures RStrip(line + "\n", IsBreak) == line
  {
    assert (line + "\n")[..|line|] == line;
  }

  /** Reading a complete line first. */
  lemma ReadFirstLine(r: Reader, line: string, rest: string)
    requires NoBreaks(line)
    ensures ReadLines(r, Lines(line + "\n" + rest)) == ReadLines(ReadLine(r, line + "\n"), Lines(rest))
    ensures RStrip(line + "\n", IsBreak) == line
  {
    LinesFromSkips(line, rest, 0);
    RStripLine(line);
    assert ([line + "\n"] + Lines(rest))[1..] == Lines(rest);
  }

  lemma StripPadded(s: string)
    requires s != "" && !IsSpace(s[0])
    ensures LStrip(" " + s) == s
    ensures !IsSpace(s[|s| - 1]) ==> Strip(" " + s) == s
  {
    assert (" " + s)[1..] == s;
    assert LStrip(" " + s) == LStrip(s);
  }

  lemma ReadIdLine(r: Reader, id: nat)
    ensures NoBreaks("id: " + Decimal(id))
    ensures ReadLine(r, "id: " + Decimal(id) + "\n") == r.(id := id)
  {
    var digits := Decimal(id);
    var line := "id: " + digits;
    RStripLine(line);
    assert line[..1] == "i" && line[..3] == "id:" && line[3..] == " " + digits;
    DigitsNoSpace(digits);
    StripPadded(digits);
    DecimalRoundTrip(id);
    assert ParseInt(digits) == id;
  }

  lemma DigitsNoSpace(s: string)
    requires AllDigits(s)
    ensures NoBreaks(s) && forall i :: 0 <= i < |s| ==> !IsSpace(s[i])
  {
  }

  lemma ReadsEvent(r: Reader, raw: string, line: string)
    requires RStrip(raw, IsBreak) == line && |line| > 6
    requires line[..6] == "event:" && line[..1] == "e" && line[..3] == "eve"
    ensures ReadLine(r, raw) == r.(event := Strip(line[6..]))
  { }

  lemma ReadEventLine(r: Reader, kind: string)
    requires kind != "" && NoBreaks(kind) && !IsSpace(kind[0]) && !IsSpace(kind[|kind| - 1])
    ensures NoBreaks("event: " + kind)
    ensures ReadLine(r, "event: " + kind + "\n") == r.(event := kind)
  {
    var line := "event: " + kind;
    RStripLine(line);
    assert line[..1] == "e" && line[..3] == "eve" && line[..6] == "event:" && line[6..] == " " + kind;
    StripPadded(kind);
    ReadsEvent(r, line + "\n", line);
  }

  lemma ReadDataLine(r: Reader, data: string)
    requires data != "" && NoBreaks(data) && !IsSpace(data[0])
    ensures NoBreaks("data: " + data)
    ensures ReadLine(r, "data: " + data + "\n") == r.(data := r.data + [data])
  {
    var line := "data: " + data;
    RStripLine(line);
    assert line[..1] == "d" && line[..3] == "dat" && |line| > 6 && line[..5] == "data:" && line[5..] == " " + data;
    assert line[..6] == "data: ";
    StripPadded(data);
  }

  lemma ReadBlank(r: Reader)
    ensures ReadLine(r, "" + "\n") == Fresh(DispatchFrame(r))
  {
    RStripLine("");
  }

  lemma WriteCons(a: string, lines: seq<string>, rest: string)
    ensures WriteLines([a] + lines) + "\n" + rest == a + "\n" + (WriteLines(lines) + "\n" + rest)
  {
    assert ([a] + lines)[1..] == lines;
  }

  lemma WriteThree(a: string, b: string, c: string, rest: string)
    ensures WriteLines([a, b, c]) + "\n" + rest
            == a + "\n" + (b + "\n" + (c + "\n" + ("" + "\n" + rest)))
  {
    assert [a, b, c] == [a] + [b, c];
    WriteCons(a, [b, c], rest);
    WriteTwo(b, c, rest);
  }

  lemma WriteTwo(a: string, b: string, rest: string)
    ensures WriteLines([a, b]) + "\n" + rest == a + "\n" + (b + "\n" + ("" + "\n" + rest))
  {
    assert [a, b] == [a] + [b];
    WriteCons(a, [b], rest);
    WriteOne(b, rest);
  }

  lemma WriteOne(a: string, rest: string)
    ensures WriteLines([a]) + "\n" + rest == a + "\n" + ("" + "\n" + rest)
  {
    assert [a] == [a] + [];
    WriteCons(a, [], rest);
  }

  lemma ReadEvent(signals: seq<Signal>, item: Item, rest: string)
    requires item.Event? && Printable(item)
    ensures ReadLines(Fresh(signals), Lines(WriteItem(item) + rest))
            == ReadLines(Fresh(signals + [Dispatch(item.id, item.kind, item.data)]), Lines(rest))
  {
    var a, b, c := "id: " + Decimal(item.id), "event: " + item.kind, "data: " + item.data;
    var r0 := Fresh(signals);
    var r1 := r0.(id := item.id);
    var r2 := r1.(event := item.kind);
    var r3 := r2.(data := r2.data + [item.data]);
    WriteThree(a, b, c, rest);
    ReadIdLine(r0, item.id);
    ReadFirstLine(r0, a, b + "\n" + (c + "\n" + ("" + "\n" + rest)));
    ReadEventLine(r1, item.kind);
    ReadFirstLine(r1, b, c + "\n" + ("" + "\n" + rest));
    ReadDataLine(r2, item.data);
    ReadFirstLine(r2, c, "" + "\n" + rest);
    ReadBlank(r3);
    ReadFirstLine(r3, "", rest);
    assert r3.data == [item.data];
  }

  /** A frame of an event line and a data line. */
  lemma ReadNotice(signals: seq<Signal>, kind: string, data: string, rest: string)
    requires kind != "" && NoBreaks(kind) && !IsSpace(kind[0]) && !IsSpace(kind[|kind| - 1])
    requires data != "" && NoBreaks(data) && !IsSpace(data[0])
    ensures ReadLines(Fresh(signals), Lines(WriteLines(["event: " + kind, "data: " + data]) + "\n" + rest))
            == ReadLines(Fresh(DispatchFrame(Fresh(signals).(event := kind, data := [data]))), Lines(rest))
  {
    var a, b := "event: " + kind, "data: " + data;
    var r0 := Fresh(signals);
    var r1 := r0.(event := kind);
    var r2 := r1.(data := r1.data + [data]);
    WriteTwo(a, b, rest);
    ReadEventLine(r0, kind);
    ReadFirstLine(r0, a, b + "\n" + ("" + "\n" + rest));
    ReadDataLine(r1, data);
    ReadFirstLine(r1, b, "" + "\n" + rest);
    ReadBlank(r2);
    ReadFirstLine(r2, "", rest);
    assert r2.data == [data];
  }

  lemma ReadGap(signals: seq<Signal>, rest: string)
    ensures ReadLines(Fresh(signals), Lines(WriteItem(Gap) + rest))
            == ReadLines(Fresh(signals + [Resync]), Lines(rest))
  {
    ReadNotice(signals, "gap", GAP_DATA, rest);
    assert "event: " + "gap" == "event: gap";
  }

  lemma ReadKeepalive(signals: seq<Signal>, rest: string)
    ensures ReadLines(Fresh(signals), Lines(WriteItem(Keepalive) + rest)) == ReadLines(Fresh(signals), Lines(rest))
  {
    var r := Fresh(signals);
    WriteOne(": keepalive", rest);
    ReadFirstLine(r, ": keepalive", "" + "\n" + rest);
    ReadBlank(r);
    ReadFirstLine(r, "", rest);
  }

  ghost predicate AllPrintable(items: seq<Item>) {
    forall i :: 0 <= i < |items| ==> Printable(items[i])
  }

  lemma ReadItem(signals: seq<Signal>, item: Item, rest: string)
    requires Printable(item)
    ensures ReadLines(Fresh(signals), Lines(WriteItem(item) + rest))
            == ReadLines(Fresh(signals + SignalOf(item)), Lines(rest))
  {
    match item {
      case Event(_, _, _) => ReadEvent(signals, item, rest);
      case Gap => ReadGap(signals, rest);
      case Keepalive => ReadKeepalive(signals, rest); assert signals + SignalOf(item) == signals;
    }
  }

  lemma Regroup(x: string, y: string, z: string)
    ensures (x + y) + z == x + (y + z)
  {
  }

  lemma WriteFirst(items: seq<Item>, rest: string)
    requires items != []
    ensures Write(items) + rest == WriteItem(items[0]) + (Write(items[1..]) + rest)
  {
    Regroup(WriteItem(items[0]), Write(items[1..]), rest);
  }

  lemma SignalsFirst(signals: seq<Signal>, items: seq<Item>)
    requires items != []
    ensures signals + SignalsOf(items) == (signals + SignalOf(items[0])) + SignalsOf(items[1..])
  {
  }

  /** Whole items are recovered, whatever text follows them. */
  lemma {:induction false} ReadItems(signals: seq<Signal>, items: seq<Item>, rest: string)
    requires AllPrintable(items)
    ensures ReadLines(Fresh(signals), Lines(Write(items) + rest))
            == ReadLines(Fresh(signals + SignalsOf(items)), Lines(rest))
    decreases |items|
  {
    if items == [] {
      assert Write(items) + rest == rest && signals + SignalsOf(items) == signals;
    } else {
      WriteFirst(items, rest);
      SignalsFirst(signals, items);
      ReadItem(signals, items[0], Write(items[1..]) + rest);
      ReadItems(signals + SignalOf(items[0]), items[1..], rest);
    }
  }

  /** Every line begins with a character that is not a line break, so no line is blank. */
  ghost predicate NoBlankLine(text: string) {
    && (text != "" ==> !IsBreak(text[0]))
    && forall i :: 0 <= i < |text| - 1 && text[i] == '\n' ==> !IsBreak(text[i + 1])
  }

  lemma {:induction false} RStripKeepsHead(s: string)
    requires s != "" && !IsBreak(s[0])
    ensures RStrip(s, IsBreak) != ""
    decreases |s|
  {
    if IsBreak(s[|s| - 1]) { RStripKeepsHead(s[..|s| - 1]); }
  }

  lemma {:induction false} NoBlankNoSignal(r: Reader, text: string, i: nat)
    requires i <= |text| && NoBlankLine(text) && '\n' !in text[..i]
    ensures ReadLines(r, LinesFrom(text, i)).signals == r.signals
    decreases |text|, |text| - i
  {
    if i == |text| {
      if text != "" { RStripKeepsHead(text); }
    } else if text[i] == '\n' {
      var line, rest := text[..i + 1], text[i + 1..];
      RStripKeepsHead(line);
      NoBlankNoSignal(ReadLine(r, line), rest, 0);
      assert ([line] + LinesFrom(rest, 0))[1..] == LinesFrom(rest, 0);
    } else {
      assert text[..i + 1] == text[..i] + [text[i]];
      NoBlankNoSignal(r, text, i + 1);
    }
  }

  lemma {:induction false} WriteLinesNoBlank(lines: seq<string>)
    requires forall i :: 0 <= i < |lines| ==> GoodLine(lines[i])
    ensures NoBlankLine(WriteLines(lines))
  {
    if lines != [] {
      WriteLinesNoBlank(lines[1..]);
      var rest := WriteLines(lines[1..]);
      var text := lines[0] + "\n" + rest;
      forall i | 0 <= i < |text| - 1 && text[i] == '\n' ensures !IsBreak(text[i + 1]) {
        if i > |lines[0]| { assert rest[i - |lines[0]| - 1] == '\n'; }
      }
    }
  }

  predicate GoodLine(line: string) { line != "" && NoBreaks(line) }

  /** A field line holds no break when its value does not. */
  lemma FieldLine(name: string, value: string)
    requires GoodLine(name) && NoBreaks(value)
    ensures GoodLine(name + value)
  {
  }

  lemma ItemLinesGood(item: Item)
    requires Printable(item)
    ensures forall i :: 0 <= i < |ItemLines(item)| ==> GoodLine(ItemLines(item)[i])
  {
    match item
    case Event(id, kind, data) =>
      assert NoBreaks(Decimal(id));
      FieldLine("id: ", Decimal(id));
      FieldLine("event: ", kind);
      FieldLine("data: ", data);
    case Gap => FieldLine("data: ", GAP_DATA);
    case Keepalive =>
  }

  lemma CutKeepsNoBlank(text: string, cut: nat)
    requires NoBlankLine(text) && cut <= |text|
    ensures NoBlankLine(text[..cut])
  {
  }

  lemma ItemHasNoBlankLine(item: Item, cut: nat)
    requires Printable(item) && cut < |WriteItem(item)|
    ensures NoBlankLine(WriteItem(item)[..cut])
  {
    var text := WriteLines(ItemLines(item));
    ItemLinesGood(item);
    WriteLinesNoBlank(ItemLines(item));
    CutKeepsNoBlank(text, cut);
    assert (text + "\n")[..cut] == text[..cut];
  }

  /**
   * The round trip, for a connection that may be cut anywhere: after `items` whole items and
   * any proper prefix of the next one, the dashboard has seen exactly the signals of `items`.
   */
  lemma RoundTripUnderCut(items: seq<Item>, next: Item, cut: nat)
    requires AllPrintable(items) && Printable(next) && cut < |WriteItem(next)|
    ensures Parse(Write(items) + WriteItem(next)[..cut]) == SignalsOf(items)
  {
    ReadItems([], items, WriteItem(next)[..cut]);
    ItemHasNoBlankLine(next, cut);
    NoBlankNoSignal(Fresh([] + SignalsOf(items)), WriteItem(next)[..cut], 0);
  }

  lemma RoundTrip(items: seq<Item>)
    requires AllPrintable(items)
    ensures Parse(Write(items)) == SignalsOf(items)
  {
    RoundTripUnderCut(items, Keepalive, 0);
    assert Write(items) + WriteItem(Keepalive)[..0] == Write(items);
  }
}
