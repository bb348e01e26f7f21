/** The zone configuration: one boundary line per text line,
    `p0x,p0y,p1x,p1y,r,g,b,testsbelow,show,showcar,label,prohibited`, read by ParseLine and
    loaded all-or-nothing by Config.Load.

    The input string stream is modelled by the text it has not yet delivered: each extraction
    takes a string and returns what it read together with the unread rest. */
module ZoneConfig {
  import opened Wrappers
  import opened Text

  /** The range of a 32-bit `int`; an integer extraction outside it fails. */
  const IntMin: int := -0x8000_0000
  const IntMax: int := 0x7fff_ffff

  /** A boundary coordinate, kept as the numeral text the float extraction accepted.
      The floating-point value it denotes is not modelled. */
  datatype Coordinate = Coordinate(numeral: string)

  datatype Rgb = Rgb(r: int, g: int, b: int)

  /** One zone: a boundary segment from (p0x, p0y) to (p1x, p1y), its display colour, the side
      it tests, two display flags, its label and the labels it prohibits. */
  datatype ConfigEntry = ConfigEntry(
    p0x: Coordinate, p0y: Coordinate, p1x: Coordinate, p1y: Coordinate,
    color: Rgb,
    testsbelow: bool, show: bool, showcar: bool,
    zoneLabel: string,
    prohibited: seq<string>)

  predicate InByte(v: int) {
    0 <= v <= 255
  }

  // ---------------------------------------------------------------------------------------
  // Extractions on the unread text

  /** `isspace` in the "C" locale: space, tab, newline, vertical tab, form feed, carriage return. */
  predicate IsSpace(c: char) {
    c == ' ' || '\t' <= c <= '\r'
  }

  /** What a formatted extraction skips first: the leading whitespace of s. */
  function SkipSpaces(s: string): (t: string)
    ensures |t| <= |s|
    ensures t == [] || !IsSpace(t[0])
  {
    if s != [] && IsSpace(s[0]) then SkipSpaces(s[1..]) else s
  }

  /** The length of the run of decimal digits that starts s. */
  function DigitSpan(s: string): (n: nat)
    ensures n <= |s| && AllDigits(s[..n])
    ensures n < |s| ==> !IsDigit(s[n])
  {
    if s != [] && IsDigit(s[0]) then
      var n := 1 + DigitSpan(s[1..]);
      assert forall k :: 1 <= k < n ==> s[..n][k] == s[1..][..n - 1][k - 1];
      n
    else
      0
  }

  /** `stream >> int`: skip whitespace, then read an integer. */
  function ExtractInt(s: string): (r: Option<(int, string)>)
    ensures r.Some? ==> IntMin <= r.value.0 <= IntMax && |r.value.1| < |s|
  {
    ReadInt(SkipSpaces(s))
  }

  /** An optional sign and the longest run of digits after it. It fails when there is no digit
      or when the value does not fit a 32-bit `int`. */
  function ReadInt(t: string): (r: Option<(int, string)>)
    ensures r.Some? ==> IntMin <= r.value.0 <= IntMax && |r.value.1| < |t|
  {
    var signed := t != [] && (t[0] == '-' || t[0] == '+');
    var u := if signed then t[1..] else t;
    var n := DigitSpan(u);
    if n == 0 then
      None
    else
      var magnitude: int := DigitsValue(u[..n]);
      var v := if signed && t[0] == '-' then -magnitude else magnitude;
      if v < IntMin || IntMax < v then None else Some((v, u[n..]))
  }

  /** The end of an exponent part `e` or `E`, optional sign, digits, starting at f; f itself
      when no such part with at least one digit starts there. */
  function ExponentEnd(t: string, f: nat): (e: nat)
    requires f <= |t|
    ensures f <= e <= |t|
  {
    if f < |t| && (t[f] == 'e' || t[f] == 'E') then
      var g := if f + 1 < |t| && (t[f + 1] == '-' || t[f + 1] == '+') then f + 2 else f + 1;
      var d := DigitSpan(t[g..]);
      if d == 0 then f else g + d
    else
      f
  }

  /** `stream >> float`: skip whitespace, then read a numeral. */
  function ExtractReal(s: string): (r: Option<(Coordinate, string)>)
    ensures r.Some? ==> r.value.0.numeral != [] && |r.value.1| < |s|
  {
    ReadReal(SkipSpaces(s))
  }

  /** The numeral grammar of the float extraction: an optional sign, digits, an optional point
      with digits (at least one digit in all) and an optional exponent. The result is the
      numeral text and the unread rest. */
  function ReadReal(t: string): (r: Option<(Coordinate, string)>)
    ensures r.Some? ==> r.value.0.numeral != [] && |r.value.1| < |t|
  {
    var mantissa := Mantissa(t);
    if mantissa.1 == 0 then
      None
    else
      var e := ExponentEnd(t, mantissa.0);
      Some((Coordinate(t[..e]), t[e..]))
  }

  /** Where the mantissa of t (sign, digits, point, digits) ends, and how many digits it has. */
  function Mantissa(t: string): (r: (nat, nat))
    ensures r.0 <= |t| && r.1 <= r.0
  {
    var a := if t != [] && (t[0] == '-' || t[0] == '+') then 1 else 0;
    var whole := DigitSpan(t[a..]);
    var m := a + whole;
    if m < |t| && t[m] == '.' then
      var frac := DigitSpan(t[m + 1..]);
      (m + 1 + frac, whole + frac)
    else
      (m, whole)
  }

  /** `stream.get() == ','`: the next character, whatever it is, must be a comma. */
  function Comma(s: string): (r: Option<string>)
    ensures r.Some? <==> s != [] && s[0] == ','
    ensures r.Some? ==> s == [','] + r.value
  {
    if s != [] && s[0] == ',' then Some(s[1..]) else None
  }

  // ---------------------------------------------------------------------------------------
  // Fields of a line

  function RealField(s: string): Option<(Coordinate, string)> {
    var x :- ExtractReal(s);
    var rest :- Comma(x.1);
    Some((x.0, rest))
  }

  function IntField(s: string): Option<(int, string)> {
    var x :- ExtractInt(s);
    var rest :- Comma(x.1);
    Some((x.0, rest))
  }

  /** Three integer fields r, g, b; each must lie in 0..255. */
  function ColorFields(s: string): (res: Option<(Rgb, string)>)
    ensures res.Some? ==> InByte(res.value.0.r) && InByte(res.value.0.g) && InByte(res.value.0.b)
  {
    var r :- IntField(s);
    var g :- IntField(r.1);
    var b :- IntField(g.1);
    if !(InByte(r.0) && InByte(g.0) && InByte(b.0)) then None else Some((Rgb(r.0, g.0, b.0), b.1))
  }

  /** An integer field read as a flag: any nonzero value is true. */
  function FlagField(s: string): (r: Option<(bool, string)>)
    ensures r.Some? <==> IntField(s).Some?
    ensures r.Some? ==> r.value.0 == (IntField(s).value.0 != 0) && r.value.1 == IntField(s).value.1
  {
    var v :- IntField(s);
    Some((v.0 != 0, v.1))
  }

  /** `std::getline(stream, token, ',')`: the label runs to the next comma or the end; it must
      not be empty. */
  function LabelField(s: string): (res: Option<(string, string)>)
    ensures res.Some? ==> res.value.0 != [] && ',' !in res.value.0
  {
    var split := SplitAtFirst(s, ',');
    if split.0 == [] then None else Some(split)
  }

  /** The prohibited labels: the pieces of s between '|' separators, empty pieces dropped,
      in order. */
  function Pieces(s: string): (ps: seq<string>)
    ensures forall p :: p in ps ==> p != [] && '|' !in p
    decreases |s|
  {
    if s == [] then
      []
    else
      var split := SplitAtFirst(s, '|');
      (if split.0 == [] then [] else [split.0]) + Pieces(split.1)
  }

  /** The fixed fields of a line, everything before the prohibited labels. */
  datatype Head = Head(
    p0x: Coordinate, p0y: Coordinate, p1x: Coordinate, p1y: Coordinate,
    color: Rgb,
    testsbelow: bool, show: bool, showcar: bool,
    zoneLabel: string)

  /** The four coordinate fields. */
  function CoordFields(s: string): Option<((Coordinate, Coordinate, Coordinate, Coordinate), string)> {
    var x0 :- RealField(s);
    var y0 :- RealField(x0.1);
    var x1 :- RealField(y0.1);
    var y1 :- RealField(x1.1);
    Some(((x0.0, y0.0, x1.0, y1.0), y1.1))
  }

  /** The three flag fields testsbelow, show and showcar. */
  function FlagFields(s: string): Option<((bool, bool, bool), string)> {
    var testsbelow :- FlagField(s);
    var show :- FlagField(testsbelow.1);
    var showcar :- FlagField(show.1);
    Some(((testsbelow.0, show.0, showcar.0), showcar.1))
  }

  /** The extractions of parseLine from the four coordinates to the label, each numeric one
      followed by its comma; the second component is the remaining text of the line, which
      `std::getline(stream, text)` reads up to a newline. */
  function ParseHead(line: string): (r: Option<(Head, string)>)
    ensures r.Some? ==> InByte(r.value.0.color.r) && InByte(r.value.0.color.g) && InByte(r.value.0.color.b)
    ensures r.Some? ==> r.value.0.zoneLabel != [] && ',' !in r.value.0.zoneLabel
    ensures r.Some? ==> '\n' !in r.value.1
  {
    var coords :- CoordFields(line);
    var color :- ColorFields(coords.1);
    var flags :- FlagFields(color.1);
    var name :- LabelField(flags.1);
    var (x0, y0, x1, y1) := coords.0;
    var (testsbelow, show, showcar) := flags.0;
    Some((Head(x0, y0, x1, y1, color.0, testsbelow, show, showcar, name.0),
          SplitAtFirst(name.1, '\n').0))
  }

  function WithProhibited(h: Head, prohibited: seq<string>): ConfigEntry {
    ConfigEntry(h.p0x, h.p0y, h.p1x, h.p1y, h.color, h.testsbelow, h.show, h.showcar,
                h.zoneLabel, prohibited)
  }

  /** The entry a line denotes, or None when the line is rejected. */
  function ParseEntry(line: string): (r: Option<ConfigEntry>)
    ensures r.Some? ==> InByte(r.value.color.r) && InByte(r.value.color.g) && InByte(r.value.color.b)
    ensures r.Some? ==> r.value.zoneLabel != [] && ',' !in r.value.zoneLabel
    ensures r.Some? ==> forall p :: p in r.value.prohibited ==> p != [] && '|' !in p
  {
    var head :- ParseHead(line);
    Some(WithProhibited(head.0, Pieces(head.1)))
  }

  /** The loop of parseLine over `std::getline(pieces, direction, '|')`: every non-empty piece
      is appended, in order. */
  method SplitProhibited(text: string) returns (prohibited: seq<string>)
    ensures prohibited == Pieces(text)
  {
    prohibited := [];
    var unread := text;
    while unread != []
      invariant prohibited + Pieces(unread) == Pieces(text)
      decreases |unread|
    {
      var split := SplitAtFirst(unread, '|');
      if split.0 != [] {
        assert Pieces(unread) == [split.0] + Pieces(split.1);
        assert prohibited + ([split.0] + Pieces(split.1)) == (prohibited + [split.0]) + Pieces(split.1);
        prohibited := prohibited + [split.0];
      } else {
        assert Pieces(unread) == Pieces(split.1);
      }
      unread := split.1;
    }
    assert prohibited + [] == prohibited;
  }

  /** Config::parseLine: the fixed fields, then the prohibited labels of the rest of the line. */
  method ParseLine(line: string) returns (r: Option<ConfigEntry>)
    ensures r == ParseEntry(line)
  {
    var head :- ParseHead(line);
    var prohibited := SplitProhibited(head.1);
    r := Some(WithProhibited(head.0, prohibited));
  }

  // ---------------------------------------------------------------------------------------
  // Loading a whole file

  /** Lines that loadConfig passes over: empty ones and comments. */
  predicate Skipped(line: string) {
    line == [] || line[0] == '#'
  }

  predicate BadLine(line: string) {
    !Skipped(line) && ParseEntry(line).None?
  }

  /** What one line contributes: its entry if it is accepted, nothing otherwise. */
  function LineEntries(line: string): seq<ConfigEntry> {
    if Skipped(line) then []
    else match ParseEntry(line)
      case Some(e) => [e]
      case None => []
  }

  /** The entries of the accepted lines, in file order. */
  function ParsedEntries(lines: seq<string>): seq<ConfigEntry> {
    if lines == [] then [] else ParsedEntries(lines[..|lines| - 1]) + LineEntries(lines[|lines| - 1])
  }

  function HasBadLine(lines: seq<string>): bool {
    lines != [] && (HasBadLine(lines[..|lines| - 1]) || BadLine(lines[|lines| - 1]))
  }

  /** What a load of these lines yields: None if any line that is not skipped is rejected,
      otherwise the entries of all accepted lines. */
  function LoadResult(lines: seq<string>): Option<seq<ConfigEntry>> {
    if HasBadLine(lines) then None else Some(ParsedEntries(lines))
  }

  /** The loader: the current entry list, replaced only by a load that succeeds. */
  class Config {
    var entries: seq<ConfigEntry>

    /** Config(): loads the file once. `None` stands for a file that cannot be opened. */
    constructor (file: Option<seq<string>>)
      ensures entries == if file.Some? && LoadResult(file.value).Some? then LoadResult(file.value).value else []
    {
      entries := [];
      new;
      var _ := Load(file);
    }

    /** Config::GetEntries: a copy of the current list. */
    method GetEntries() returns (snapshot: seq<ConfigEntry>)
      ensures snapshot == entries
    {
      snapshot := entries;
    }

    /** Config::loadConfig: parses every line that is not skipped; if the file could not be
        opened or any such line is rejected the entries are left as they were and the result is
        false, otherwise they are replaced by the accepted entries in file order. */
    method Load(file: Option<seq<string>>) returns (ok: bool)
      modifies this
      ensures ok <==> file.Some? && LoadResult(file.value).Some?
      ensures entries == if ok then LoadResult(file.value).value else old(entries)
    {
      if file.None? {
        return false;
      }
      var lines := file.value;
      var newEntries: seq<ConfigEntry> := [];
      var hasError := false;
      for i := 0 to |lines|
        invariant newEntries == ParsedEntries(lines[..i])
        invariant hasError == HasBadLine(lines[..i])
        invariant entries == old(entries)
      {
        assert lines[..i + 1][..i] == lines[..i];
        var line := lines[i];
        if Skipped(line) {
          continue;
        }
        var entry := ParseLine(line);
        if entry.None? {
          hasError := true;
          continue;
        }
        newEntries := newEntries + [entry.value];
      }
      assert lines[..|lines|] == lines;
      if hasError {
        return false;
      }
      entries := newEntries;
      return true;
    }
  }
}

/** What the reader promises about the lines it accepts and the files it loads. */
module ZoneConfigProperties {
  import opened Wrappers
  import opened Text
  import opened Sequences
  import opened ZoneConfig

  // ---------------------------------------------------------------------------------------
  // Numbers

  lemma {:induction false} SkipSpacesPrefix(ws: string, s: string)
    requires forall k :: 0 <= k < |ws| ==> IsSpace(ws[k])
    ensures SkipSpaces(ws + s) == SkipSpaces(s)
  {
    if ws != [] {
      assert (ws + s)[0] == ws[0] && (ws + s)[1..] == ws[1..] + s;
      SkipSpacesPrefix(ws[1..], s);
    } else {
      assert ws + s == s;
    }
  }

  /** Whitespace in front of a number is skipped: it does not change what is read. */
  lemma LeadingSpacesIgnored(ws: string, s: string)
    requires forall k :: 0 <= k < |ws| ==> IsSpace(ws[k])
    ensures ExtractInt(ws + s) == ExtractInt(s)
    ensures ExtractReal(ws + s) == ExtractReal(s)
    ensures IntField(ws + s) == IntField(s) && RealField(ws + s) == RealField(s)
  {
    SkipSpacesPrefix(ws, s);
  }

  lemma {:induction false} DigitSpanOf(d: string, rest: string)
    requires AllDigits(d)
    requires rest == [] || !IsDigit(rest[0])
    ensures DigitSpan(d + rest) == |d|
    ensures (d + rest)[..|d|] == d && (d + rest)[|d|..] == rest
  {
    if d != [] {
      assert (d + rest)[0] == d[0] && (d + rest)[1..] == d[1..] + rest;
      DigitSpanOf(d[1..], rest);
    } else {
      assert d + rest == rest;
    }
  }

  /** A decimal fraction in an integer slot: the integer extraction stops at the point, and the
      point is not the comma the field needs, so the field is rejected. */
  lemma DecimalInIntSlotRejected(rest: string)
    ensures ExtractInt("12.5" + rest) == Some((12, ".5" + rest))
    ensures IntField("12.5" + rest) == None
  {
    var t := "12.5" + rest;
    assert SkipSpaces(t) == t;
    DigitSpanOf("12", ".5" + rest);
    assert t == "12" + (".5" + rest);
    assert t[..2] == "12" && t[2..] == ".5" + rest;
    assert "12"[..1] == "1" && "1"[..0] == "";
    assert DigitsValue("12") == 12;
  }

  // ---------------------------------------------------------------------------------------
  // Whole lines

  /** A numeral as it may be written for a coordinate: digits, optionally a point and digits. */
  datatype PlainNumeral = PlainNumeral(whole: string, fraction: string)

  predicate ValidNumeral(n: PlainNumeral) {
    n.whole != [] && AllDigits(n.whole) && AllDigits(n.fraction)
  }

  function NumeralText(n: PlainNumeral): string {
    if n.fraction == [] then n.whole else n.whole + "." + n.fraction
  }

  /** The fields of a line as they are written in the file: integers in the colour and flag
      slots, and the raw text after the label. */
  datatype LineFields = LineFields(
    p0x: PlainNumeral, p0y: PlainNumeral, p1x: PlainNumeral, p1y: PlainNumeral,
    r: int, g: int, b: int,
    testsbelow: int, show: int, showcar: int,
    zoneLabel: string, prohibitedText: string)

  function Field(text: string, rest: string): string {
    text + ("," + rest)
  }

  /** The line `p0x,p0y,p1x,p1y,r,g,b,testsbelow,show,showcar,label,prohibited`. */
  function FormatLine(f: LineFields): string {
    Field(NumeralText(f.p0x), Field(NumeralText(f.p0y), Field(NumeralText(f.p1x), Field(NumeralText(f.p1y),
    Field(IntToString(f.r), Field(IntToString(f.g), Field(IntToString(f.b),
    Field(IntToString(f.testsbelow), Field(IntToString(f.show), Field(IntToString(f.showcar),
    Field(f.zoneLabel, f.prohibitedText)))))))))))
  }

  predicate IsInt32(v: int) {
    IntMin <= v <= IntMax
  }

  /** The conditions under which such a line is accepted. */
  predicate Admissible(f: LineFields) {
    && InByte(f.r) && InByte(f.g) && InByte(f.b)
    && IsInt32(f.testsbelow) && IsInt32(f.show) && IsInt32(f.showcar)
    && f.zoneLabel != []
  }

  /** The entry such a line stands for. */
  function Expected(f: LineFields): ConfigEntry {
    ConfigEntry(
      Coordinate(NumeralText(f.p0x)), Coordinate(NumeralText(f.p0y)),
      Coordinate(NumeralText(f.p1x)), Coordinate(NumeralText(f.p1y)),
      Rgb(f.r, f.g, f.b),
      f.testsbelow != 0, f.show != 0, f.showcar != 0,
      f.zoneLabel, Pieces(f.prohibitedText))
  }

  /** The integer extraction reads back the decimal text of a natural number. */
  lemma ReadNatOf(m: nat, rest: string)
    requires rest == [] || !IsDigit(rest[0])
    ensures ReadInt(NatToString(m) + rest) == if m <= IntMax then Some((m, rest)) else None
  {
    var d := NatToString(m);
    assert IsDigit((d + rest)[0]);
    DigitSpanOf(d, rest);
  }

  /** The integer extraction reads back a minus sign and the decimal text of a magnitude. */
  lemma ReadNegativeOf(m: nat, rest: string)
    requires rest == [] || !IsDigit(rest[0])
    ensures ReadInt("-" + NatToString(m) + rest) == if m <= -IntMin then Some((-(m as int), rest)) else None
  {
    var d := NatToString(m);
    var t := "-" + d + rest;
    var u := d + rest;
    assert t[0] == '-' && t[1..] == u;
    DigitSpanOf(d, rest);
    assert DigitsValue(u[..|d|]) == m;
  }

  /** The integer extraction reads back a written integer when it fits 32 bits. */
  lemma ReadIntOf(v: int, rest: string)
    requires rest == [] || !IsDigit(rest[0])
    ensures ReadInt(IntToString(v) + rest) == if IsInt32(v) then Some((v, rest)) else None
  {
    if v < 0 {
      assert IntToString(v) == "-" + NatToString(-v);
      ReadNegativeOf(-v, rest);
    } else {
      assert IntToString(v) == NatToString(v);
      ReadNatOf(v, rest);
    }
  }

  lemma IntFieldOf(v: int, rest: string)
    ensures IntField(Field(IntToString(v), rest)) == if IsInt32(v) then Some((v, rest)) else None
  {
    var t := Field(IntToString(v), rest);
    assert t == IntToString(v) + ("," + rest);
    assert t[0] == IntToString(v)[0];
    assert SkipSpaces(t) == t;
    ReadIntOf(v, "," + rest);
  }

  /** The mantissa of a numeral with a fraction part ends after the fraction digits. */
  lemma MantissaFractionOf(n: PlainNumeral, rest: string)
    requires ValidNumeral(n) && n.fraction != []
    requires rest != [] && rest[0] == ','
    ensures Mantissa(NumeralText(n) + rest).0 == |NumeralText(n)|
    ensures Mantissa(NumeralText(n) + rest).1 > 0
  {
    var t := NumeralText(n) + rest;
    var m := |n.whole|;
    assert NumeralText(n) == n.whole + "." + n.fraction;
    assert |NumeralText(n)| == m + 1 + |n.fraction|;
    assert t == n.whole + ("." + (n.fraction + rest));
    assert IsDigit(t[0]) && t[0..] == t;
    DigitSpanOf(n.whole, "." + (n.fraction + rest));
    assert DigitSpan(t[0..]) == m;
    assert t[m] == '.' && t[m + 1..] == n.fraction + rest;
    DigitSpanOf(n.fraction, rest);
    assert DigitSpan(t[m + 1..]) == |n.fraction|;
  }

  lemma MantissaOf(n: PlainNumeral, rest: string)
    requires ValidNumeral(n)
    requires rest != [] && rest[0] == ','
    ensures Mantissa(NumeralText(n) + rest).0 == |NumeralText(n)|
    ensures Mantissa(NumeralText(n) + rest).1 > 0
  {
    if n.fraction == [] {
      var t := n.whole + rest;
      assert NumeralText(n) == n.whole;
      assert t[0] == n.whole[0] && t[0..] == t;
      DigitSpanOf(n.whole, rest);
      assert t[|n.whole|] == ',';
    } else {
      MantissaFractionOf(n, rest);
    }
  }

  lemma RealFieldOf(n: PlainNumeral, rest: string)
    requires ValidNumeral(n)
    ensures RealField(Field(NumeralText(n), rest)) == Some((Coordinate(NumeralText(n)), rest))
  {
    var t := Field(NumeralText(n), rest);
    var e := |NumeralText(n)|;
    assert t == NumeralText(n) + ("," + rest);
    MantissaOf(n, "," + rest);
    assert t[e] == ',' && ExponentEnd(t, e) == e;
    assert t[..e] == NumeralText(n) && t[e..] == "," + rest;
    assert SkipSpaces(t) == t;
    assert ReadReal(t) == Some((Coordinate(NumeralText(n)), "," + rest));
  }

  lemma LabelFieldOf(name: string, rest: string)
    requires ',' !in name
    ensures LabelField(Field(name, rest)) == if name == [] then None else Some((name, rest))
  {
    assert Field(name, rest) == name + [','] + rest;
    SplitAtFirstToken(name, ',', rest);
  }

  lemma CoordFieldsOf(n0: PlainNumeral, n1: PlainNumeral, n2: PlainNumeral, n3: PlainNumeral, rest: string)
    requires ValidNumeral(n0) && ValidNumeral(n1) && ValidNumeral(n2) && ValidNumeral(n3)
    ensures CoordFields(Field(NumeralText(n0), Field(NumeralText(n1), Field(NumeralText(n2), Field(NumeralText(n3), rest)))))
         == Some(((Coordinate(NumeralText(n0)), Coordinate(NumeralText(n1)),
                   Coordinate(NumeralText(n2)), Coordinate(NumeralText(n3))), rest))
  {
    var s3 := Field(NumeralText(n3), rest);
    var s2 := Field(NumeralText(n2), s3);
    var s1 := Field(NumeralText(n1), s2);
    RealFieldOf(n0, s1);
    RealFieldOf(n1, s2);
    RealFieldOf(n2, s3);
    RealFieldOf(n3, rest);
  }

  /** The colour is r, g, b in that order, and a component outside 0..255 rejects the line. */
  lemma ColorFieldsOf(r: int, g: int, b: int, rest: string)
    ensures ColorFields(Field(IntToString(r), Field(IntToString(g), Field(IntToString(b), rest))))
         == if InByte(r) && InByte(g) && InByte(b) then Some((Rgb(r, g, b), rest)) else None
  {
    var s2 := Field(IntToString(b), rest);
    var s1 := Field(IntToString(g), s2);
    IntFieldOf(r, s1);
    IntFieldOf(g, s2);
    IntFieldOf(b, rest);
  }

  /** Each flag is true exactly when its integer is nonzero. */
  lemma FlagFieldsOf(t: int, s: int, c: int, rest: string)
    ensures FlagFields(Field(IntToString(t), Field(IntToString(s), Field(IntToString(c), rest))))
         == if IsInt32(t) && IsInt32(s) && IsInt32(c) then Some(((t != 0, s != 0, c != 0), rest)) else None
  {
    var s2 := Field(IntToString(c), rest);
    var s1 := Field(IntToString(s), s2);
    IntFieldOf(t, s1);
    IntFieldOf(s, s2);
    IntFieldOf(c, rest);
  }

  /** Reading a line written from its fields gives back those fields: the four numerals, the
      colour in r, g, b order, each flag true exactly when its integer is nonzero, the label, and
      the non-empty '|'-separated pieces of the text after the label (commas included). The line
      is rejected exactly when a colour component is outside 0..255, a flag does not fit an
      `int`, or the label is empty. */
  lemma ParseFormatLine(f: LineFields)
    requires ValidNumeral(f.p0x) && ValidNumeral(f.p0y) && ValidNumeral(f.p1x) && ValidNumeral(f.p1y)
    requires ',' !in f.zoneLabel && '\n' !in f.prohibitedText
    ensures ParseEntry(FormatLine(f)) == if Admissible(f) then Some(Expected(f)) else None
  {
    var s11 := Field(f.zoneLabel, f.prohibitedText);
    var s8 := Field(IntToString(f.testsbelow), Field(IntToString(f.show), Field(IntToString(f.showcar), s11)));
    var s5 := Field(IntToString(f.r), Field(IntToString(f.g), Field(IntToString(f.b), s8)));
    CoordFieldsOf(f.p0x, f.p0y, f.p1x, f.p1y, s5);
    ColorFieldsOf(f.r, f.g, f.b, s8);
    FlagFieldsOf(f.testsbelow, f.show, f.showcar, s11);
    LabelFieldOf(f.zoneLabel, f.prohibitedText);
  }

  // ---------------------------------------------------------------------------------------
  // Prohibited labels

  /** The labels written back with '|' between them. */
  function Join(ps: seq<string>): string {
    if ps == [] then [] else if |ps| == 1 then ps[0] else ps[0] + "|" + Join(ps[1..])
  }

  lemma PiecesOfToken(a: string)
    requires '|' !in a
    ensures Pieces(a) == if a == [] then [] else [a]
  {
  }

  /** Splitting a ... | b at its first separator, when a holds one, leaves b in the rest. */
  lemma SplitAtFirstExtends(a: string, b: string)
    requires '|' in a
    ensures SplitAtFirst(a + "|" + b, '|') == (SplitAtFirst(a, '|').0, SplitAtFirst(a, '|').1 + "|" + b)
  {
    var split := SplitAtFirst(a, '|');
    ConcatAssoc(split.0 + ['|'], split.1, "|");
    ConcatAssoc(split.0 + ['|'], split.1 + "|", b);
    SplitAtFirstToken(split.0, '|', split.1 + "|" + b);
  }

  /** One step of splitting: the first piece (when not empty) and the pieces of the rest. */
  lemma PiecesStep(s: string, first: string, rest: string)
    requires s != [] && SplitAtFirst(s, '|') == (first, rest)
    ensures Pieces(s) == (if first == [] then [] else [first]) + Pieces(rest)
  {
  }

  /** Splitting is compositional: the pieces on either side of a separator, in order. */
  lemma {:induction false} PiecesConcat(a: string, b: string)
    ensures Pieces(a + "|" + b) == Pieces(a) + Pieces(b)
    decreases |a|
  {
    var s := a + "|" + b;
    if '|' in a {
      var split := SplitAtFirst(a, '|');
      var first := if split.0 == [] then [] else [split.0];
      SplitAtFirstExtends(a, b);
      PiecesStep(s, split.0, split.1 + "|" + b);
      PiecesStep(a, split.0, split.1);
      PiecesConcat(split.1, b);
      ConcatAssoc(first, Pieces(split.1), Pieces(b));
    } else {
      assert s != [] && s == a + ['|'] + b;
      SplitAtFirstToken(a, '|', b);
      PiecesStep(s, a, b);
      PiecesOfToken(a);
    }
  }

  /** Non-empty labels without '|' come back in the order they were written, whatever else
      (commas included) they contain. */
  lemma {:induction false} PiecesJoin(ps: seq<string>)
    requires forall p :: p in ps ==> p != [] && '|' !in p
    ensures Pieces(Join(ps)) == ps
  {
    if |ps| == 1 {
      PiecesOfToken(ps[0]);
    } else if |ps| > 1 {
      assert ps[0] in ps;
      assert forall p :: p in ps[1..] ==> p in ps;
      PiecesConcat(ps[0], Join(ps[1..]));
      PiecesOfToken(ps[0]);
      PiecesJoin(ps[1..]);
      assert [ps[0]] + ps[1..] == ps;
    }
  }

  // ---------------------------------------------------------------------------------------
  // Loading

  lemma {:induction false} HasBadLineIff(lines: seq<string>)
    ensures HasBadLine(lines) <==> exists i :: 0 <= i < |lines| && BadLine(lines[i])
  {
    if lines != [] {
      var front := lines[..|lines| - 1];
      HasBadLineIff(front);
      assert forall i :: 0 <= i < |front| ==> front[i] == lines[i];
    }
  }

  lemma {:induction false} ConcatEntries(a: seq<string>, b: seq<string>)
    ensures ParsedEntries(a + b) == ParsedEntries(a) + ParsedEntries(b)
    decreases |b|
  {
    if b == [] {
      assert a + b == a;
    } else {
      var front := b[..|b| - 1];
      assert (a + b)[..|a + b| - 1] == a + front;
      assert (a + b)[|a + b| - 1] == b[|b| - 1];
      ConcatEntries(a, front);
      var pa, pf, last := ParsedEntries(a), ParsedEntries(front), LineEntries(b[|b| - 1]);
      assert (pa + pf) + last == pa + (pf + last);
    }
  }

  lemma {:induction false} ConcatBadLines(a: seq<string>, b: seq<string>)
    ensures HasBadLine(a + b) == (HasBadLine(a) || HasBadLine(b))
    decreases |b|
  {
    if b == [] {
      assert a + b == a;
    } else {
      var front := b[..|b| - 1];
      assert (a + b)[..|a + b| - 1] == a + front;
      assert (a + b)[|a + b| - 1] == b[|b| - 1];
      ConcatBadLines(a, front);
    }
  }

  lemma ConcatLines(a: seq<string>, b: seq<string>)
    ensures ParsedEntries(a + b) == ParsedEntries(a) + ParsedEntries(b)
    ensures HasBadLine(a + b) == (HasBadLine(a) || HasBadLine(b))
  {
    ConcatEntries(a, b);
    ConcatBadLines(a, b);
  }

  /** A load is all-or-nothing and keeps file order: the lines of a + b load exactly when both
      halves do, to the entries of a followed by those of b. */
  lemma LoadConcat(a: seq<string>, b: seq<string>)
    ensures LoadResult(a + b) ==
      if LoadResult(a).Some? && LoadResult(b).Some? then Some(LoadResult(a).value + LoadResult(b).value) else None
  {
    ConcatLines(a, b);
  }

  /** Empty lines and comment lines change nothing. */
  lemma LoadSkipsLine(a: seq<string>, line: string, b: seq<string>)
    requires Skipped(line)
    ensures LoadResult(a + [line] + b) == LoadResult(a + b)
  {
    ConcatLines(a, [line]);
    ConcatLines(a + [line], b);
    ConcatLines(a, b);
    assert [line][..0] == [] && [line][0] == line;
    assert ParsedEntries([line]) == [] && !HasBadLine([line]);
    assert ParsedEntries(a) + [] == ParsedEntries(a);
  }

  /** One rejected line rejects the whole file, wherever it is. */
  lemma LoadRejectsBadLine(lines: seq<string>, i: nat)
    requires i < |lines| && BadLine(lines[i])
    ensures LoadResult(lines) == None
  {
    HasBadLineIff(lines);
  }
}
