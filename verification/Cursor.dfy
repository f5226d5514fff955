/** dashboard/cursor.py: a page cursor is the sort key of the last row, as JSON in base64url
    (section 5 of RFC 4648) without its padding. */
module Cursor {
  import opened Wrappers

  // ---------------------------------------------------------------- base64url

  type Byte = n: nat | n < 256

  function Symbol(value: nat): char
    requires value < 64
  {
    if value < 26 then (65 + value) as char
    else if value < 52 then (97 + value - 26) as char
    else if value < 62 then (48 + value - 52) as char
    else if value == 62 then '-' else '_'
  }

  function ValueOf(c: char): Option<nat> {
    if 'A' <= c <= 'Z' then Some(c as int - 65)
    else if 'a' <= c <= 'z' then Some(c as int - 97 + 26)
    else if '0' <= c <= '9' then Some(c as int - 48 + 52)
    else if c == '-' then Some(62)
    else if c == '_' then Some(63)
    else None
  }

  lemma SymbolsAreRead(value: nat)
    requires value < 64
    ensures ValueOf(Symbol(value)) == Some(value) && Symbol(value) != '='
  {
  }

  /** urlsafe_b64encode */
  function Encode64(bytes: seq<Byte>): string {
    if bytes == [] then ""
    else if |bytes| == 1 then [Symbol(bytes[0] / 4), Symbol(bytes[0] % 4 * 16), '=', '=']
    else if |bytes| == 2 then
      [Symbol(bytes[0] / 4), Symbol(bytes[0] % 4 * 16 + bytes[1] / 16), Symbol(bytes[1] % 16 * 4), '=']
    else
      [Symbol(bytes[0] / 4), Symbol(bytes[0] % 4 * 16 + bytes[1] / 16),
       Symbol(bytes[1] % 16 * 4 + bytes[2] / 64), Symbol(bytes[2] % 64)] + Encode64(bytes[3..])
  }

  function FirstByte(a: nat, b: nat): Byte { (a * 4 + b / 16) % 256 }
  function SecondByte(b: nat, c: nat): Byte { (b % 16 * 16 + c / 4) % 256 }
  function ThirdByte(c: nat, d: nat): Byte { (c % 4 * 64 + d) % 256 }

  /** urlsafe_b64decode of text over the alphabet; padding may only end it. */
  function Decode64(s: string): Option<seq<Byte>> {
    if s == "" then Some([])
    else if |s| < 4 || ValueOf(s[0]).None? || ValueOf(s[1]).None? then None
    else
      var a, b := ValueOf(s[0]).value, ValueOf(s[1]).value;
      var first := FirstByte(a, b);
      if s[2..] == "==" then Some([first])
      else if ValueOf(s[2]).None? then None
      else
        var c := ValueOf(s[2]).value;
        var second := SecondByte(b, c);
        if s[3..] == "=" then Some([first, second])
        else if ValueOf(s[3]).None? then None
        else
          var third := ThirdByte(c, ValueOf(s[3]).value);
          var rest := Decode64(s[4..]);
          if rest.None? then None else Some([first, second, third] + rest.value)
  }

  /** The four symbol values of three bytes. */
  function Group(x: Byte, y: Byte, z: Byte): (nat, nat, nat, nat) {
    (x / 4, x % 4 * 16 + y / 16, y % 16 * 4 + z / 64, z % 64)
  }

  lemma Sixteen(q: nat, r: nat)
    requires r < 16
    ensures (q * 16 + r) / 16 == q && (q * 16 + r) % 16 == r
  {
  }

  lemma Four(q: nat, r: nat)
    requires r < 4
    ensures (q * 4 + r) / 4 == q && (q * 4 + r) % 4 == r
  {
  }

  lemma GroupIsRead(x: Byte, y: Byte, z: Byte)
    ensures var (a, b, c, d) := Group(x, y, z);
            && a < 64 && b < 64 && c < 64 && d < 64
            && FirstByte(a, b) == x && SecondByte(b, c) == y && ThirdByte(c, d) == z
  {
    Sixteen(x % 4, y / 16);
    Four(y % 16, z / 64);
  }

  /** Reading four symbols in front of any text, or the last two or three. */
  lemma FourSymbols(a: nat, b: nat, c: nat, d: nat, rest: string)
    requires a < 64 && b < 64 && c < 64 && d < 64
    ensures var s := [Symbol(a), Symbol(b), Symbol(c), Symbol(d)] + rest;
            Decode64(s) == if Decode64(rest).None? then None
                           else Some([FirstByte(a, b), SecondByte(b, c), ThirdByte(c, d)] + Decode64(rest).value)
  {
    var s := [Symbol(a), Symbol(b), Symbol(c), Symbol(d)] + rest;
    SymbolsAreRead(a);
    SymbolsAreRead(b);
    SymbolsAreRead(c);
    SymbolsAreRead(d);
    assert s[2..][0] == Symbol(c) && s[3..][0] == Symbol(d);
    assert s[4..] == rest;
  }

  lemma ThreeSymbols(a: nat, b: nat, c: nat)
    requires a < 64 && b < 64 && c < 64
    ensures Decode64([Symbol(a), Symbol(b), Symbol(c), '=']) == Some([FirstByte(a, b), SecondByte(b, c)])
  {
    var s := [Symbol(a), Symbol(b), Symbol(c), '='];
    SymbolsAreRead(a);
    SymbolsAreRead(b);
    SymbolsAreRead(c);
    assert s[2..][0] == Symbol(c) && s[3..] == "=";
  }

  lemma TwoSymbols(a: nat, b: nat)
    requires a < 64 && b < 64
    ensures Decode64([Symbol(a), Symbol(b), '=', '=']) == Some([FirstByte(a, b)])
  {
    var s := [Symbol(a), Symbol(b), '=', '='];
    SymbolsAreRead(a);
    SymbolsAreRead(b);
    assert s[2..] == "==";
  }

  /** One full group in front of any text. */
  lemma FullGroup(x: Byte, y: Byte, z: Byte, rest: string)
    ensures var s := Encode64([x, y, z]) + rest;
            Decode64(s) == if Decode64(rest).None? then None else Some([x, y, z] + Decode64(rest).value)
  {
    var (a, b, c, d) := Group(x, y, z);
    GroupIsRead(x, y, z);
    assert Encode64([x, y, z]) == [Symbol(a), Symbol(b), Symbol(c), Symbol(d)] by {
      assert [x, y, z][3..] == [];
    }
    FourSymbols(a, b, c, d, rest);
  }

  lemma OneByte(x: Byte)
    ensures Decode64(Encode64([x])) == Some([x])
  {
    var (a, b, c, d) := Group(x, 0, 0);
    GroupIsRead(x, 0, 0);
    TwoSymbols(a, b);
  }

  lemma PairIsRead(x: Byte, y: Byte, a: nat, b: nat, c: nat)
    requires a == x / 4 && b == x % 4 * 16 + y / 16 && c == y % 16 * 4
    ensures a < 64 && b < 64 && c < 64 && FirstByte(a, b) == x && SecondByte(b, c) == y
  {
    Sixteen(x % 4, y / 16);
    Four(y % 16, 0);
  }

  lemma TwoBytes(x: Byte, y: Byte)
    ensures Decode64(Encode64([x, y])) == Some([x, y])
  {
    var a, b, c := x / 4, x % 4 * 16 + y / 16, y % 16 * 4;
    PairIsRead(x, y, a, b, c);
    ThreeSymbols(a, b, c);
    assert Encode64([x, y]) == [Symbol(a), Symbol(b), Symbol(c), '='];
  }

  lemma FirstGroup(bytes: seq<Byte>)
    requires |bytes| >= 3
    ensures Encode64(bytes) == Encode64(bytes[..3]) + Encode64(bytes[3..]) && |Encode64(bytes[..3])| == 4
    ensures Encode64(bytes[..3])[3] != '='
  {
    assert bytes[..3][3..] == [];
    SymbolsAreRead(bytes[2] % 64);
  }

  lemma {:induction false} Base64RoundTrip(bytes: seq<Byte>)
    ensures Decode64(Encode64(bytes)) == Some(bytes)
  {
    if |bytes| >= 3 {
      FirstGroup(bytes);
      FullGroup(bytes[0], bytes[1], bytes[2], Encode64(bytes[3..]));
      Base64RoundTrip(bytes[3..]);
      assert bytes[..3] == [bytes[0], bytes[1], bytes[2]];
      assert bytes == bytes[..3] + bytes[3..];
    } else if |bytes| == 1 {
      OneByte(bytes[0]);
      assert bytes == [bytes[0]];
    } else if |bytes| == 2 {
      TwoBytes(bytes[0], bytes[1]);
      assert bytes == [bytes[0], bytes[1]];
    }
  }

  /** rstrip("=") */
  function Stripped(s: string): string {
    if s != "" && s[|s| - 1] == '=' then Stripped(s[..|s| - 1]) else s
  }

  /** "=" * (-n % 4) */
  function Padding(n: nat): string {
    match n % 4
    case 1 => "==="
    case 2 => "=="
    case 3 => "="
    case _ => ""
  }

  lemma {:induction false} StrippedAfterText(front: string, back: string)
    requires back != "" && Stripped(back) != ""
    ensures Stripped(front + back) == front + Stripped(back)
  {
    var s := front + back;
    if back[|back| - 1] == '=' {
      assert s[..|s| - 1] == front + back[..|back| - 1];
      StrippedAfterText(front, back[..|back| - 1]);
    }
  }

  lemma LastPadding(bytes: seq<Byte>)
    requires 1 <= |bytes| <= 2
    ensures var stripped := Stripped(Encode64(bytes));
            stripped + Padding(|stripped|) == Encode64(bytes) && stripped != ""
  {
    var s := Encode64(bytes);
    if |bytes| == 1 {
      SymbolsAreRead(bytes[0] % 4 * 16);
      assert s[..3][..2] == s[..2] && s[..2][1] == s[1];
      assert Stripped(s) == Stripped(s[..3]) == Stripped(s[..2]) == s[..2];
    } else {
      SymbolsAreRead(bytes[1] % 16 * 4);
      assert s[..3][2] == s[2];
      assert Stripped(s) == Stripped(s[..3]) == s[..3];
    }
  }

  predicate Restores(s: string) {
    Stripped(s) + Padding(|Stripped(s)|) == s && (s != "" ==> Stripped(s) != "")
  }

  lemma GroupInFront(group: string, rest: string)
    requires |group| == 4 && group[3] != '=' && Restores(rest)
    ensures Restores(group + rest)
  {
    if rest == "" {
      assert group + rest == group;
      assert Stripped(group) == group;
    } else {
      StrippedAfterText(group, rest);
      assert |group + Stripped(rest)| % 4 == |Stripped(rest)| % 4;
      assert (group + Stripped(rest)) + Padding(|Stripped(rest)|) == group + rest;
    }
  }

  /** The padding that was stripped is exactly what the length calls for. */
  lemma {:induction false} PaddingRestores(bytes: seq<Byte>)
    ensures Restores(Encode64(bytes)) && (bytes != [] ==> Encode64(bytes) != "")
  {
    if |bytes| >= 3 {
      FirstGroup(bytes);
      PaddingRestores(bytes[3..]);
      GroupInFront(Encode64(bytes[..3]), Encode64(bytes[3..]));
    } else if bytes != [] {
      LastPadding(bytes);
    }
  }

  // ---------------------------------------------------------------- the JSON text and its two fields

  function DigitChar(d: nat): char
    requires d < 16
  {
    if d < 10 then (48 + d) as char else (97 + d - 10) as char
  }

  function DigitOf(c: char): Option<nat> {
    if '0' <= c <= '9' then Some(c as int - 48)
    else if 'a' <= c <= 'f' then Some(c as int - 97 + 10)
    else None
  }

  datatype Base = Decimal | Hexadecimal

  function Radix(base: Base): nat {
    if base.Decimal? then 10 else 16
  }

  function Shifted(base: Base, n: nat): nat {
    if base.Decimal? then n * 10 else n * 16
  }

  /** n has at most `width` digits. */
  predicate Fits(base: Base, n: nat, width: nat) {
    if width == 0 then n == 0 else Fits(base, n / Radix(base), width - 1)
  }

  function Digits(base: Base, n: nat, width: nat): (s: string)
    ensures |s| == width
  {
    if width == 0 then "" else Digits(base, n / Radix(base), width - 1) + [DigitChar(n % Radix(base))]
  }

  function Number(base: Base, s: string): Option<nat> {
    if s == "" then Some(0)
    else
      var front, last := Number(base, s[..|s| - 1]), DigitOf(s[|s| - 1]);
      if front.None? || last.None? || last.value >= Radix(base) then None
      else Some(Shifted(base, front.value) + last.value)
  }

  lemma NumberOneMore(base: Base, front: string, q: nat, d: nat)
    requires Number(base, front) == Some(q) && d < Radix(base)
    ensures Number(base, front + [DigitChar(d)]) == Some(Shifted(base, q) + d)
  {
    var s := front + [DigitChar(d)];
    assert s[..|s| - 1] == front && s[|s| - 1] == DigitChar(d);
    DigitIsRead(base, d);
  }

  lemma {:induction false} NumberOfDigits(base: Base, n: nat, width: nat)
    requires Fits(base, n, width)
    ensures Number(base, Digits(base, n, width)) == Some(n)
  {
    if width > 0 {
      var q, d := n / Radix(base), n % Radix(base);
      QuotientAndDigit(base, n);
      NumberOfDigits(base, q, width - 1);
      NumberOneMore(base, Digits(base, q, width - 1), q, d);
    }
  }

  lemma DigitIsRead(base: Base, d: nat)
    requires d < Radix(base)
    ensures DigitOf(DigitChar(d)) == Some(d)
  {
  }

  lemma QuotientAndDigit(base: Base, n: nat)
    ensures Shifted(base, n / Radix(base)) + n % Radix(base) == n && n % Radix(base) < Radix(base)
  {
    if base.Decimal? {
      assert n == n / 10 * 10 + n % 10;
    } else {
      assert n == n / 16 * 16 + n % 16;
    }
  }

  lemma {:induction false} DigitsAreClean(base: Base, n: nat, width: nat)
    ensures Clean(Digits(base, n, width))
  {
    if width > 0 {
      DigitsAreClean(base, n / Radix(base), width - 1);
    }
  }

  /** Text that JSON leaves as it is. */
  predicate Clean(s: string) {
    forall i :: 0 <= i < |s| ==> 32 <= s[i] as int < 128 && s[i] != '"' && s[i] != '\\'
  }

  /** Numbers in fixed columns, each followed by one separator. */
  datatype Column = Column(base: Base, width: nat, separator: string)

  function Layout(columns: seq<Column>, values: seq<nat>): string
    requires |values| == |columns|
  {
    if columns == [] then ""
    else Digits(columns[0].base, values[0], columns[0].width) + columns[0].separator + Layout(columns[1..], values[1..])
  }

  function Scan(columns: seq<Column>, s: string): Option<seq<nat>> {
    if columns == [] then if s == "" then Some([]) else None
    else
      var column := columns[0];
      var end := column.width + |column.separator|;
      if |s| < end || s[column.width..end] != column.separator then None
      else
        var first, rest := Number(column.base, s[..column.width]), Scan(columns[1..], s[end..]);
        if first.None? || rest.None? then None else Some([first.value] + rest.value)
  }

  predicate AllFit(columns: seq<Column>, values: seq<nat>)
  {
    |values| == |columns| && forall i :: 0 <= i < |values| ==> Fits(columns[i].base, values[i], columns[i].width)
  }

  function Width(columns: seq<Column>): nat {
    if columns == [] then 0 else columns[0].width + |columns[0].separator| + Width(columns[1..])
  }

  lemma {:induction false} ScanOfLayout(columns: seq<Column>, values: seq<nat>)
    requires AllFit(columns, values)
    ensures Scan(columns, Layout(columns, values)) == Some(values)
    ensures |Layout(columns, values)| == Width(columns)
  {
    if columns != [] {
      var column, s := columns[0], Layout(columns, values);
      var end := column.width + |column.separator|;
      assert s == (Digits(column.base, values[0], column.width) + column.separator) + Layout(columns[1..], values[1..]);
      assert s[..column.width] == Digits(column.base, values[0], column.width);
      assert s[column.width..end] == column.separator;
      assert s[end..] == Layout(columns[1..], values[1..]);
      NumberOfDigits(column.base, values[0], column.width);
      ScanOfLayout(columns[1..], values[1..]);
      assert [values[0]] + values[1..] == values;
    }
  }

  lemma {:induction false} LayoutIsClean(columns: seq<Column>, values: seq<nat>)
    requires |values| == |columns| && (forall i :: 0 <= i < |columns| ==> Clean(columns[i].separator))
    ensures Clean(Layout(columns, values))
  {
    if columns != [] {
      DigitsAreClean(columns[0].base, values[0], columns[0].width);
      LayoutIsClean(columns[1..], values[1..]);
    }
  }

  /** A timestamp in UTC as isoformat writes it; microseconds appear only when there are any. */
  const SECONDS: seq<Column> := [
    Column(Decimal, 4, "-"), Column(Decimal, 2, "-"), Column(Decimal, 2, "T"),
    Column(Decimal, 2, ":"), Column(Decimal, 2, ":"), Column(Decimal, 2, "+00:00")]
  const MICROSECONDS: seq<Column> := [
    Column(Decimal, 4, "-"), Column(Decimal, 2, "-"), Column(Decimal, 2, "T"),
    Column(Decimal, 2, ":"), Column(Decimal, 2, ":"), Column(Decimal, 2, "."), Column(Decimal, 6, "+00:00")]
  const UUID: seq<Column> := [
    Column(Hexadecimal, 8, "-"), Column(Hexadecimal, 4, "-"), Column(Hexadecimal, 4, "-"),
    Column(Hexadecimal, 4, "-"), Column(Hexadecimal, 12, "")]

  /** Year to microsecond, and the five groups of an id. */
  datatype Position = Position(time: seq<nat>, id: seq<nat>)

  predicate ValidPosition(p: Position) {
    AllFit(MICROSECONDS, p.time) && AllFit(UUID, p.id)
  }

  function TimeText(time: seq<nat>): string
    requires |time| == 7
  {
    if time[6] == 0 then Layout(SECONDS, time[..6]) else Layout(MICROSECONDS, time)
  }

  function ReadTime(s: string): Option<seq<nat>> {
    if |s| == Width(SECONDS) then
      var time := Scan(SECONDS, s);
      if time.None? then None else Some(time.value + [0])
    else Scan(MICROSECONDS, s)
  }

  const OPENING := "{\"timestamp\":\""
  const MIDDLE := "\",\"id\":\""
  const CLOSING := "\"}"

  function Json(timestamp: string, id: string): string {
    OPENING + timestamp + MIDDLE + id + CLOSING
  }

  /** A string up to its closing quote, and the rest from that quote on. */
  function UpToQuote(s: string): Option<(string, string)> {
    if s == "" then None
    else if s[0] == '"' then Some(("", s))
    else
      var rest := UpToQuote(s[1..]);
      if rest.None? then None else Some(([s[0]] + rest.value.0, rest.value.1))
  }

  lemma {:induction false} QuoteIsFound(text: string, rest: string)
    requires Clean(text) && rest != "" && rest[0] == '"'
    ensures UpToQuote(text + rest) == Some((text, rest))
  {
    if text == "" {
      assert text + rest == rest;
    } else {
      QuoteIsFound(text[1..], rest);
      assert (text + rest)[1..] == text[1..] + rest && (text + rest)[0] == text[0];
      assert [text[0]] + text[1..] == text;
    }
  }

  /** json.loads of an object in the form encode_cursor writes. */
  function ReadJson(s: string): Option<(string, string)> {
    if !(OPENING <= s) then None
    else
      var timestamp := UpToQuote(s[|OPENING|..]);
      if timestamp.None? || !(MIDDLE <= timestamp.value.1) then None
      else
        var id := UpToQuote(timestamp.value.1[|MIDDLE|..]);
        if id.None? || id.value.1 != CLOSING then None else Some((timestamp.value.0, id.value.0))
  }

  lemma JsonRoundTrip(timestamp: string, id: string)
    requires Clean(timestamp) && Clean(id)
    ensures ReadJson(Json(timestamp, id)) == Some((timestamp, id))
  {
    var s := Json(timestamp, id);
    assert s == OPENING + (timestamp + (MIDDLE + (id + CLOSING)));
    QuoteIsFound(timestamp, MIDDLE + (id + CLOSING));
    assert s[|OPENING|..] == timestamp + (MIDDLE + (id + CLOSING));
    assert (MIDDLE + (id + CLOSING))[|MIDDLE|..] == id + CLOSING;
    QuoteIsFound(id, CLOSING);
  }

  predicate Ascii(s: string) {
    forall i :: 0 <= i < |s| ==> s[i] as int < 128
  }

  function Bytes(s: string): seq<Byte>
    requires Ascii(s)
  {
    seq(|s|, i requires 0 <= i < |s| => (s[i] as int) as Byte)
  }

  function Chars(bytes: seq<Byte>): string {
    seq(|bytes|, i requires 0 <= i < |bytes| => bytes[i] as char)
  }

  lemma TextsAreClean(p: Position)
    requires ValidPosition(p)
    ensures Clean(TimeText(p.time)) && Clean(Layout(UUID, p.id))
    ensures Ascii(Json(TimeText(p.time), Layout(UUID, p.id)))
  {
    LayoutIsClean(SECONDS, p.time[..6]);
    LayoutIsClean(MICROSECONDS, p.time);
    LayoutIsClean(UUID, p.id);
  }

  function EncodeCursor(p: Position): string
    requires ValidPosition(p)
  {
    TextsAreClean(p);
    Stripped(Encode64(Bytes(Json(TimeText(p.time), Layout(UUID, p.id)))))
  }

  /** None for "invalid pagination cursor". */
  function DecodeCursor(cursor: string): Option<Position> {
    var bytes := Decode64(cursor + Padding(|cursor|));
    if bytes.None? then None
    else
      var fields := ReadJson(Chars(bytes.value));
      if fields.None? then None
      else
        var time, id := ReadTime(fields.value.0), Scan(UUID, fields.value.1);
        if time.None? || id.None? then None else Some(Position(time.value, id.value))
  }

  lemma TimeRoundTrip(time: seq<nat>)
    requires AllFit(MICROSECONDS, time)
    ensures ReadTime(TimeText(time)) == Some(time)
  {
    if time[6] == 0 {
      assert AllFit(SECONDS, time[..6]) by {
        assert forall i :: 0 <= i < 6 ==> SECONDS[i].base == MICROSECONDS[i].base && SECONDS[i].width == MICROSECONDS[i].width;
      }
      ScanOfLayout(SECONDS, time[..6]);
      assert time[..6] + [0] == time;
    } else {
      ScanOfLayout(MICROSECONDS, time);
      Widths();
    }
  }

  lemma Widths()
    ensures Width(SECONDS) == 25 && Width(MICROSECONDS) == 32
  {
    assert Width(MICROSECONDS[6..]) == 12 && Width(SECONDS[5..]) == 8;
    assert Width(MICROSECONDS[5..]) == 3 + 12 && Width(SECONDS[4..]) == 3 + 8;
    assert Width(MICROSECONDS[4..]) == 6 + 12 && Width(SECONDS[3..]) == 6 + 8;
    assert Width(MICROSECONDS[3..]) == 9 + 12 && Width(SECONDS[2..]) == 9 + 8;
    assert Width(MICROSECONDS[2..]) == 12 + 12 && Width(SECONDS[1..]) == 12 + 8;
    assert Width(MICROSECONDS[1..]) == 15 + 12;
  }

  /** Every cursor handed out is read back as the position it was made from, and none is empty. */
  lemma CursorRoundTrip(p: Position)
    requires ValidPosition(p)
    ensures DecodeCursor(EncodeCursor(p)) == Some(p) && EncodeCursor(p) != ""
  {
    TextsAreClean(p);
    var raw := Json(TimeText(p.time), Layout(UUID, p.id));
    var bytes := Bytes(raw);
    PaddingRestores(bytes);
    Base64RoundTrip(bytes);
    assert Chars(bytes) == raw;
    JsonRoundTrip(TimeText(p.time), Layout(UUID, p.id));
    TimeRoundTrip(p.time);
    ScanOfLayout(UUID, p.id);
  }
}
