/** The timeline cursor and its text form (`src/timeline.rs`).  A character stands for one
    byte of the text. */
module Cursor {
  import opened Model

  datatype Cursor = Cursor(revision: nat, occurredAt: Time, eventId: Uuid)

  datatype Result<+T> = Ok(value: T) | Err

  /** The whole seconds that the calendar library can represent. */
  datatype SecondsRange = SecondsRange(first: int, last: int)

  const I64_LIMIT: int := 0x8000_0000_0000_0000
  const UUID_LIMIT: nat := 0x1_0000_0000_0000_0000_0000_0000_0000_0000
  const NANOS_PER_SECOND: nat := 1_000_000_000

  ghost predicate InWord(range: SecondsRange) {
    -I64_LIMIT <= range.first && range.last < I64_LIMIT
  }

  /** The cursors that the source's types can hold. */
  ghost predicate Representable(range: SecondsRange, c: Cursor) {
    && c.revision < U64_LIMIT && c.eventId < UUID_LIMIT
    && range.first <= Seconds(c.occurredAt) <= range.last
  }

  // ---------- fixed-width hexadecimal ----------

  function Pow16(w: nat): nat {
    if w == 0 then 1 else 16 * Pow16(w - 1)
  }

  function Digit(d: nat): char
    requires d < 16
  {
    "0123456789abcdef"[d]
  }

  function Hex(n: nat, width: nat): (s: string)
    ensures |s| == width
  {
    if width == 0 then "" else Hex(n / 16, width - 1) + [Digit(n % 16)]
  }

  /** Both letter cases are accepted. */
  function DigitValue(c: char): Option<nat> {
    if '0' <= c <= '9' then Some(c as nat - '0' as nat)
    else if 'a' <= c <= 'f' then Some(c as nat - 'a' as nat + 10)
    else if 'A' <= c <= 'F' then Some(c as nat - 'A' as nat + 10)
    else None
  }

  function HexDigits(s: string): Option<nat> {
    if s == "" then Some(0)
    else
      match (HexDigits(s[..|s| - 1]), DigitValue(s[|s| - 1]))
      case (Some(high), Some(low)) => Some(16 * high + low)
      case _ => None
  }

  /** `from_str_radix(_, 16)` on an unsigned type also accepts a leading plus. */
  function FromStrRadix(s: string): Option<nat> {
    if s == "" then None
    else if s[0] == '+' then (if |s| == 1 then None else HexDigits(s[1..]))
    else HexDigits(s)
  }

  lemma DigitRoundTrip(d: nat)
    requires d < 16
    ensures DigitValue(Digit(d)) == Some(d) && Digit(d) != '.' && Digit(d) != '+'
  {}

  lemma {:induction false} HexRoundTrip(n: nat, width: nat)
    requires n < Pow16(width)
    ensures HexDigits(Hex(n, width)) == Some(n)
  {
    if width > 0 {
      HexRoundTrip(n / 16, width - 1);
      DigitRoundTrip(n % 16);
      var s := Hex(n, width);
      assert s[..|s| - 1] == Hex(n / 16, width - 1);
    }
  }

  lemma {:induction false} HexIsPlain(n: nat, width: nat)
    ensures '.' !in Hex(n, width) && '+' !in Hex(n, width)
  {
    if width > 0 {
      HexIsPlain(n / 16, width - 1);
      DigitRoundTrip(n % 16);
    }
  }

  lemma WordSizes()
    ensures Pow16(8) == 0x1_0000_0000 && Pow16(16) == U64_LIMIT && Pow16(32) == UUID_LIMIT
  {
    Pow16Doubles(1); Pow16Doubles(2); Pow16Doubles(4); Pow16Doubles(8); Pow16Doubles(16);
    assert Pow16(1) == 16;
    assert Pow16(2) == 0x100;
    assert Pow16(4) == 0x1_0000;
  }

  lemma Pow16Doubles(w: nat)
    ensures Pow16(2 * w) == Pow16(w) * Pow16(w)
  {
    Pow16Adds(w, w);
  }

  lemma {:induction false} Pow16Adds(v: nat, w: nat)
    ensures Pow16(v + w) == Pow16(v) * Pow16(w)
  {
    if v > 0 {
      Pow16Adds(v - 1, w);
      assert 16 * (Pow16(v - 1) * Pow16(w)) == (16 * Pow16(v - 1)) * Pow16(w);
    }
  }

  // ---------- fields ----------

  function Split(s: string): (r: seq<string>)
    ensures |r| > 0
  {
    if s == "" then [""]
    else if s[0] == '.' then [""] + Split(s[1..])
    else
      var rest := Split(s[1..]);
      [[s[0]] + rest[0]] + rest[1..]
  }

  lemma {:induction false} SplitField(field: string, rest: string)
    requires '.' !in field
    ensures Split(field + "." + rest) == [field] + Split(rest)
  {
    var s := field + "." + rest;
    if field == "" {
      assert s[1..] == rest;
    } else {
      SplitField(field[1..], rest);
      assert s[1..] == field[1..] + "." + rest;
      assert [field[0]] + field[1..] == field;
      assert ([field[1..]] + Split(rest))[1..] == Split(rest);
    }
  }

  lemma {:induction false} SplitLast(field: string)
    requires '.' !in field
    ensures Split(field) == [field]
  {
    if field != "" {
      SplitLast(field[1..]);
      assert [field[0]] + field[1..] == field;
    }
  }

  // ---------- the cursor ----------

  /** `seconds as u64`: two's complement. */
  function SecondsBits(seconds: int): (bits: nat)
    requires -I64_LIMIT <= seconds < I64_LIMIT
    ensures bits < U64_LIMIT
  {
    if seconds < 0 then seconds + U64_LIMIT else seconds
  }

  /** `bits as i64`. */
  function BitsSeconds(bits: nat): int {
    if bits < I64_LIMIT then bits else bits - U64_LIMIT
  }

  function TimeOf(seconds: int, nanos: nat): Time {
    seconds * NANOS_PER_STEP + nanos
  }

  function Encode(c: Cursor): string
    requires -I64_LIMIT <= Seconds(c.occurredAt) < I64_LIMIT
  {
    "v1" + "." + (Hex(c.revision, 16) + "." + (Hex(SecondsBits(Seconds(c.occurredAt)), 16) + "."
    + (Hex(Nanos(c.occurredAt), 8) + "." + Hex(c.eventId, 32))))
  }

  function ParseFields(range: SecondsRange, fields: seq<string>): Result<Cursor> {
    if |fields| != 5 || fields[0] != "v1" then Err
    else if |fields[1]| != 16 || |fields[2]| != 16 || |fields[3]| != 8 || |fields[4]| != 32 then Err
    else
      match (FromStrRadix(fields[1]), FromStrRadix(fields[2]), FromStrRadix(fields[3]), HexDigits(fields[4]))
      case (Some(revision), Some(bits), Some(nanos), Some(id)) =>
        if nanos >= NANOS_PER_SECOND then Err
        else if !(range.first <= BitsSeconds(bits) <= range.last) then Err
        else Ok(Cursor(revision, TimeOf(BitsSeconds(bits), nanos), id))
      case _ => Err
  }

  function Parse(range: SecondsRange, text: string): Result<Cursor> {
    if |text| > 96 then Err else ParseFields(range, Split(text))
  }

  lemma EncodedFields(range: SecondsRange, c: Cursor)
    requires InWord(range) && Representable(range, c)
    ensures |Encode(c)| == 78
    ensures Split(Encode(c)) ==
            ["v1", Hex(c.revision, 16), Hex(SecondsBits(Seconds(c.occurredAt)), 16), Hex(Nanos(c.occurredAt), 8),
             Hex(c.eventId, 32)]
  {
    var a, b := Hex(c.revision, 16), Hex(SecondsBits(Seconds(c.occurredAt)), 16);
    var n, u := Hex(Nanos(c.occurredAt), 8), Hex(c.eventId, 32);
    HexIsPlain(c.revision, 16);
    HexIsPlain(SecondsBits(Seconds(c.occurredAt)), 16);
    HexIsPlain(Nanos(c.occurredAt), 8);
    HexIsPlain(c.eventId, 32);
    hide Hex, Split, SecondsBits;
    SplitLast(u);
    SplitField(n, u);
    SplitField(b, n + "." + u);
    SplitField(a, b + "." + (n + "." + u));
    SplitField("v1", a + "." + (b + "." + (n + "." + u)));
  }

  lemma HexParses(n: nat, width: nat)
    requires n < Pow16(width) && width > 0
    ensures HexDigits(Hex(n, width)) == Some(n) && FromStrRadix(Hex(n, width)) == Some(n)
  {
    HexRoundTrip(n, width);
    HexIsPlain(n, width);
    assert Hex(n, width)[0] in Hex(n, width);
  }

  lemma TimeParts(t: Time)
    ensures TimeOf(Seconds(t), Nanos(t)) == t
  {}

  lemma BitsRoundTrip(seconds: int)
    requires -I64_LIMIT <= seconds < I64_LIMIT
    ensures BitsSeconds(SecondsBits(seconds)) == seconds
  {}

  /** Parsing undoes encoding exactly on cursors outside leap seconds; the cursor of an
      event inside one is refused. */
  lemma ParseUndoesEncode(range: SecondsRange, c: Cursor)
    requires InWord(range) && Representable(range, c)
    ensures Parse(range, Encode(c)) == if Nanos(c.occurredAt) < NANOS_PER_SECOND then Ok(c) else Err
  {
    var seconds, nanos := Seconds(c.occurredAt), Nanos(c.occurredAt);
    EncodedFields(range, c);
    WordSizes();
    hide Pow16, Hex, Split, HexDigits, FromStrRadix, SecondsBits, BitsSeconds, TimeOf, Seconds, Nanos;
    HexParses(c.revision, 16);
    HexParses(SecondsBits(seconds), 16);
    HexParses(nanos, 8);
    HexParses(c.eventId, 32);
    BitsRoundTrip(seconds);
    TimeParts(c.occurredAt);
  }

  /** Different cursors have different texts. */
  lemma EncodeIsInjective(range: SecondsRange, c: Cursor, d: Cursor)
    requires InWord(range) && Representable(range, c) && Representable(range, d)
    requires Encode(c) == Encode(d)
    ensures c == d
  {
    EncodedFields(range, c);
    EncodedFields(range, d);
    WordSizes();
    CursorFromFields(range, c, d);
  }

  lemma CursorFromFields(range: SecondsRange, c: Cursor, d: Cursor)
    requires InWord(range) && Representable(range, c) && Representable(range, d)
    requires Pow16(8) == 0x1_0000_0000 && Pow16(16) == U64_LIMIT && Pow16(32) == UUID_LIMIT
    requires Hex(c.revision, 16) == Hex(d.revision, 16) && Hex(c.eventId, 32) == Hex(d.eventId, 32)
    requires Hex(SecondsBits(Seconds(c.occurredAt)), 16) == Hex(SecondsBits(Seconds(d.occurredAt)), 16)
    requires Hex(Nanos(c.occurredAt), 8) == Hex(Nanos(d.occurredAt), 8)
    ensures c == d
  {
    hide Pow16, Hex, SecondsBits, BitsSeconds, TimeOf, Seconds, Nanos, HexDigits;
    HexRoundTrip(c.revision, 16);
    HexRoundTrip(d.revision, 16);
    HexRoundTrip(c.eventId, 32);
    HexRoundTrip(d.eventId, 32);
    HexRoundTrip(SecondsBits(Seconds(c.occurredAt)), 16);
    HexRoundTrip(SecondsBits(Seconds(d.occurredAt)), 16);
    HexRoundTrip(Nanos(c.occurredAt), 8);
    HexRoundTrip(Nanos(d.occurredAt), 8);
    BitsRoundTrip(Seconds(c.occurredAt));
    BitsRoundTrip(Seconds(d.occurredAt));
    TimeParts(c.occurredAt);
    TimeParts(d.occurredAt);
  }

  lemma {:induction false} HexDigitsFit(s: string)
    ensures HexDigits(s).Some? ==> HexDigits(s).value < Pow16(|s|)
  {
    if s != "" {
      HexDigitsFit(s[..|s| - 1]);
    }
  }

  lemma FromStrRadixFits(s: string)
    ensures FromStrRadix(s).Some? ==> FromStrRadix(s).value < Pow16(|s|)
  {
    HexDigitsFit(s);
    if s != "" { HexDigitsFit(s[1..]); }
  }

  /** Whatever text is accepted, its cursor is representable and encodes to a text that
      parses back to it. */
  lemma ParsedCursorsRoundTrip(range: SecondsRange, text: string)
    requires InWord(range)
    ensures match Parse(range, text)
            case Ok(c) => Representable(range, c) && Parse(range, Encode(c)) == Ok(c)
            case Err => true
  {
    var fields := Split(text);
    WordSizes();
    if Parse(range, text).Ok? {
      FromStrRadixFits(fields[1]);
      FromStrRadixFits(fields[2]);
      FromStrRadixFits(fields[3]);
      HexDigitsFit(fields[4]);
      hide Pow16, FromStrRadix, HexDigits, Split, Encode;
      var c := Parse(range, text).value;
      var bits, nanos := FromStrRadix(fields[2]).value, FromStrRadix(fields[3]).value;
      TimePartsOf(BitsSeconds(bits), nanos);
      ParseUndoesEncode(range, c);
    }
  }

  lemma TimePartsOf(seconds: int, nanos: nat)
    requires nanos < NANOS_PER_SECOND
    ensures Seconds(TimeOf(seconds, nanos)) == seconds && Nanos(TimeOf(seconds, nanos)) == nanos
  {}
}
