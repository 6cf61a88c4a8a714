/** account_history.py: the JSON text of a request, whose size decides what it carries. */
module HistoryWire {
  import opened Wrappers
  import opened AccountHistory

  /** How a number is written. */
  type Numeral = real -> string

  function Digit(n: nat): (c: char)
    requires n < 16
    ensures '0' <= c <= 'f'
  {
    "0123456789abcdef"[n]
  }

  function Unit(n: nat): string
    requires n < 0x1_0000
  {
    ['\\', 'u', Digit(n / 4096), Digit(n / 256 % 16), Digit(n / 16 % 16), Digit(n % 16)]
  }

  /** A character in an ASCII JSON string; one beyond the basic plane is a pair of surrogates. */
  function Escape(c: char): string {
    var n := c as int;
    if c == '"' then "\\\""
    else if c == '\\' then "\\\\"
    else if n == 8 then "\\b"
    else if n == 9 then "\\t"
    else if n == 10 then "\\n"
    else if n == 12 then "\\f"
    else if n == 13 then "\\r"
    else if 0x20 <= n < 0x7f then [c]
    else if n < 0x1_0000 then Unit(n)
    else Unit(0xd800 + (n - 0x1_0000) / 1024) + Unit(0xdc00 + (n - 0x1_0000) % 1024)
  }

  function Escaped(s: string): string {
    if s == [] then "" else Escape(s[0]) + Escaped(s[1..])
  }

  function Quoted(s: string): string {
    "\"" + Escaped(s) + "\""
  }

  function Decimal(n: nat): string {
    if n < 10 then [Digit(n)] else Decimal(n / 10) + [Digit(n % 10)]
  }

  function Joined(parts: seq<string>): string {
    if parts == [] then ""
    else if |parts| == 1 then parts[0]
    else parts[0] + ", " + Joined(parts[1..])
  }

  function WireText(numeral: Numeral, w: Wire): string {
    "{\"id\": " + Quoted(w.id) + ", \"createdAt\": " + numeral(w.createdAt)
    + ", \"transcript\": " + Quoted(w.transcript) + ", \"text\": " + Quoted(w.text)
    + ", \"rewritten\": " + (if w.rewritten then "true" else "false")
    + ", \"sourceDevice\": " + Quoted(w.sourceDevice) + "}"
  }

  function WireTexts(numeral: Numeral, ws: seq<Wire>): seq<string> {
    seq(|ws|, i requires 0 <= i < |ws| => WireText(numeral, ws[i]))
  }

  function IdTexts(ids: seq<Id>): seq<string> {
    seq(|ids|, i requires 0 <= i < |ids| => Quoted(ids[i]))
  }

  function BatchText(numeral: Numeral, b: Batch): string {
    "{\"cursor\": " + Decimal(b.cursor) + ", \"upserts\": [" + Joined(WireTexts(numeral, b.upserts)) + "]"
    + ", \"deletes\": [" + Joined(IdTexts(b.deletes)) + "]}"
  }

  lemma {:induction false} EscapedSize(s: string)
    ensures |Escaped(s)| == JsonChars(s)
  {
    if s != [] {
      EscapedSize(s[1..]);
    }
  }

  lemma QuotedSize(s: string)
    ensures |Quoted(s)| == JsonString(s)
  {
    EscapedSize(s);
  }

  lemma {:induction false} DecimalSize(n: nat)
    ensures |Decimal(n)| == Digits(n)
  {
    if n >= 10 {
      DecimalSize(n / 10);
    }
  }

  lemma WireSize(numeral: Numeral, w: Wire)
    ensures |WireText(numeral, w)| == JsonWire(t => |numeral(t)|, w)
  {
    hide Quoted, JsonString;
    QuotedSize(w.id);
    QuotedSize(w.transcript);
    QuotedSize(w.text);
    QuotedSize(w.sourceDevice);
  }

  lemma {:induction false} WiresSize(numeral: Numeral, ws: seq<Wire>)
    ensures |Joined(WireTexts(numeral, ws))| == JsonWires(t => |numeral(t)|, ws)
  {
    hide WireText, JsonWire;
    if ws != [] {
      WireSize(numeral, ws[0]);
      WiresSize(numeral, ws[1..]);
      assert WireTexts(numeral, ws)[1..] == WireTexts(numeral, ws[1..]);
    }
  }

  lemma {:induction false} IdsSize(ids: seq<Id>)
    ensures |Joined(IdTexts(ids))| == JsonIds(ids)
  {
    hide Quoted, JsonString;
    if ids != [] {
      QuotedSize(ids[0]);
      IdsSize(ids[1..]);
      assert IdTexts(ids)[1..] == IdTexts(ids[1..]);
    }
  }

  /** The size that limits a request is that of the JSON text sent. */
  lemma SizesAreExact(numeral: Numeral, b: Batch)
    ensures |BatchText(numeral, b)| == JsonBatch(t => |numeral(t)|, b)
  {
    hide Joined, Decimal, JsonWires, JsonIds, Digits;
    DecimalSize(b.cursor);
    WiresSize(numeral, b.upserts);
    IdsSize(b.deletes);
  }

  lemma EscapeIsAscii(c: char)
    ensures forall x :: x in Escape(c) ==> ' ' <= x <= '~'
  {}

  /** All of it is ASCII, so characters are bytes. */
  lemma {:induction false} EscapedIsAscii(s: string)
    ensures forall c :: c in Escaped(s) ==> ' ' <= c <= '~'
  {
    hide Escape;
    if s != [] {
      EscapeIsAscii(s[0]);
      EscapedIsAscii(s[1..]);
    }
  }
}
