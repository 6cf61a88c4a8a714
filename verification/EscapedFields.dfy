/** The linear scanner of history_store.py that finds where a quoted, possibly
    many times serialized, field value ends, and the redaction that uses it. */
module EscapedFields {
  import opened Wrappers

  // ----- JSON string escaping, section 7 of RFC 8259 ------------------------------------------

  /** How a serializer writes a character other than the quote and the backslash: as itself,
      as a two-character escape or as \u escapes. */
  type Encoder = char -> string

  /** No quote inside and no backslash at the end: what RFC 8259 lets an encoder emit for an
      ordinary character. */
  predicate Inert(s: string) {
    |s| > 0 && '"' !in s && s[|s| - 1] != '\\'
  }

  ghost predicate Conforming(e: Encoder) {
    forall c :: c != '"' && c != '\\' ==> Inert(e(c))
  }

  function EscapeChar(e: Encoder, c: char): string {
    if c == '"' then "\\\"" else if c == '\\' then "\\\\" else e(c)
  }

  /** One serialization layer: the inside of a JSON string holding `s`. */
  function Layer(e: Encoder, s: string): string {
    if s == [] then [] else EscapeChar(e, s[0]) + Layer(e, s[1..])
  }

  /** `s` inside |es| nested JSON strings; `es[0]` is the outermost serializer. */
  function Nest(es: seq<Encoder>, s: string): string {
    if |es| == 0 then s else Layer(es[0], Nest(es[1..], s))
  }

  /** A JSON string literal for `v`, then serialized inside |es| - 1 more layers. */
  function SerializedField(es: seq<Encoder>, v: string): string
    requires |es| > 0
  {
    var k := |es| - 1;
    Nest(es[..k], "\"" + Layer(es[k], v) + "\"")
  }

  /** The quote of that literal in the outermost text: see DelimiterIsNestedQuote. */
  function Delimiter(es: seq<Encoder>): (r: string)
    requires |es| > 0
    ensures |r| > 0 && r[|r| - 1] == '"'
  {
    Backslashes(Pow2(|es| - 1) - 1) + "\""
  }

  ghost predicate AllConforming(es: seq<Encoder>) {
    forall i :: 0 <= i < |es| ==> Conforming(es[i])
  }

  function Pow2(n: nat): (r: nat)
    ensures r >= 1
  {
    if n == 0 then 1 else 2 * Pow2(n - 1)
  }

  function Backslashes(n: nat): (r: string)
    ensures |r| == n
    ensures forall i :: 0 <= i < n ==> r[i] == '\\'
  {
    seq(n, _ => '\\')
  }

  lemma Associative(a: string, b: string, c: string)
    ensures a + (b + c) == a + b + c
  {}

  lemma {:induction false} LayerAppend(e: Encoder, s: string, t: string)
    ensures Layer(e, s + t) == Layer(e, s) + Layer(e, t)
  {
    if s == [] {
      assert s + t == t;
    } else {
      hide EscapeChar;
      LayerAppend(e, s[1..], t);
      assert (s + t)[1..] == s[1..] + t;
      Associative(EscapeChar(e, s[0]), Layer(e, s[1..]), Layer(e, t));
    }
  }

  lemma {:induction false} NestAppend(es: seq<Encoder>, s: string, t: string)
    ensures Nest(es, s + t) == Nest(es, s) + Nest(es, t)
  {
    if |es| > 0 {
      hide Layer;
      NestAppend(es[1..], s, t);
      LayerAppend(es[0], Nest(es[1..], s), Nest(es[1..], t));
    }
  }

  lemma {:induction false} LayerBackslashes(e: Encoder, n: nat)
    ensures Layer(e, Backslashes(n)) == Backslashes(2 * n)
  {
    if n > 0 {
      LayerBackslashes(e, n - 1);
      assert Backslashes(n)[1..] == Backslashes(n - 1);
      assert "\\\\" + Backslashes(2 * (n - 1)) == Backslashes(2 * n);
    }
  }

  lemma {:induction false} NestBackslash(es: seq<Encoder>)
    ensures Nest(es, "\\") == Backslashes(Pow2(|es|))
  {
    if |es| == 0 {
      assert Backslashes(1) == "\\";
    } else {
      NestBackslash(es[1..]);
      LayerBackslashes(es[0], Pow2(|es| - 1));
    }
  }

  /** Each layer doubles the run in front of a quote and adds one. */
  lemma {:induction false} NestQuote(es: seq<Encoder>)
    ensures Nest(es, "\"") == Backslashes(Pow2(|es|) - 1) + "\""
  {
    if |es| == 0 {
      assert Backslashes(0) + "\"" == "\"";
    } else {
      var m := Pow2(|es| - 1) - 1;
      NestQuote(es[1..]);
      LayerAppend(es[0], Backslashes(m), "\"");
      LayerBackslashes(es[0], m);
      assert Layer(es[0], "\"") == "\\\"";
      assert Backslashes(2 * m) + "\\\"" == Backslashes(2 * m + 1) + "\"";
    }
  }

  lemma DelimiterIsNestedQuote(es: seq<Encoder>)
    requires |es| > 0
    ensures Nest(es[..|es| - 1], "\"") == Delimiter(es)
  {
    NestQuote(es[..|es| - 1]);
  }

  lemma {:induction false} LayerInert(e: Encoder, s: string)
    requires Conforming(e) && Inert(s)
    ensures Inert(Layer(e, s))
  {
    var init, last := s[..|s| - 1], s[|s| - 1..];
    assert s == init + last;
    LayerAppend(e, init, last);
    assert Layer(e, last) == e(s[|s| - 1]) + Layer(e, []);
    LayerNoQuoteRaw(e, init);
    var r := Layer(e, s);
    assert Inert(e(s[|s| - 1]));
    assert r == Layer(e, init) + e(s[|s| - 1]);
  }

  lemma {:induction false} LayerNoQuoteRaw(e: Encoder, s: string)
    requires Conforming(e) && '"' !in s
    ensures '"' !in Layer(e, s)
  {
    if s != [] {
      LayerNoQuoteRaw(e, s[1..]);
      assert s[0] != '\\' ==> Inert(e(s[0]));
    }
  }

  lemma {:induction false} NestInert(es: seq<Encoder>, s: string)
    requires AllConforming(es) && Inert(s)
    ensures Inert(Nest(es, s))
  {
    if |es| > 0 {
      NestInert(es[1..], s);
      LayerInert(es[0], Nest(es[1..], s));
    }
  }

  /** The body of the field is serialized once more than its delimiters. */
  lemma SerializedFieldSplit(es: seq<Encoder>, v: string)
    requires |es| > 0
    ensures SerializedField(es, v) == Delimiter(es) + Nest(es, v) + Delimiter(es)
  {
    var k := |es| - 1;
    var outer := es[..k];
    var inner := Layer(es[k], v);
    DelimiterIsNestedQuote(es);
    NestAppend(outer, "\"" + inner, "\"");
    NestAppend(outer, "\"", inner);
    NestInnermost(es, v);
  }

  lemma {:induction false} NestInnermost(es: seq<Encoder>, v: string)
    requires |es| > 0
    ensures Nest(es, v) == Nest(es[..|es| - 1], Layer(es[|es| - 1], v))
  {
    hide Layer;
    if |es| > 1 {
      NestInnermost(es[1..], v);
      assert es[1..][..|es| - 2] == es[..|es| - 1][1..];
    }
  }

  // ----- The scanner --------------------------------------------------------------------------

  /** Whether a quote preceded by `run` backslashes closes a value opened by a quote preceded
      by `delimiterRun` of them. */
  predicate Closes(run: nat, delimiterRun: nat) {
    if delimiterRun > 0 then (run - delimiterRun) % (2 * (delimiterRun + 1)) == 0
    else run % 2 == 0
  }

  /** Offset just past the first closing quote of `s`, entered after `run` backslashes. */
  function Scan(s: string, run: nat, quote: char, delimiterRun: nat): (r: Option<nat>)
    ensures r.Some? ==> 0 < r.value <= |s|
  {
    if s == [] then None
    else if s[0] == '\\' then Shift(Scan(s[1..], run + 1, quote, delimiterRun), 1)
    else if s[0] == quote && Closes(run, delimiterRun) then Some(1)
    else Shift(Scan(s[1..], 0, quote, delimiterRun), 1)
  }

  function Shift(r: Option<nat>, n: nat): Option<nat> {
    if r.None? then None else Some(n + r.value)
  }

  function ValueEnd(value: string, start: nat, quote: string): Option<nat>
    requires |quote| > 0
  {
    if start > |value| then None
    else Shift(Scan(value[start..], 0, quote[|quote| - 1], |quote| - 1), start)
  }

  lemma ScanStep(s: string, i: nat, run: nat, quote: char, d: nat)
    requires i < |s| && quote != '\\'
    ensures Scan(s[i..], run, quote, d) ==
      if s[i] == quote && Closes(run, d) then Some(1)
      else Shift(Scan(s[i + 1..], if s[i] == '\\' then run + 1 else 0, quote, d), 1)
  {
    hide Closes;
    assert s[i..][1..] == s[i + 1..];
  }

  method EscapedFieldValueEnd(value: string, start: nat, quote: string)
    returns (end: Option<nat>)
    requires |quote| > 0 && quote[|quote| - 1] != '\\'
    ensures end == ValueEnd(value, start, quote)
  {
    hide Scan;
    var quoteCharacter := quote[|quote| - 1];
    var delimiterRun := |quote| - 1;
    var serializedDelimiter := delimiterRun > 0;
    var delimiterModulus := 2 * (delimiterRun + 1);
    var backslashRun := 0;
    var index := start;
    while index < |value|
      invariant start <= |value| ==> index <= |value|
      invariant start <= index
      invariant backslashRun >= 0
      invariant start <= |value| ==>
        (ValueEnd(value, start, quote) ==
         Shift(Scan(value[index..], backslashRun, quoteCharacter, delimiterRun), index))
    {
      var character := value[index];
      ScanStep(value, index, backslashRun, quoteCharacter, delimiterRun);
      if character == '\\' {
        backslashRun := backslashRun + 1;
        index := index + 1;
        continue;
      }
      if character == quoteCharacter {
        if serializedDelimiter {
          if (backslashRun - delimiterRun) % delimiterModulus == 0 {
            return Some(index + 1);
          }
        } else if backslashRun % 2 == 0 {
          return Some(index + 1);
        }
      }
      backslashRun := 0;
      index := index + 1;
    }
    return None;
  }

  /** The backslash run the scanner carries out of `s`. */
  function RunAfter(s: string, run: nat): nat {
    if s == [] then run else RunAfter(s[1..], if s[0] == '\\' then run + 1 else 0)
  }

  lemma {:induction false} ScanAppend(s: string, t: string, run: nat, quote: char, d: nat)
    ensures Scan(s + t, run, quote, d) ==
      if Scan(s, run, quote, d).Some? then Scan(s, run, quote, d)
      else Shift(Scan(t, RunAfter(s, run), quote, d), |s|)
    ensures RunAfter(s + t, run) == RunAfter(t, RunAfter(s, run))
  {
    if s == [] {
      assert s + t == t;
    } else {
      hide Closes;
      assert (s + t)[1..] == s[1..] + t;
      ScanAppend(s[1..], t, if s[0] == '\\' then run + 1 else 0, quote, d);
    }
  }

  lemma {:induction false} ScanBackslashes(n: nat, run: nat, quote: char, d: nat)
    ensures Scan(Backslashes(n), run, quote, d) == None
    ensures RunAfter(Backslashes(n), run) == run + n
  {
    if n > 0 {
      assert Backslashes(n)[1..] == Backslashes(n - 1);
      ScanBackslashes(n - 1, run + 1, quote, d);
    }
  }

  lemma {:induction false} ScanInert(s: string, run: nat, d: nat)
    requires '"' !in s
    ensures Scan(s, run, '"', d) == None
    ensures s != [] && s[|s| - 1] != '\\' ==> RunAfter(s, run) == 0
  {
    if s != [] {
      ScanInert(s[1..], if s[0] == '\\' then run + 1 else 0, d);
    }
  }

  /** `run` consists of whole groups of 2^depth backslashes. */
  predicate Whole(run: nat, depth: nat) {
    run % Pow2(depth) == 0
  }

  lemma WholePlus(run: nat, depth: nat)
    requires Whole(run, depth)
    ensures Whole(run + Pow2(depth), depth) && Whole(0, depth)
  {
    var M := Pow2(depth);
    var q := run / M;
    assert run + M == (q + 1) * M;
    ModOfMultiple(q + 1, M, 0);
  }

  lemma ModOfMultiple(m: nat, modulus: nat, x: nat)
    requires x < modulus
    ensures (m * modulus + x) % modulus == x
  {
    var n := m * modulus + x;
    var q, r := n / modulus, n % modulus;
    assert (m - q) * modulus == r - x by {
      assert n == q * modulus + r;
      assert (m - q) * modulus == m * modulus - q * modulus;
    }
    if m != q {
      MultipleIsFar(m - q, modulus);
    }
  }

  lemma MultipleIsFar(k: int, modulus: nat)
    requires k != 0
    ensures k * modulus >= modulus || k * modulus <= -(modulus as int)
  {
    if k >= 1 {
      assert k * modulus == modulus + (k - 1) * modulus;
    } else {
      assert -k * modulus == modulus + (-k - 1) * modulus;
    }
  }

  /** In front of the closing delimiter the backslash run is 2^depth - 1 above whole groups of
      2^(depth+1); in front of a quote of the value it is one short of them. */
  lemma ClosesAtDepth(depth: nat, run: nat)
    requires Whole(run, depth + 1)
    ensures Closes(run + Pow2(depth) - 1, Pow2(depth) - 1)
    ensures !Closes(run + Pow2(depth + 1) - 1, Pow2(depth) - 1)
  {
    var h := Pow2(depth);
    var M := 2 * h;
    var m := run / M;
    assert run == m * M;
    ModOfMultiple(m, M, h);
    ModOfMultiple(m, M, M - 1);
  }

  /** Scanning one serialized character never closes the value and leaves whole groups. */
  lemma ScanCharacter(es: seq<Encoder>, c: char, run: nat)
    requires |es| > 0 && AllConforming(es) && Whole(run, |es|)
    ensures Scan(Nest(es, [c]), run, '"', Pow2(|es| - 1) - 1) == None
    ensures Whole(RunAfter(Nest(es, [c]), run), |es|)
  {
    hide Closes, Whole, Scan, Nest;
    var M, d := Pow2(|es|), Pow2(|es| - 1) - 1;
    WholePlus(run, |es|);
    if c == '\\' {
      NestBackslash(es);
      ScanBackslashes(M, run, '"', d);
    } else if c == '"' {
      NestQuote(es);
      ScanAppend(Backslashes(M - 1), "\"", run, '"', d);
      ScanBackslashes(M - 1, run, '"', d);
      ClosesAtDepth(|es| - 1, run);
      ScanQuote(run + M - 1, d, "");
    } else {
      NestInert(es, [c]);
      ScanInert(Nest(es, [c]), run, d);
    }
  }

  lemma ScanQuote(run: nat, d: nat, rest: string)
    ensures Closes(run, d) ==> Scan("\"" + rest, run, '"', d) == Some(1)
    ensures !Closes(run, d) ==> Scan("\"", run, '"', d) == None
    ensures RunAfter("\"", run) == 0
  {
    hide Closes;
    assert ("\"" + rest)[1..] == rest;
  }

  lemma {:induction false} ScanBody(es: seq<Encoder>, v: string, run: nat)
    requires |es| > 0 && AllConforming(es) && Whole(run, |es|)
    ensures Scan(Nest(es, v), run, '"', Pow2(|es| - 1) - 1) == None
    ensures Whole(RunAfter(Nest(es, v), run), |es|)
  {
    hide Closes, Whole, Nest;
    if v == [] {
      NestEmpty(es);
    } else {
      var first := Nest(es, [v[0]]);
      ScanCharacter(es, v[0], run);
      ScanBody(es, v[1..], RunAfter(first, run));
      assert v == [v[0]] + v[1..];
      NestAppend(es, [v[0]], v[1..]);
      ScanAppend(first, Nest(es, v[1..]), run, '"', Pow2(|es| - 1) - 1);
    }
  }

  lemma {:induction false} NestEmpty(es: seq<Encoder>)
    ensures Nest(es, []) == []
  {
    if |es| > 0 {
      NestEmpty(es[1..]);
    }
  }

  /** The scan of the body followed by `t` is the scan of `t`, entered after whole groups. */
  lemma ScanPastBody(es: seq<Encoder>, v: string, t: string) returns (run: nat)
    requires |es| > 0 && AllConforming(es)
    ensures Whole(run, |es|)
    ensures Scan(Nest(es, v) + t, 0, '"', Pow2(|es| - 1) - 1) ==
      Shift(Scan(t, run, '"', Pow2(|es| - 1) - 1), |Nest(es, v)|)
  {
    hide Scan, Nest;
    ScanBody(es, v, 0);
    run := RunAfter(Nest(es, v), 0);
    ScanAppend(Nest(es, v), t, 0, '"', Pow2(|es| - 1) - 1);
  }

  lemma ScanDelimiter(es: seq<Encoder>, run: nat, rest: string)
    requires |es| > 0 && Whole(run, |es|)
    ensures Scan(Delimiter(es) + rest, run, '"', Pow2(|es| - 1) - 1) == Some(|Delimiter(es)|)
  {
    hide Closes, Whole, Scan, Nest;
    var d := Pow2(|es| - 1) - 1;
    assert Delimiter(es) + rest == Backslashes(d) + ("\"" + rest);
    ScanAppend(Backslashes(d), "\"" + rest, run, '"', d);
    ScanBackslashes(d, run, '"', d);
    ClosesAtDepth(|es| - 1, run);
    ScanQuote(run + d, d, rest);
  }

  /** Exact scanner: for every value, every stack of conforming serializers and any text
      around the field, the scanner stops just past the true closing delimiter. */
  lemma ValueEndIsExact(es: seq<Encoder>, v: string, before: string, rest: string)
    requires |es| > 0 && AllConforming(es)
    ensures ValueEnd(before + SerializedField(es, v) + rest,
                     |before| + |Delimiter(es)|, Delimiter(es))
            == Some(|before| + |SerializedField(es, v)|)
  {
    hide Closes, Whole, Scan, Nest;
    var open, body := Delimiter(es), Nest(es, v);
    SerializedFieldSplit(es, v);
    SuffixOfField(before, open, body, rest);
    var run := ScanPastBody(es, v, open + rest);
    ScanDelimiter(es, run, rest);
  }

  lemma SuffixOfField(before: string, open: string, body: string, rest: string)
    ensures (before + (open + body + open) + rest)[|before| + |open|..] == body + (open + rest)
  {}

  lemma ScanOfPrefix(s: string, n: nat, quote: char, d: nat)
    requires n <= |s| && Scan(s, 0, quote, d) == None
    ensures Scan(s[..n], 0, quote, d) == None
  {
    assert s == s[..n] + s[n..];
    ScanAppend(s[..n], s[n..], 0, quote, d);
  }

  lemma PrefixBeyond(open: string, whole: string, last: string, n: nat)
    requires |open| <= n <= |open| + |whole|
    ensures (open + whole + last)[..n] == open + whole[..n - |open|]
  {}

  /** On a text cut anywhere before the end of the closing delimiter the scanner finds none. */
  lemma ValueEndOfTruncation(es: seq<Encoder>, v: string, before: string, n: nat)
    requires |es| > 0 && AllConforming(es)
    requires |Delimiter(es)| <= n < |SerializedField(es, v)|
    ensures ValueEnd(before + SerializedField(es, v)[..n],
                     |before| + |Delimiter(es)|, Delimiter(es)) == None
  {
    var open, d := Delimiter(es), Pow2(|es| - 1) - 1;
    var whole := Nest(es, v) + Backslashes(d);
    hide Closes, Whole, Scan, Nest, ValueEnd, SerializedField;
    var run := ScanPastBody(es, v, Backslashes(d));
    ScanBackslashes(d, run, '"', d);
    SerializedFieldSplit(es, v);
    assert SerializedField(es, v) == open + whole + "\"";
    PrefixBeyond(open, whole, "\"", n);
    TruncatedEnd(before, open, whole[..n - |open|], whole, d);
  }

  lemma TruncatedEnd(before: string, open: string, kept: string, whole: string, d: nat)
    requires kept <= whole && Scan(whole, 0, '"', d) == None
    requires |open| == d + 1 && open[d] == '"'
    ensures ValueEnd(before + (open + kept), |before| + |open|, open) == None
  {
    ScanOfPrefix(whole, |kept|, '"', d);
    assert (before + (open + kept))[|before| + |open|..] == kept;
    assert kept == whole[..|kept|];
  }
}
