/** history_store.py: the structural scanner for serialized containers and the loop that
    replaces sensitive values. */
module RedactedFields {
  import opened Wrappers
  import opened EscapedFields

  // ----- Where an unquoted value ends ---------------------------------------------------------

  /** The scanner's variables: bracket depth, the quote it is inside of, the backslash run of
      the first quote it met and the run it is in. */
  datatype Cursor = Cursor(depth: nat, quote: Option<char>, delimiterRun: Option<nat>, run: nat)

  const START := Cursor(0, None, None, 0)

  /** None where the scanner stops in front of `c`. */
  function Advance(st: Cursor, c: char): Option<Cursor> {
    if c == '\\' then Some(st.(run := st.run + 1))
    else if c in "'\"" then
      var d := if st.delimiterRun.None? then st.run else st.delimiterRun.value;
      var isDelimiter := Closes(st.run, d);
      var quote :=
        if isDelimiter && st.quote.None? then Some(c)
        else if isDelimiter && st.quote == Some(c) then None
        else st.quote;
      Some(Cursor(st.depth, quote, Some(d), 0))
    else if st.quote.Some? then Some(st.(run := 0))
    else if c in "{[" then Some(st.(depth := st.depth + 1, run := 0))
    else if c in "}]" then
      if st.depth > 0 then Some(st.(depth := st.depth - 1, run := 0)) else None
    else if st.depth == 0 && c in ",;&\n" then None
    else Some(st.(run := 0))
  }

  function Unquoted(s: string, st: Cursor): (n: nat)
    ensures n <= |s|
  {
    if s == [] then 0
    else
      var next := Advance(st, s[0]);
      if next.None? then 0 else 1 + Unquoted(s[1..], next.value)
  }

  lemma UnquotedStep(s: string, i: nat, st: Cursor)
    requires i < |s|
    ensures var next := Advance(st, s[i]);
            Unquoted(s[i..], st) == if next.None? then 0 else 1 + Unquoted(s[i + 1..], next.value)
  {
    hide Advance;
    assert s[i..][1..] == s[i + 1..];
  }

  method EscapedUnquotedFieldValueEnd(value: string, start: nat) returns (end: nat)
    requires start <= |value|
    ensures end == start + Unquoted(value[start..], START)
  {
    hide Unquoted;
    var depth := 0;
    var quote: Option<char> := None;
    var delimiterRun: Option<nat> := None;
    var backslashRun := 0;
    var index := start;
    while index < |value|
      invariant start <= index <= |value| && depth >= 0 && backslashRun >= 0
      invariant start + Unquoted(value[start..], START)
                == index + Unquoted(value[index..], Cursor(depth, quote, delimiterRun, backslashRun))
    {
      var character := value[index];
      UnquotedStep(value, index, Cursor(depth, quote, delimiterRun, backslashRun));
      index := index + 1;
      if character == '\\' {
        backslashRun := backslashRun + 1;
        continue;
      }
      if character in "'\"" {
        if delimiterRun.None? {
          delimiterRun := Some(backslashRun);
        }
        var modulus := 2 * (delimiterRun.value + 1);
        var isDelimiter := (backslashRun - delimiterRun.value) % modulus == 0;
        if isDelimiter {
          if quote.None? {
            quote := Some(character);
          } else if quote.value == character {
            quote := None;
          }
        }
        backslashRun := 0;
        continue;
      }
      if quote.Some? {
        backslashRun := 0;
        continue;
      }
      if character in "{[" {
        depth := depth + 1;
      } else if character in "}]" {
        if depth != 0 {
          depth := depth - 1;
        } else {
          return index - 1;
        }
      } else if depth == 0 && character in ",;&\n" {
        return index - 1;
      }
      backslashRun := 0;
    }
    return |value|;
  }

  // ----- Serialized containers ----------------------------------------------------------------

  /** The lexical elements of a JSON container, section 2 of RFC 8259. */
  datatype Token = Opening(b: char) | Closing(b: char) | Plain(c: char) | Text(v: string)

  predicate Bracket(c: char) { c in "{[}]" }

  predicate Lexical(t: Token) {
    match t
    case Opening(b) => b in "{["
    case Closing(b) => b in "}]"
    case Plain(c) => c !in "'\"\\" && !Bracket(c)
    case Text(_) => true
  }

  /** Ordinary characters are written without quotes, brackets and trailing backslashes, and
      brackets as themselves. */
  predicate Calm(s: string) {
    Inert(s) && '\'' !in s && '{' !in s && '}' !in s && '[' !in s && ']' !in s
  }

  ghost predicate Regular(e: Encoder) {
    && Conforming(e)
    && (forall c :: c !in "'\"\\" && !Bracket(c) ==> Calm(e(c)))
    && (forall c :: Bracket(c) ==> e(c) == [c])
  }

  ghost predicate AllRegular(es: seq<Encoder>) {
    forall i :: 0 <= i < |es| ==> Regular(es[i])
  }

  function RenderToken(e: Encoder, t: Token): string {
    match t
    case Opening(b) => [b]
    case Closing(b) => [b]
    case Plain(c) => [c]
    case Text(v) => "\"" + Layer(e, v) + "\""
  }

  function Render(e: Encoder, ts: seq<Token>): string {
    if ts == [] then [] else RenderToken(e, ts[0]) + Render(e, ts[1..])
  }

  /** `ts` completes a container entered at bracket depth `depth`: the depth reaches zero at
      the last token and not before. */
  predicate Completes(ts: seq<Token>, depth: nat) {
    if ts == [] then depth == 0
    else
      && Lexical(ts[0])
      && match ts[0]
         case Opening(_) => Completes(ts[1..], depth + 1)
         case Closing(_) => depth > 0 && (depth == 1 ==> |ts| == 1) && Completes(ts[1..], depth - 1)
         case _ => depth > 0 && Completes(ts[1..], depth)
  }

  /** Running the scanner over all of `s`; None if it stops inside. */
  function Run(s: string, st: Cursor): Option<Cursor> {
    if s == [] then Some(st)
    else
      var next := Advance(st, s[0]);
      if next.None? then None else Run(s[1..], next.value)
  }

  lemma {:induction false} RunAppend(s: string, t: string, st: Cursor)
    requires Run(s, st).Some?
    ensures Run(s + t, st) == Run(t, Run(s, st).value)
    ensures Unquoted(s + t, st) == |s| + Unquoted(t, Run(s, st).value)
  {
    hide Closes;
    if s == [] {
      assert s + t == t;
    } else {
      assert (s + t)[1..] == s[1..] + t;
      RunAppend(s[1..], t, Advance(st, s[0]).value);
    }
  }

  lemma {:induction false} RunBackslashes(n: nat, st: Cursor)
    ensures Run(Backslashes(n), st) == Some(st.(run := st.run + n))
  {
    hide Closes;
    if n > 0 {
      assert Backslashes(n)[1..] == Backslashes(n - 1);
      RunBackslashes(n - 1, st.(run := st.run + 1));
    }
  }

  /** Inside a quoted text, encoded ordinary characters change nothing. */
  lemma {:induction false} RunInsideText(s: string, st: Cursor)
    requires '"' !in s && st.quote == Some('"') && st.delimiterRun.Some?
    ensures exists r :: Run(s, st) == Some(st.(run := r)) &&
                        (s != [] && s[|s| - 1] != '\\' ==> r == 0)
  {
    hide Closes;
    if s != [] {
      var next := Advance(st, s[0]).value;
      RunInsideText(s[1..], next);
      var r :| Run(s[1..], next) == Some(next.(run := r)) &&
               (s[1..] != [] && s[1..][|s| - 2] != '\\' ==> r == 0);
      assert Run(s, st) == Some(st.(run := r));
    } else {
      assert Run(s, st) == Some(st.(run := st.run));
    }
  }

  /** Inside a container and outside texts, calm characters change nothing. */
  lemma {:induction false} RunCalm(s: string, st: Cursor)
    requires s != [] ==> s[|s| - 1] != '\\'
    requires '"' !in s && '\'' !in s && '{' !in s && '}' !in s && '[' !in s && ']' !in s
    requires st.quote.None? && st.depth > 0
    ensures s != [] ==> Run(s, st) == Some(st.(run := 0))
  {
    hide Closes;
    if s != [] {
      var next := Advance(st, s[0]).value;
      assert next.depth == st.depth && next.quote.None? && next.delimiterRun == st.delimiterRun;
      RunCalm(s[1..], next);
    }
  }

  lemma {:induction false} NestCalm(es: seq<Encoder>, s: string)
    requires AllRegular(es) && Calm(s)
    ensures Calm(Nest(es, s))
  {
    if |es| > 0 {
      var inner := Nest(es[1..], s);
      NestCalm(es[1..], s);
      LayerInert(es[0], inner);
      LayerCalm(es[0], inner);
    }
  }

  lemma {:induction false} LayerCalm(e: Encoder, s: string)
    requires Regular(e) && '"' !in s && '\'' !in s
    requires '{' !in s && '}' !in s && '[' !in s && ']' !in s
    ensures var r := Layer(e, s);
            '\'' !in r && '{' !in r && '}' !in r && '[' !in r && ']' !in r
  {
    if s != [] {
      LayerCalm(e, s[1..]);
      assert s[0] in s;
      assert s[0] != '\\' ==> Calm(e(s[0]));
    }
  }

  lemma {:induction false} NestBracket(es: seq<Encoder>, c: char)
    requires AllRegular(es) && Bracket(c)
    ensures Nest(es, [c]) == [c]
  {
    if |es| > 0 {
      NestBracket(es[1..], c);
      assert Layer(es[0], [c]) == es[0](c) + Layer(es[0], []);
    }
  }

  /** Outside texts, after whole tokens. */
  predicate Between(st: Cursor, depth: nat, d: nat) {
    st.depth == depth && st.quote.None? && st.run == 0 &&
    (st.delimiterRun.None? || st.delimiterRun == Some(d))
  }

  lemma RunTextCharacter(es: seq<Encoder>, c: char, st: Cursor) returns (run: nat)
    requires |es| > 0 && AllConforming(es) && Whole(st.run, |es|)
    requires st.quote == Some('"') && st.delimiterRun == Some(Pow2(|es| - 1) - 1)
    ensures Whole(run, |es|) && Run(Nest(es, [c]), st) == Some(st.(run := run))
  {
    hide Closes, Whole, Nest, Run;
    var M := Pow2(|es|);
    WholePlus(st.run, |es|);
    if c == '\\' {
      NestBackslash(es);
      RunBackslashes(M, st);
      run := st.run + M;
    } else if c == '"' {
      NestQuote(es);
      RunBackslashes(M - 1, st);
      RunAppend(Backslashes(M - 1), "\"", st);
      ClosesAtDepth(|es| - 1, st.run);
      RunQuote(st.(run := st.run + M - 1));
      run := 0;
    } else {
      NestInert(es, [c]);
      RunInsideText(Nest(es, [c]), st);
      run := 0;
    }
  }

  lemma WholeZero(depth: nat)
    ensures Whole(0, depth)
  {}

  lemma RunQuote(st: Cursor)
    ensures Run("\"", st) == Advance(st, '"')
  {
    assert "\""[1..] == [];
  }

  lemma {:induction false} RunTextBody(es: seq<Encoder>, v: string, st: Cursor)
    returns (run: nat)
    requires |es| > 0 && AllConforming(es) && Whole(st.run, |es|)
    requires st.quote == Some('"') && st.delimiterRun == Some(Pow2(|es| - 1) - 1)
    ensures Whole(run, |es|) && Run(Nest(es, v), st) == Some(st.(run := run))
  {
    hide Closes, Whole, Nest;
    if v == [] {
      NestEmpty(es);
      run := st.run;
    } else {
      var first := RunTextCharacter(es, v[0], st);
      run := RunTextBody(es, v[1..], st.(run := first));
      assert v == [v[0]] + v[1..];
      NestAppend(es, [v[0]], v[1..]);
      RunAppend(Nest(es, [v[0]]), Nest(es, v[1..]), st);
    }
  }

  lemma AdvanceAtDelimiter(st: Cursor, d: nat)
    requires st.delimiterRun == Some(d) || (st.delimiterRun.None? && st.run == d)
    requires st.quote in {None, Some('"')} && Closes(st.run, d) && Closes(d, d)
    ensures Advance(st, '"') ==
      Some(Cursor(st.depth, if st.quote.None? then Some('"') else None, Some(d), 0))
  {
    hide Closes;
  }

  lemma RunUpToQuote(d: nat, st: Cursor)
    ensures Run(Backslashes(d) + "\"", st) == Advance(st.(run := st.run + d), '"')
  {
    hide Advance, Run;
    RunBackslashes(d, st);
    RunAppend(Backslashes(d), "\"", st);
    RunQuote(st.(run := st.run + d));
  }

  lemma DelimiterCloses(depth: nat, run: nat)
    requires Whole(run, depth + 1)
    ensures var d := Pow2(depth) - 1; Closes(run + d, d) && Closes(d, d)
  {
    hide Closes, Whole, Pow2;
    ClosesAtDepth(depth, run);
    WholeZero(depth + 1);
    ClosesAtDepth(depth, 0);
  }

  lemma RunDelimiter(es: seq<Encoder>, st: Cursor)
    requires |es| > 0 && Whole(st.run, |es|)
    requires st.delimiterRun == Some(Pow2(|es| - 1) - 1) || (st.delimiterRun.None? && st.run == 0)
    requires st.quote in {None, Some('"')}
    ensures Run(Delimiter(es), st) ==
      Some(Cursor(st.depth, if st.quote.None? then Some('"') else None,
                  Some(Pow2(|es| - 1) - 1), 0))
  {
    hide Closes, Whole, Run, Advance, Pow2;
    var d := Pow2(|es| - 1) - 1;
    RunUpToQuote(d, st);
    DelimiterCloses(|es| - 1, st.run);
    AdvanceAtDelimiter(st.(run := st.run + d), d);
  }

  lemma RunText(es: seq<Encoder>, v: string, st: Cursor)
    requires |es| > 0 && AllConforming(es)
    requires Between(st, st.depth, Pow2(|es| - 1) - 1)
    ensures Run(SerializedField(es, v), st) == Some(st.(delimiterRun := Some(Pow2(|es| - 1) - 1)))
  {
    hide Closes;
    var open, body := Delimiter(es), Nest(es, v);
    SerializedFieldSplit(es, v);
    WholeZero(|es|);
    RunDelimiter(es, st);
    var inside := Run(open, st).value;
    var run := RunTextBody(es, v, inside);
    RunDelimiter(es, inside.(run := run));
    RunAppend(open, body, st);
    RunAppend(open + body, open, st);
  }

  lemma RunToken(es: seq<Encoder>, t: Token, st: Cursor)
    requires |es| > 0 && AllRegular(es) && Lexical(t)
    requires Between(st, st.depth, Pow2(|es| - 1) - 1)
    requires t.Opening? || st.depth > 0
    ensures var r := Run(Nest(es[..|es| - 1], RenderToken(es[|es| - 1], t)), st);
            var depth := if t.Opening? then st.depth + 1 else if t.Closing? then st.depth - 1 else st.depth;
            r.Some? && Between(r.value, depth, Pow2(|es| - 1) - 1)
  {
    hide Closes;
    var outer := es[..|es| - 1];
    match t
    case Opening(b) => RunBracket(outer, b, st);
    case Closing(b) => RunBracket(outer, b, st);
    case Plain(c) =>
      NestCalm(outer, [c]);
      RunCalm(Nest(outer, [c]), st);
    case Text(v) =>
      RunText(es, v, st);
      assert RenderToken(es[|es| - 1], t) == "\"" + Layer(es[|es| - 1], v) + "\"";
  }

  lemma RunBracket(es: seq<Encoder>, b: char, st: Cursor)
    requires AllRegular(es) && Bracket(b) && st.quote.None?
    requires b in "{[" || st.depth > 0
    ensures Run(Nest(es, [b]), st) ==
      Some(st.(depth := if b in "{[" then st.depth + 1 else st.depth - 1, run := 0))
  {
    NestBracket(es, b);
    assert [b][1..] == [];
  }

  lemma {:induction false} RunContainer(es: seq<Encoder>, ts: seq<Token>, st: Cursor)
    requires |es| > 0 && AllRegular(es) && Completes(ts, st.depth)
    requires Between(st, st.depth, Pow2(|es| - 1) - 1)
    ensures var r := Run(Nest(es[..|es| - 1], Render(es[|es| - 1], ts)), st);
            r.Some? && Between(r.value, 0, Pow2(|es| - 1) - 1)
  {
    hide Closes, Advance, Nest, RenderToken, Pow2;
    var outer, e := es[..|es| - 1], es[|es| - 1];
    if ts == [] {
      NestEmpty(outer);
    } else {
      var first := Nest(outer, RenderToken(e, ts[0]));
      RunToken(es, ts[0], st);
      var mid := Run(first, st).value;
      RunContainer(es, ts[1..], mid);
      NestAppend(outer, RenderToken(e, ts[0]), Render(e, ts[1..]));
      RunAppend(first, Nest(outer, Render(e, ts[1..])), st);
    }
  }

  lemma StopsAtBoundary(rest: string, st: Cursor)
    requires rest == [] || rest[0] in ",;&\n}]"
    requires st.depth == 0 && st.quote.None?
    ensures Unquoted(rest, st) == 0
  {}

  /** For every JSON container, every stack of regular serializers and any text after it that
      starts with a structural boundary, the scanner stops exactly at the container's end. */
  lemma UnquotedIsExact(es: seq<Encoder>, ts: seq<Token>, rest: string)
    requires |es| > 0 && AllRegular(es) && Completes(ts, 0)
    requires rest == [] || rest[0] in ",;&\n}]"
    ensures var text := Nest(es[..|es| - 1], Render(es[|es| - 1], ts));
            Unquoted(text + rest, START) == |text|
  {
    hide Closes, Advance, Nest, Render, Pow2, Run, Unquoted;
    var text := Nest(es[..|es| - 1], Render(es[|es| - 1], ts));
    RunContainer(es, ts, START);
    RunAppend(text, rest, START);
    StopsAtBoundary(rest, Run(text, START).value);
  }

  /** A scalar is written without quotes, brackets and boundaries. */
  predicate Scalar(text: string) {
    forall i :: 0 <= i < |text| ==> text[i] !in "'\"{[}],;&\n"
  }

  lemma {:induction false} ScalarIsExact(text: string, rest: string, st: Cursor)
    requires Scalar(text) && st.depth == 0 && st.quote.None?
    requires rest == [] || rest[0] in ",;&\n}]"
    ensures Unquoted(text + rest, st) == |text|
  {
    if text == [] {
      assert text + rest == rest;
      StopsAtBoundary(rest, st);
    } else {
      assert (text + rest)[1..] == text[1..] + rest;
      ScalarIsExact(text[1..], rest, Advance(st, text[0]).value);
    }
  }

  // ----- Redaction ----------------------------------------------------------------------------

  /** A sensitive name found by the bounded name pattern. */
  datatype Match = Match(start: nat, end: nat)

  /** What is taken from the regular expression and the opening search: the next name at or
      after a position, and the delimiter that opens its value (empty for an unquoted one). */
  datatype Lexer = Lexer(search: (string, nat) -> Option<Match>,
                         opening: (string, Match) -> Option<(nat, nat)>)
  {
    ghost predicate Valid() {
      && (forall s, i: nat ::
            var m := search(s, i);
            m.Some? ==> i <= m.value.start < m.value.end <= |s|)
      && (forall s, m ::
            var o := opening(s, m);
            o.Some? ==>
              && m.start < m.end <= o.value.0 <= o.value.1 <= |s|
              && (o.value.0 < o.value.1 ==> s[o.value.1 - 1] == '"' || s[o.value.1 - 1] == '\''))
    }
  }

  const REDACTED := "<redacted>"

  /** One search from `at`: the text put out, and where output and search go on. */
  datatype Found = Found(piece: string, next: Option<(nat, nat)>)

  function Step(x: Lexer, s: string, cursor: nat, at: nat): (r: Found)
    requires x.Valid() && cursor <= at <= |s|
    ensures r.next.Some? ==> r.next.value.0 <= r.next.value.1 <= |s| && at < r.next.value.1
  {
    var found := x.search(s, at);
    if found.None? then Found(s[cursor..], None)
    else
      var opening := x.opening(s, found.value);
      if opening.None? then Found("", Some((cursor, found.value.end)))
      else
        var (open, inside) := opening.value;
        var kept := s[cursor..open];
        if open == inside then
          var end := inside + Unquoted(s[inside..], START);
          Found(kept + REDACTED, Some((end, end)))
        else
          var quote := s[open..inside];
          var end := ValueEnd(s, inside, quote);
          if end.None? then Found(kept + quote + REDACTED, None)
          else Found(kept + quote + REDACTED + quote, Some((end.value, end.value)))
  }

  /** The output for `s` from `cursor` on, searching from `at` on. */
  function Redacted(x: Lexer, s: string, cursor: nat, at: nat): string
    requires x.Valid() && cursor <= at <= |s|
    decreases |s| - at
  {
    var step := Step(x, s, cursor, at);
    if step.next.None? then step.piece
    else step.piece + Redacted(x, s, step.next.value.0, step.next.value.1)
  }

  method RedactStep(x: Lexer, value: string, cursor: nat, searchAt: nat) returns (r: Found)
    requires x.Valid() && cursor <= searchAt <= |value|
    ensures r == Step(x, value, cursor, searchAt)
  {
    hide Unquoted, ValueEnd;
    var found := x.search(value, searchAt);
    if found.None? {
      return Found(value[cursor..], None);
    }
    var opening := x.opening(value, found.value);
    if opening.None? {
      return Found("", Some((cursor, found.value.end)));
    }
    var (openingStart, openingEnd) := opening.value;
    var prefix := value[found.value.start..openingStart];
    var before := value[cursor..found.value.start];
    SliceJoins(value, cursor, found.value.start, openingStart);
    if openingStart == openingEnd {
      var end := EscapedUnquotedFieldValueEnd(value, openingEnd);
      Associative(before, prefix, REDACTED);
      return Found(before + (prefix + REDACTED), Some((end, end)));
    }
    var quote := value[openingStart..openingEnd];
    var end := EscapedFieldValueEnd(value, openingEnd, quote);
    var replacement := prefix + quote + REDACTED;
    Associative(before, prefix + quote, REDACTED);
    Associative(before, prefix, quote);
    if end.None? {
      return Found(before + replacement, None);
    }
    Associative(before, replacement, quote);
    return Found(before + (replacement + quote), Some((end.value, end.value)));
  }

  lemma SliceJoins(s: string, i: nat, j: nat, k: nat)
    requires i <= j <= k <= |s|
    ensures s[i..k] == s[i..j] + s[j..k]
  {}

  method RedactEscapedFields(x: Lexer, value: string) returns (redacted: string)
    requires x.Valid()
    ensures redacted == Redacted(x, value, 0, 0)
  {
    hide Step;
    var pieces := "";
    var cursor, searchAt := 0, 0;
    while true
      invariant 0 <= cursor <= searchAt <= |value|
      invariant Redacted(x, value, 0, 0) == pieces + Redacted(x, value, cursor, searchAt)
      decreases |value| - searchAt
    {
      var step := RedactStep(x, value, cursor, searchAt);
      pieces := pieces + step.piece;
      if step.next.None? {
        return pieces;
      }
      cursor, searchAt := step.next.value.0, step.next.value.1;
    }
  }

  lemma StepAtQuote(x: Lexer, s: string, cursor: nat, at: nat, m: Match, open: nat, inside: nat)
    requires x.Valid() && cursor <= at <= |s| && x.search(s, at) == Some(m) && x.opening(s, m) == Some((open, inside))
    requires cursor <= open < inside <= |s|
    ensures var end := ValueEnd(s, inside, s[open..inside]);
            Step(x, s, cursor, at) ==
            if end.None? then Found(s[cursor..open] + s[open..inside] + REDACTED, None)
            else Found(s[cursor..open] + s[open..inside] + REDACTED + s[open..inside], Some((end.value, end.value)))
  {
    hide ValueEnd, Unquoted;
  }

  lemma RedactedStep(x: Lexer, s: string, cursor: nat, at: nat)
    requires x.Valid() && cursor <= at <= |s|
    ensures var step := Step(x, s, cursor, at);
            Redacted(x, s, cursor, at) ==
            if step.next.None? then step.piece
            else step.piece + Redacted(x, s, step.next.value.0, step.next.value.1)
  {
    hide Step;
  }

  lemma RedactedAtQuote(x: Lexer, s: string, cursor: nat, at: nat, m: Match,
                        kept: string, quote: string, inside: nat, end: Option<nat>)
    requires x.Valid() && cursor <= at <= |s| && x.search(s, at) == Some(m)
    requires |quote| > 0 && inside >= |quote| && x.opening(s, m) == Some((inside - |quote|, inside))
    requires cursor <= inside - |quote| && inside <= |s|
    requires s[cursor..inside - |quote|] == kept && s[inside - |quote|..inside] == quote
    requires ValueEnd(s, inside, quote) == end
    ensures end.None? ==> Redacted(x, s, cursor, at) == kept + quote + REDACTED
    ensures end.Some? ==> end.value <= |s|
    ensures end.Some? ==>
      (Redacted(x, s, cursor, at) ==
       kept + quote + REDACTED + quote + Redacted(x, s, end.value, end.value))
  {
    hide ValueEnd, Step, Redacted;
    StepAtQuote(x, s, cursor, at, m, inside - |quote|, inside);
    RedactedStep(x, s, cursor, at);
  }

  /** A serialized secret is replaced as a whole: nothing of it and nothing around it is lost,
      and the search goes on right behind it. */
  lemma SerializedSecretIsRedacted(x: Lexer, es: seq<Encoder>, v: string, before: string,
                                   rest: string, s: string, cursor: nat, at: nat, m: Match)
    requires x.Valid() && |es| > 0 && AllConforming(es)
    requires s == before + SerializedField(es, v) + rest && cursor <= at <= |before|
    requires x.search(s, at) == Some(m)
    requires x.opening(s, m) == Some((|before|, |before| + |Delimiter(es)|))
    ensures var end := |before| + |SerializedField(es, v)|;
            Redacted(x, s, cursor, at) ==
              before[cursor..] + Delimiter(es) + REDACTED + Delimiter(es) + Redacted(x, s, end, end)
  {
    hide ValueEnd, Step, Redacted, SerializedField, Delimiter, Nest, Unquoted;
    SerializedFieldSplit(es, v);
    ValueEndIsExact(es, v, before, rest);
    var field := SerializedField(es, v);
    StartsWith(field, Delimiter(es), Nest(es, v), rest);
    Associative(before, field, rest);
    SlicesAround(before, Delimiter(es), field + rest, cursor);
    RedactedAtQuote(x, s, cursor, at, m, before[cursor..], Delimiter(es),
                    |before| + |Delimiter(es)|, Some(|before| + |field|));
  }

  lemma StartsWith(field: string, open: string, body: string, rest: string)
    requires field == open + body + open
    ensures open <= field && open <= field + rest
  {}

  lemma SlicesAround(before: string, open: string, tail: string, cursor: nat)
    requires open <= tail && cursor <= |before|
    ensures (before + tail)[cursor..|before|] == before[cursor..]
    ensures (before + tail)[|before|..|before| + |open|] == open
  {}

  /** A secret cut off anywhere before its closing delimiter is removed through the end. */
  lemma TruncatedSecretIsRedacted(x: Lexer, es: seq<Encoder>, v: string, before: string,
                                  n: nat, s: string, cursor: nat, at: nat, m: Match)
    requires x.Valid() && |es| > 0 && AllConforming(es)
    requires |Delimiter(es)| <= n < |SerializedField(es, v)|
    requires s == before + SerializedField(es, v)[..n] && cursor <= at <= |before|
    requires x.search(s, at) == Some(m)
    requires x.opening(s, m) == Some((|before|, |before| + |Delimiter(es)|))
    ensures Redacted(x, s, cursor, at) == before[cursor..] + Delimiter(es) + REDACTED
  {
    hide ValueEnd, Step, Redacted, SerializedField, Delimiter, Nest, Unquoted;
    SerializedFieldSplit(es, v);
    StartsWith(SerializedField(es, v), Delimiter(es), Nest(es, v), "");
    ValueEndOfTruncation(es, v, before, n);
    SlicesAround(before, Delimiter(es), SerializedField(es, v)[..n], cursor);
    RedactedAtQuote(x, s, cursor, at, m, before[cursor..], Delimiter(es),
                    |before| + |Delimiter(es)|, None);
  }

  /** Where no name at or behind `at` has a value, nothing is changed. */
  lemma {:induction false} NamelessTextIsUnchanged(x: Lexer, s: string, cursor: nat, at: nat)
    requires x.Valid() && cursor <= at <= |s|
    requires forall i: nat :: at <= i <= |s| ==> x.search(s, i).None? || x.opening(s, x.search(s, i).value).None?
    ensures Redacted(x, s, cursor, at) == s[cursor..]
    decreases |s| - at
  {
    hide ValueEnd, Unquoted;
    if x.search(s, at).Some? {
      NamelessTextIsUnchanged(x, s, cursor, x.search(s, at).value.end);
    }
  }

  /** A name without a value is passed over: it stays in the output as it was. */
  lemma NameWithoutValueIsKept(x: Lexer, s: string, cursor: nat, at: nat, m: Match)
    requires x.Valid() && cursor <= at <= |s| && x.search(s, at) == Some(m) && x.opening(s, m).None?
    ensures Redacted(x, s, cursor, at) == Redacted(x, s, cursor, m.end)
  {
    hide ValueEnd, Unquoted;
  }

  lemma StepUnquoted(x: Lexer, s: string, cursor: nat, at: nat, m: Match, open: nat)
    requires x.Valid() && cursor <= at <= |s| && x.search(s, at) == Some(m) && x.opening(s, m) == Some((open, open))
    ensures open <= |s| && cursor <= open
    ensures var end := open + Unquoted(s[open..], START);
            Step(x, s, cursor, at) == Found(s[cursor..open] + REDACTED, Some((end, end)))
  {
    hide ValueEnd, Unquoted;
  }

  lemma RedactedUnquoted(x: Lexer, s: string, cursor: nat, at: nat, m: Match, open: nat, length: nat)
    requires x.Valid() && cursor <= at <= |s| && x.search(s, at) == Some(m) && x.opening(s, m) == Some((open, open))
    requires open <= |s| && Unquoted(s[open..], START) == length
    ensures cursor <= open && open + length <= |s|
    ensures Redacted(x, s, cursor, at) == s[cursor..open] + REDACTED + Redacted(x, s, open + length, open + length)
  {
    hide Step, Unquoted, Lexer.Valid;
    StepUnquoted(x, s, cursor, at, m, open);
  }

  /** An object or array after a name is replaced as a whole, at every depth of serialization:
      the output has the text before it, the mark, and goes on right behind it. */
  lemma SerializedContainerIsRedacted(x: Lexer, es: seq<Encoder>, ts: seq<Token>, before: string, rest: string,
                                      s: string, cursor: nat, at: nat, m: Match)
    requires x.Valid() && |es| > 0 && AllRegular(es) && Completes(ts, 0)
    requires rest == [] || rest[0] in ",;&\n}]"
    requires s == before + Nest(es[..|es| - 1], Render(es[|es| - 1], ts)) + rest && cursor <= at <= |before|
    requires x.search(s, at) == Some(m) && x.opening(s, m) == Some((|before|, |before|))
    ensures var end := |before| + |Nest(es[..|es| - 1], Render(es[|es| - 1], ts))|;
            Redacted(x, s, cursor, at) == before[cursor..] + REDACTED + Redacted(x, s, end, end)
  {
    hide Redacted, Unquoted, Nest, Render, Completes, AllRegular;
    var text := Nest(es[..|es| - 1], Render(es[|es| - 1], ts));
    UnquotedIsExact(es, ts, rest);
    BehindValue(before, text, rest, s, cursor);
    RedactedUnquoted(x, s, cursor, at, m, |before|, |text|);
  }

  /** So is a scalar. */
  lemma ScalarIsRedacted(x: Lexer, text: string, before: string, rest: string, s: string, cursor: nat, at: nat,
                         m: Match)
    requires x.Valid() && Scalar(text) && (rest == [] || rest[0] in ",;&\n}]")
    requires s == before + text + rest && cursor <= at <= |before|
    requires x.search(s, at) == Some(m) && x.opening(s, m) == Some((|before|, |before|))
    ensures var end := |before| + |text|;
            Redacted(x, s, cursor, at) == before[cursor..] + REDACTED + Redacted(x, s, end, end)
  {
    hide Redacted, Unquoted;
    ScalarIsExact(text, rest, START);
    BehindValue(before, text, rest, s, cursor);
    RedactedUnquoted(x, s, cursor, at, m, |before|, |text|);
  }

  lemma BehindValue(before: string, text: string, rest: string, s: string, cursor: nat)
    requires s == before + text + rest && cursor <= |before|
    ensures s[|before|..] == text + rest && s[cursor..|before|] == before[cursor..]
  {}
}
