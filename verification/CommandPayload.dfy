/**
 The command payload: how it is printed from a request id, a command and two argument
 objects of which the second overrides the first, and why the ingest scanner reads back
 exactly what was put in.
 */
module CommandPayload {
  import opened Base
  import opened JsonScan

  // ---------------------------------------------------------------- strings

  function EscapeChar(c: char): string {
    if c == '"' then "\\\""
    else if c == '\\' then "\\\\"
    else if c == '\n' then "\\n"
    else if c == '\r' then "\\r"
    else if c == '\t' then "\\t"
    else [c]
  }

  function Escape(s: string): string {
    if s == "" then "" else EscapeChar(s[0]) + Escape(s[1..])
  }

  /** What `writer_put_escaped` writes. */
  function Quote(s: string): string {
    "\"" + Escape(s) + "\""
  }

  /** The character an escape of the ingest scanner stands for, if it knows it. */
  function EscapeMeaning(c: char): Option<char> {
    if c == '"' || c == '\\' || c == '/' then Some(c)
    else if c == 'b' then Some('\U{8}')
    else if c == 'f' then Some('\U{C}')
    else if c == 'n' then Some('\n')
    else if c == 'r' then Some('\r')
    else if c == 't' then Some('\t')
    else None
  }

  /** `dci_json_copy_string_value` between the quotes; an unknown escape is kept as it stands. */
  function Unescape(t: string): (r: Result<string>) {
    if t == "" then Ok("")
    else if t[0] != '\\' then
      match Unescape(t[1..])
      case Fail(e) => Fail(e)
      case Ok(more) => Ok([t[0]] + more)
    else if |t| == 1 then Fail(InvalidArg)
    else
      match Unescape(t[2..])
      case Fail(e) => Fail(e)
      case Ok(more) =>
        var c := EscapeMeaning(t[1]);
        Ok((if c.Some? then [c.value] else ['\\', t[1]]) + more)
  }

  /** `dci_json_copy_string_value` into a buffer of `size` bytes. */
  function DecodeString(value: string, size: nat): Result<string> {
    if size == 0 || |value| < 2 || value[0] != '"' || value[|value| - 1] != '"' then Fail(InvalidArg)
    else
      match Unescape(value[1..|value| - 1])
      case Fail(e) => Fail(e)
      case Ok(s) => if |s| >= size then Fail(InvalidArg) else Ok(s)
  }

  /** An escaped character is itself, or a known escape for it. */
  lemma EscapeCharMeaning(c: char)
    ensures var e := EscapeChar(c);
      || (e == [c] && c != '\\' && c != '"')
      || (|e| == 2 && e[0] == '\\' && EscapeMeaning(e[1]) == Some(c))
  {
  }

  lemma {:induction false} UnescapeEscape(s: string)
    ensures Unescape(Escape(s)) == Ok(s)
  {
    if s != "" {
      UnescapeEscape(s[1..]);
      var e := EscapeChar(s[0]);
      EscapeCharMeaning(s[0]);
      assert Escape(s)[|e|..] == Escape(s[1..]);
      assert [s[0]] + s[1..] == s;
    }
  }

  /** Printing a string and decoding it is the identity, whenever it fits the buffer. */
  lemma QuoteDecodes(s: string, size: nat)
    requires |s| < size
    ensures DecodeString(Quote(s), size) == Ok(s)
  {
    UnescapeEscape(s);
    assert Quote(s)[1..|Quote(s)| - 1] == Escape(s);
  }

  lemma EscapeCharScans(c: char, more: string)
    ensures StringTail(EscapeChar(c) + more) == StringTail(more)
  {
    var e := EscapeChar(c);
    EscapeCharMeaning(c);
    assert (e + more)[|e|..] == more;
  }

  /** A printed string ends at its own closing quote, whatever it contains and whatever follows. */
  lemma {:induction false} QuoteScans(s: string, rest: string)
    ensures StringTail(Escape(s) + "\"" + rest) == Some(rest)
  {
    if s == "" {
      assert (Escape(s) + "\"" + rest)[1..] == rest;
    } else {
      var more := Escape(s[1..]) + "\"" + rest;
      QuoteScans(s[1..], rest);
      EscapeCharScans(s[0], more);
      assert Escape(s) + "\"" + rest == EscapeChar(s[0]) + more;
    }
  }

  // ---------------------------------------------------------------- numbers

  function Digit(d: nat): (c: char)
    requires d < 10
    ensures '0' <= c <= '9' && (c as int) - ('0' as int) == d
  {
    ('0' as int + d) as char
  }

  /** Decimal digits as `%lld` prints them. */
  function Decimal(n: nat): (s: string)
    ensures s != "" && forall i :: 0 <= i < |s| ==> '0' <= s[i] <= '9'
  {
    if n < 10 then [Digit(n)] else Decimal(n / 10) + [Digit(n % 10)]
  }

  function DecimalInt(n: int): string {
    if n < 0 then "-" + Decimal(-n) else Decimal(n)
  }

  const U64_MAX: nat := 0xFFFF_FFFF_FFFF_FFFF

  /** The digit loop of `dci_json_parse_u64_value`, with its overflow test; None is a refusal. */
  function ParseDigits(t: string, acc: nat): (r: Option<nat>) {
    if t == "" then Some(acc)
    else if !('0' <= t[0] <= '9') then None
    else
      var digit := t[0] as int - '0' as int;
      if acc > (U64_MAX - digit) / 10 then None else ParseDigits(t[1..], acc * 10 + digit)
  }

  function ParseU64(t: string): Option<nat> {
    if t == "" || t[0] == '-' then None else ParseDigits(t, 0)
  }

  lemma {:induction false} ParseDigitsAppend(t: string, acc: nat, c: char)
    requires ParseDigits(t, acc).Some? && '0' <= c <= '9'
    requires ParseDigits(t, acc).value <= (U64_MAX - (c as int - '0' as int)) / 10
    ensures ParseDigits(t + [c], acc) == Some(ParseDigits(t, acc).value * 10 + (c as int - '0' as int))
  {
    if t == "" {
      assert (t + [c])[1..] == "";
      assert ParseDigits("", acc * 10 + (c as int - '0' as int)).Some?;
    } else {
      assert (t + [c])[1..] == t[1..] + [c];
      ParseDigitsAppend(t[1..], acc * 10 + (t[0] as int - '0' as int), c);
    }
  }

  /** Every number up to the 64-bit limit survives printing and parsing; the overflow test refuses none of them. */
  lemma {:induction false} DecimalParses(n: nat)
    requires n <= U64_MAX
    ensures ParseDigits(Decimal(n), 0) == Some(n)
  {
    if n < 10 {
      assert Decimal(n)[1..] == "";
    } else {
      DecimalParses(n / 10);
      ParseDigitsAppend(Decimal(n / 10), 0, Digit(n % 10));
    }
  }

  // ---------------------------------------------------------------- printing

  /** Pair texts separated by commas, with a leading comma unless `first`. */
  function Join(first: bool, pairs: seq<JsonPair>): string {
    if pairs == [] then ""
    else if first then pairs[0].text + Join(false, pairs[1..])
    else "," + (pairs[0].text + Join(false, pairs[1..]))
  }

  function Put(w: Result<string>, text: string, cap: nat): Result<string> {
    match w
    case Fail(e) => Fail(e)
    case Ok(cur) => if |cur| + |text| >= cap then Fail(InvalidSize) else Ok(cur + text)
  }

  /** `json_object_has_key`: errors in the overriding object count as absence. */
  predicate HasKey(json: string, key: string) {
    FindInObject(json, key, COMMAND_DEPTH).Ok?
  }

  datatype Written = Written(text: string, first: bool)

  /** The loop of `writer_put_object_pairs`. */
  function PutPairs(cur: string, t: string, over: string, skip: bool, first: bool, cap: nat): (r: Result<Written>)
    ensures r.Ok? && |cur| < cap ==> |r.value.text| < cap
    decreases |t|
  {
    match NextPair(t, COMMAND_DEPTH)
    case NoMore(_) => Ok(Written(cur, first))
    case BadPair(e) => Fail(e)
    case Pair(pair, rest) =>
      if skip && HasKey(over, pair.key) then PutPairs(cur, rest, over, skip, first, cap)
      else
        match Put(Ok(cur), (if first then "" else ",") + pair.text, cap)
        case Fail(e) => Fail(e)
        case Ok(cur') => PutPairs(cur', rest, over, skip, false, cap)
  }

  /** `writer_put_object_pairs`; an absent object is the empty text. */
  function PutObject(w: Written, json: string, over: string, skip: bool, cap: nat): (r: Result<Written>)
    ensures r.Ok? && |w.text| < cap ==> |r.value.text| < cap
  {
    var p := SkipWs(json);
    if json == "" then Ok(w)
    else if p == "" || p[0] != '{' then Fail(InvalidArg)
    else PutPairs(w.text, p[1..], over, skip, w.first, cap)
  }

  /** `build_command_payload` */
  function Build(cap: nat, requestId: string, command: string, defaults: string, params: string, nowMs: int)
    : Result<string>
  {
    var w0 := Put(Ok(""), "{\"request_id\":", cap);
    var w1 := Put(w0, Quote(requestId), cap);
    var w2 := Put(w1, ",\"command\":", cap);
    var w3 := Put(w2, Quote(command), cap);
    match Put(w3, ",\"args\":{", cap)
    case Fail(e) => Fail(e)
    case Ok(head) =>
      match PutObject(Written(head, true), defaults, params, true, cap)
      case Fail(e) => Fail(e)
      case Ok(w) =>
        match PutObject(w, params, "", false, cap)
        case Fail(e) => Fail(e)
        case Ok(w') => Put(Put(Put(Ok(w'.text), "},\"ts_ms\":", cap), DecimalInt(nowMs), cap), "}", cap)
  }

  // ---------------------------------------------------------------- what is printed

  /** The pairs an argument object contributes, in order. */
  function ArgPairs(json: string): Result<seq<JsonPair>> {
    if json == "" then Ok([]) else ObjectPairs(json, COMMAND_DEPTH)
  }

  /** The pairs whose key the overriding object does not have. */
  function Kept(pairs: seq<JsonPair>, over: seq<JsonPair>): seq<JsonPair> {
    if pairs == [] then []
    else if First(over, pairs[0].key).Ok? then Kept(pairs[1..], over)
    else [pairs[0]] + Kept(pairs[1..], over)
  }

  function Merged(defaults: seq<JsonPair>, params: seq<JsonPair>): seq<JsonPair> {
    Kept(defaults, params) + params
  }

  /** The printed payload. */
  function PayloadText(requestId: string, command: string, args: seq<JsonPair>, nowMs: int): string {
    "{\"request_id\":" + (Quote(requestId) + (",\"command\":" + (Quote(command) + (",\"args\":{" +
    (Join(true, args) + ("},\"ts_ms\":" + (DecimalInt(nowMs) + "}")))))))
  }

  lemma HasKeyIsFirst(over: string, key: string)
    requires ArgPairs(over).Ok?
    ensures HasKey(over, key) <==> First(ArgPairs(over).value, key).Ok?
  {
    if over != "" {
      FindIsFirst(SkipWs(over)[1..], key, COMMAND_DEPTH);
    }
  }

  lemma {:induction false} JoinAppend(first: bool, a: seq<JsonPair>, b: seq<JsonPair>)
    ensures Join(first, a + b) == Join(first, a) + Join(first && a == [], b)
  {
    if a == [] {
      assert a + b == b;
    } else {
      assert (a + b)[1..] == a[1..] + b;
      JoinAppend(false, a[1..], b);
    }
  }

  /** The outcome of appending the texts of `pairs` under the length limit. */
  function Appended(cur: string, first: bool, pairs: seq<JsonPair>, cap: nat): Result<Written> {
    var text := cur + Join(first, pairs);
    if |text| < cap then Ok(Written(text, first && pairs == [])) else Fail(InvalidSize)
  }

  lemma AppendedCons(cur: string, first: bool, pair: JsonPair, more: seq<JsonPair>, cap: nat)
    ensures var piece := (if first then "" else ",") + pair.text;
      Appended(cur, first, [pair] + more, cap) ==
      if |cur| + |piece| < cap then Appended(cur + piece, false, more, cap) else Fail(InvalidSize)
  {
    var piece := (if first then "" else ",") + pair.text;
    assert ([pair] + more)[1..] == more;
    assert Join(first, [pair] + more) == piece + Join(false, more);
    assert cur + (piece + Join(false, more)) == cur + piece + Join(false, more);
  }

  /** The pairs the loop writes: all, or those not overridden. */
  function Selected(pairs: seq<JsonPair>, over: string, skip: bool): seq<JsonPair>
    requires skip ==> ArgPairs(over).Ok?
  {
    if skip then Kept(pairs, ArgPairs(over).value) else pairs
  }

  lemma SelectedCons(pair: JsonPair, more: seq<JsonPair>, over: string, skip: bool)
    requires skip ==> ArgPairs(over).Ok?
    ensures Selected([pair] + more, over, skip) ==
      if skip && HasKey(over, pair.key) then Selected(more, over, skip) else [pair] + Selected(more, over, skip)
  {
    assert ([pair] + more)[1..] == more;
    if skip { HasKeyIsFirst(over, pair.key); }
  }

  /** What the loop writes and when it fails: exactly when the text is malformed or too long. */
  lemma {:induction false} PutPairsSpec(cur: string, t: string, over: string, skip: bool, first: bool, cap: nat)
    requires |cur| < cap && (skip ==> ArgPairs(over).Ok?)
    ensures var r := PutPairs(cur, t, over, skip, first, cap);
      match Pairs(t, COMMAND_DEPTH)
      case Fail(_) => r.Fail?
      case Ok(pairs) => r == Appended(cur, first, Selected(pairs, over, skip), cap)
    decreases |t|
  {
    match NextPair(t, COMMAND_DEPTH)
    case NoMore(_) =>
      assert cur + Join(first, []) == cur;
    case BadPair(_) =>
    case Pair(pair, rest) =>
      var piece := (if first then "" else ",") + pair.text;
      if skip && HasKey(over, pair.key) {
        PutPairsSpec(cur, rest, over, skip, first, cap);
      } else if |cur| + |piece| < cap {
        PutPairsSpec(cur + piece, rest, over, skip, false, cap);
      }
      if Pairs(rest, COMMAND_DEPTH).Ok? {
        var more := Pairs(rest, COMMAND_DEPTH).value;
        SelectedCons(pair, more, over, skip);
        AppendedCons(cur, first, pair, Selected(more, over, skip), cap);
      }
  }

  lemma PutObjectSpec(w: Written, json: string, over: string, skip: bool, cap: nat)
    requires |w.text| < cap && (skip ==> ArgPairs(over).Ok?)
    ensures var r := PutObject(w, json, over, skip, cap);
      match ArgPairs(json)
      case Fail(_) => r.Fail?
      case Ok(pairs) => r == Appended(w.text, w.first, Selected(pairs, over, skip), cap)
  {
    if json == "" {
      assert w.text + Join(w.first, []) == w.text;
    } else if SkipWs(json) != "" && SkipWs(json)[0] == '{' {
      PutPairsSpec(w.text, SkipWs(json)[1..], over, skip, w.first, cap);
    }
  }

  /** The pieces in the order they are written, regrouped. */
  lemma Regroup(a: string, q1: string, b: string, q2: string, c: string, j: string, d: string, n: string, e: string)
    ensures a + q1 + b + q2 + c + j + d + n + e == a + (q1 + (b + (q2 + (c + (j + (d + (n + e)))))))
  {
    Assoc(a + q1 + b + q2 + c + j + d, n, e);
    Assoc(a + q1 + b + q2 + c + j, d, n + e);
    Assoc(a + q1 + b + q2 + c, j, d + (n + e));
    Assoc(a + q1 + b + q2, c, j + (d + (n + e)));
    Assoc(a + q1 + b, q2, c + (j + (d + (n + e))));
    Assoc(a + q1, b, q2 + (c + (j + (d + (n + e)))));
    Assoc(a, q1, b + (q2 + (c + (j + (d + (n + e))))));
  }

  function Head(requestId: string, command: string): string {
    "{\"request_id\":" + Quote(requestId) + ",\"command\":" + Quote(command) + ",\"args\":{"
  }

  lemma HeadIsPut(cap: nat, requestId: string, command: string)
    ensures Put(Put(Put(Put(Put(Ok(""), "{\"request_id\":", cap), Quote(requestId), cap), ",\"command\":", cap),
                    Quote(command), cap), ",\"args\":{", cap) ==
      if |Head(requestId, command)| < cap then Ok(Head(requestId, command)) else Fail(InvalidSize)
  {
    assert "" + "{\"request_id\":" == "{\"request_id\":";
  }

  /** After both objects: the merged arguments follow the head, or the build has failed. */
  lemma ArgsArePut(w: Written, defaults: string, params: string, cap: nat)
    requires |w.text| < cap && w.first
    ensures var first := PutObject(w, defaults, params, true, cap);
      var both := if first.Ok? then PutObject(first.value, params, "", false, cap) else first;
      if ArgPairs(defaults).Ok? && ArgPairs(params).Ok? then
        var text := w.text + Join(true, Merged(ArgPairs(defaults).value, ArgPairs(params).value));
        if |text| < cap then both.Ok? && both.value.text == text else both.Fail?
      else both.Fail?
  {
    var first := PutObject(w, defaults, params, true, cap);
    if ArgPairs(params).Ok? {
      PutObjectSpec(w, defaults, params, true, cap);
      if first.Ok? {
        PutObjectSpec(first.value, params, "", false, cap);
        var kept := Kept(ArgPairs(defaults).value, ArgPairs(params).value);
        JoinAppend(true, kept, ArgPairs(params).value);
        Assoc(w.text, Join(true, kept), Join(kept == [], ArgPairs(params).value));
      } else if ArgPairs(defaults).Ok? {
        JoinAppend(true, Kept(ArgPairs(defaults).value, ArgPairs(params).value), ArgPairs(params).value);
      }
    } else if first.Ok? {
      PutObjectSpec(first.value, params, "", false, cap);
    }
  }

  /**
   The builder succeeds exactly when both argument texts read through and the payload fits,
   and then it has written the payload.
   */
  lemma BuildWrites(cap: nat, requestId: string, command: string, defaults: string, params: string, nowMs: int)
    ensures var r := Build(cap, requestId, command, defaults, params, nowMs);
      if ArgPairs(defaults).Ok? && ArgPairs(params).Ok? then
        var text := PayloadText(requestId, command, Merged(ArgPairs(defaults).value, ArgPairs(params).value), nowMs);
        if |text| < cap then r == Ok(text) else r.Fail?
      else r.Fail?
  {
    var head := Head(requestId, command);
    HeadIsPut(cap, requestId, command);
    if |head| < cap {
      ArgsArePut(Written(head, true), defaults, params, cap);
    }
    if ArgPairs(defaults).Ok? && ArgPairs(params).Ok? {
      Regroup("{\"request_id\":", Quote(requestId), ",\"command\":", Quote(command), ",\"args\":{",
              Join(true, Merged(ArgPairs(defaults).value, ArgPairs(params).value)),
              "},\"ts_ms\":", DecimalInt(nowMs), "}");
    }
  }
}
