/**
 The hand-written JSON scanners. Texts are the characters before the terminating NUL (or
 before `end`), and a scanner is a function from what is left to read to what is left after it.
 Three copies of the value scanner exist: two with a bracket stack, bounded at 8 (command
 payloads) and 32 (device ingest), and one with a single counter (command parameters).
 */
module JsonScan {
  import opened Base

  datatype Err = InvalidArg | InvalidSize | NotSupported | NotFound

  datatype Result<+T> = Ok(value: T) | Fail(err: Err)

  const COMMAND_DEPTH: nat := 8
  const INGEST_DEPTH: nat := 32

  predicate IsWs(c: char) {
    c == ' ' || c == '\t' || c == '\r' || c == '\n'
  }

  predicate IsOpen(c: char) {
    c == '{' || c == '['
  }

  predicate IsClose(c: char) {
    c == '}' || c == ']'
  }

  function Closer(open: char): char {
    if open == '{' then '}' else ']'
  }

  /** The characters read between `t` and its tail `r`. */
  function Taken(t: string, r: string): string
    requires |r| <= |t|
  {
    t[..|t| - |r|]
  }

  function SkipWs(t: string): (r: string)
    ensures |r| <= |t| && (r != "" ==> !IsWs(r[0]))
  {
    if t != "" && IsWs(t[0]) then SkipWs(t[1..]) else t
  }

  /** What follows the closing quote of a string whose opening quote was just read. */
  function StringTail(t: string): (r: Option<string>)
    ensures r.Some? ==> |r.value| < |t|
  {
    if t == "" then None
    else if t[0] == '\\' then (if |t| == 1 then None else StringTail(t[2..]))
    else if t[0] == '"' then Some(t[1..])
    else StringTail(t[1..])
  }

  /** Reading to the bracket that closes the bottom of a non-empty stack of open brackets. */
  function StackScan(t: string, stack: seq<char>, max: nat): (r: Result<string>)
    requires stack != []
    ensures r.Ok? ==> |r.value| < |t|
    decreases |t|
  {
    if t == "" then Fail(InvalidArg)
    else if t[0] == '"' then
      var rest := StringTail(t[1..]);
      if rest.None? then Fail(InvalidArg) else StackScan(rest.value, stack, max)
    else if IsOpen(t[0]) then
      if |stack| >= max then Fail(InvalidSize) else StackScan(t[1..], stack + [t[0]], max)
    else if IsClose(t[0]) then
      if t[0] != Closer(stack[|stack| - 1]) then Fail(InvalidArg)
      else if |stack| == 1 then Ok(t[1..])
      else StackScan(t[1..], stack[..|stack| - 1], max)
    else StackScan(t[1..], stack, max)
  }

  /** Reading to the bracket that brings the count of `open` down to zero, blind to the other kind. */
  function CountScan(t: string, open: char, depth: nat): (r: Result<string>)
    ensures r.Ok? ==> |r.value| < |t|
    decreases |t|
  {
    if t == "" then Fail(InvalidArg)
    else if t[0] == '"' then
      var rest := StringTail(t[1..]);
      if rest.None? then Fail(InvalidArg) else CountScan(rest.value, open, depth)
    else if t[0] == open then CountScan(t[1..], open, depth + 1)
    else if t[0] == Closer(open) then
      if depth <= 1 then Ok(t[1..]) else CountScan(t[1..], open, depth - 1)
    else CountScan(t[1..], open, depth)
  }

  /** A bare scalar runs to the next comma or closing brace. */
  function ScalarTail(t: string): (r: string)
    ensures |r| <= |t|
  {
    if t == "" || t[0] == ',' || t[0] == '}' then t else ScalarTail(t[1..])
  }

  /** A value whose leading white space was skipped. */
  function ReadValue(v: string, max: nat): (r: Result<string>)
    ensures r.Ok? ==> |r.value| <= |v|
  {
    if v == "" then Fail(InvalidArg)
    else if v[0] == '"' then
      var rest := StringTail(v[1..]);
      if rest.None? then Fail(InvalidArg) else Ok(rest.value)
    else if IsOpen(v[0]) then StackScan(v[1..], [v[0]], max)
    else Ok(ScalarTail(v))
  }

  /** `json_skip_value` (`max` 8) and `dci_json_skip_value` (`max` 32) */
  function SkipValue(t: string, max: nat): (r: Result<string>)
    ensures r.Ok? ==> |r.value| <= |t|
  {
    ReadValue(SkipWs(t), max)
  }

  /** `params_skip_value` */
  function SkipValueByCount(t: string): (r: Result<string>)
    ensures r.Ok? ==> |r.value| <= |t|
  {
    var v := SkipWs(t);
    if v == "" then Fail(InvalidArg)
    else if v[0] == '"' then
      var rest := StringTail(v[1..]);
      if rest.None? then Fail(InvalidArg) else Ok(rest.value)
    else if IsOpen(v[0]) then CountScan(v[1..], v[0], 1)
    else Ok(ScalarTail(v))
  }

  // ---------------------------------------------------------------- the scanners agree

  /** How many of the open brackets are of the kind counted. */
  function CountOf(stack: seq<char>, c: char): nat {
    if stack == [] then 0 else CountOf(stack[..|stack| - 1], c) + if stack[|stack| - 1] == c then 1 else 0
  }

  lemma {:induction false} CountOfBottom(stack: seq<char>)
    requires stack != []
    ensures CountOf(stack, stack[0]) >= 1
  {
    if |stack| > 1 { CountOfBottom(stack[..|stack| - 1]); }
  }

  /** The counter is the number of brackets of its kind on the stack, so both stop at the same place. */
  lemma {:induction false} CountAgrees(t: string, stack: seq<char>, max: nat)
    requires stack != [] && (forall i :: 0 <= i < |stack| ==> IsOpen(stack[i]))
    requires StackScan(t, stack, max).Ok?
    ensures CountScan(t, stack[0], CountOf(stack, stack[0])) == StackScan(t, stack, max)
    decreases |t|
  {
    CountOfBottom(stack);
    if t[0] == '"' {
      CountAgrees(StringTail(t[1..]).value, stack, max);
    } else if IsOpen(t[0]) {
      assert (stack + [t[0]])[..|stack|] == stack;
      CountAgrees(t[1..], stack + [t[0]], max);
    } else if IsClose(t[0]) {
      if |stack| > 1 {
        CountOfBottom(stack[..|stack| - 1]);
        CountAgrees(t[1..], stack[..|stack| - 1], max);
      }
    } else {
      CountAgrees(t[1..], stack, max);
    }
  }

  /** A deeper stack accepts whatever a shallower one accepts, and stops at the same place. */
  lemma {:induction false} DeeperAgrees(t: string, stack: seq<char>, max: nat, deeper: nat)
    requires stack != [] && max <= deeper && StackScan(t, stack, max).Ok?
    ensures StackScan(t, stack, deeper) == StackScan(t, stack, max)
    decreases |t|
  {
    if t[0] == '"' {
      DeeperAgrees(StringTail(t[1..]).value, stack, max, deeper);
    } else if IsOpen(t[0]) {
      DeeperAgrees(t[1..], stack + [t[0]], max, deeper);
    } else if IsClose(t[0]) {
      if |stack| > 1 { DeeperAgrees(t[1..], stack[..|stack| - 1], max, deeper); }
    } else {
      DeeperAgrees(t[1..], stack, max, deeper);
    }
  }

  /** On every value a stack scanner of any depth accepts, all three scanners stop at the same place. */
  lemma ScannersAgree(t: string, max: nat, deeper: nat)
    requires max <= deeper && SkipValue(t, max).Ok?
    ensures SkipValueByCount(t) == SkipValue(t, max) == SkipValue(t, deeper)
  {
    var v := SkipWs(t);
    if IsOpen(v[0]) {
      assert [v[0]][..0] == [];
      assert CountOf([v[0]], v[0]) == 1;
      CountAgrees(v[1..], [v[0]], max);
      DeeperAgrees(v[1..], [v[0]], max, deeper);
    }
  }

  /** The converse fails: the counter does not notice a bracket of the other kind. */
  lemma CounterIsLaxer()
    ensures SkipValueByCount("[}]") == Ok("") && SkipValue("[}]", INGEST_DEPTH) == Fail(InvalidArg)
  {
    var t := "[}]";
    assert SkipWs(t) == t && t[1..] == "}]" && t[1..][1..] == "]" && t[1..][1..][1..] == "";
    assert CountScan("]", '[', 1) == Ok("]"[1..]);
    assert CountScan("}]", '[', 1) == CountScan("}]"[1..], '[', 1);
  }

  // ---------------------------------------------------------------- objects

  datatype KeyScan = Key(key: string, rest: string) | BadKey(err: Err)

  /** A key runs to the next quote; escapes are not supported in keys. */
  function ReadKey(t: string): (r: KeyScan)
    ensures r.Key? ==> |r.rest| < |t|
  {
    if t == "" then BadKey(InvalidArg)
    else if t[0] == '\\' then BadKey(NotSupported)
    else if t[0] == '"' then Key("", t[1..])
    else
      match ReadKey(t[1..])
      case BadKey(e) => BadKey(e)
      case Key(key, rest) => Key([t[0]] + key, rest)
  }

  /** A pair as found: its key, its value text without leading white space, and its whole text. */
  datatype JsonPair = JsonPair(key: string, value: string, text: string)

  datatype PairScan = Pair(pair: JsonPair, rest: string) | NoMore(rest: string) | BadPair(err: Err)

  /** The end of a pair: `p` starts at its key and `v` at its value. */
  function ReadPairValue(p: string, key: string, v: string, max: nat): (r: PairScan)
    requires |v| < |p|
    ensures r.Pair? ==> |r.rest| <= |v|
  {
    match ReadValue(v, max)
    case Fail(_) => BadPair(InvalidArg)
    case Ok(afterValue) =>
      var next := SkipWs(afterValue);
      if next == "" || (next[0] != ',' && next[0] != '}') then BadPair(InvalidArg)
      else Pair(JsonPair(key, Taken(v, afterValue), Taken(p, afterValue)), if next[0] == ',' then next[1..] else next)
  }

  /** The colon and the value of a pair whose key was read. */
  function ReadPairRest(p: string, key: string, afterKey: string, max: nat): (r: PairScan)
    requires |afterKey| < |p|
    ensures r.Pair? ==> |r.rest| < |p|
  {
    var colon := SkipWs(afterKey);
    if colon == "" || colon[0] != ':' then BadPair(InvalidArg)
    else ReadPairValue(p, key, SkipWs(colon[1..]), max)
  }

  /** `json_next_pair` (`max` 8) and `dci_json_next_pair` (`max` 32) */
  function NextPair(t: string, max: nat): (r: PairScan)
    ensures r.Pair? ==> |r.rest| < |t|
  {
    var p := SkipWs(t);
    if p == "" then BadPair(InvalidArg)
    else if p[0] == '}' then NoMore(p[1..])
    else if p[0] != '"' then BadPair(InvalidArg)
    else
      match ReadKey(p[1..])
      case BadKey(e) => BadPair(e)
      case Key(key, afterKey) => ReadPairRest(p, key, afterKey, max)
  }

  /** All pairs up to the closing brace, or the first error met on the way. */
  function Pairs(t: string, max: nat): (r: Result<seq<JsonPair>>)
    decreases |t|
  {
    match NextPair(t, max)
    case NoMore(_) => Ok([])
    case BadPair(e) => Fail(e)
    case Pair(pair, rest) =>
      match Pairs(rest, max)
      case Fail(e) => Fail(e)
      case Ok(more) => Ok([pair] + more)
  }

  /** The pairs of a text that must hold an object. */
  function ObjectPairs(t: string, max: nat): Result<seq<JsonPair>> {
    var p := SkipWs(t);
    if p == "" || p[0] != '{' then Fail(InvalidArg) else Pairs(p[1..], max)
  }

  /** The value found by walking the pairs for a key; an error on the way ends the search. */
  function FindValue(t: string, key: string, max: nat): (r: Result<string>)
    decreases |t|
  {
    match NextPair(t, max)
    case NoMore(_) => Fail(NotFound)
    case BadPair(e) => Fail(e)
    case Pair(pair, rest) => if pair.key == key then Ok(pair.value) else FindValue(rest, key, max)
  }

  /** `dci_json_find_pair_in_object` (`max` 32); `json_object_has_key` is its success with `max` 8. */
  function FindInObject(t: string, key: string, max: nat): Result<string> {
    var p := SkipWs(t);
    if p == "" || p[0] != '{' then Fail(InvalidArg) else FindValue(p[1..], key, max)
  }

  /** The value of the first pair with the key. */
  function First(pairs: seq<JsonPair>, key: string): Result<string> {
    if pairs == [] then Fail(NotFound)
    else if pairs[0].key == key then Ok(pairs[0].value) else First(pairs[1..], key)
  }

  /** In an object that reads through, the search is the first match in reading order. */
  lemma {:induction false} FindIsFirst(t: string, key: string, max: nat)
    requires Pairs(t, max).Ok?
    ensures FindValue(t, key, max) == First(Pairs(t, max).value, key)
    decreases |t|
  {
    match NextPair(t, max)
    case NoMore(_) =>
    case BadPair(_) =>
    case Pair(pair, rest) => FindIsFirst(rest, key, max);
  }
}
