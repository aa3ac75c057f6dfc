/**
 Reading back: scanning does not depend on what follows, a pair copied into another object
 is found there unchanged, and so the ingest scanner recovers the whole payload.
 */
module CommandRoundTrip {
  import opened Base
  import opened JsonScan
  import opened CommandPayload

  // ---------------------------------------------------------------- scanning is local

  predicate AllWs(w: string) {
    forall i :: 0 <= i < |w| ==> IsWs(w[i])
  }

  /** What is taken from a text begins with its first character and goes on with what is taken from the rest. */
  lemma TakenMore(t: string, rest: string, r: string)
    requires t != "" && rest == t[1..] && |r| <= |rest| && rest == Taken(rest, r) + r
    ensures Taken(t, r) == [t[0]] + Taken(rest, r) && t == Taken(t, r) + r
  {
    var n := |rest| - |r|;
    assert t == [t[0]] + rest;
    assert t[..n + 1] == [t[0]] + rest[..n];
  }

  lemma {:induction false} WsSplit(t: string)
    ensures AllWs(Taken(t, SkipWs(t))) && t == Taken(t, SkipWs(t)) + SkipWs(t)
  {
    if t != "" && IsWs(t[0]) {
      WsSplit(t[1..]);
      TakenMore(t, t[1..], SkipWs(t[1..]));
    }
  }

  lemma {:induction false} WsSkips(w: string, rest: string)
    requires AllWs(w) && (rest != "" ==> !IsWs(rest[0]))
    ensures SkipWs(w + rest) == rest
  {
    if w == "" {
      assert w + rest == rest;
    } else {
      assert (w + rest)[1..] == w[1..] + rest;
      WsSkips(w[1..], rest);
    }
  }

  lemma {:induction false} StringSplit(t: string)
    requires StringTail(t).Some?
    ensures t == Taken(t, StringTail(t).value) + StringTail(t).value
  {
    if t[0] == '\\' { StringSplit(t[2..]); } else if t[0] != '"' { StringSplit(t[1..]); }
  }

  lemma {:induction false} StackSplit(t: string, stack: seq<char>, max: nat)
    requires stack != [] && StackScan(t, stack, max).Ok?
    ensures t == Taken(t, StackScan(t, stack, max).value) + StackScan(t, stack, max).value
    decreases |t|
  {
    var r := StackScan(t, stack, max).value;
    if t[0] == '"' {
      var s := StringTail(t[1..]).value;
      StackSplit(s, stack, max);
      StringSplit(t[1..]);
    } else if IsOpen(t[0]) {
      StackSplit(t[1..], stack + [t[0]], max);
    } else if IsClose(t[0]) {
      if |stack| > 1 { StackSplit(t[1..], stack[..|stack| - 1], max); }
    } else {
      StackSplit(t[1..], stack, max);
    }
  }

  lemma {:induction false} ScalarSplit(t: string)
    ensures t == Taken(t, ScalarTail(t)) + ScalarTail(t)
  {
    if t != "" && t[0] != ',' && t[0] != '}' { ScalarSplit(t[1..]); }
  }

  /** What is left after a value is the end of the text it was read from. */
  lemma ValueSplit(v: string, max: nat)
    requires ReadValue(v, max).Ok?
    ensures v == Taken(v, ReadValue(v, max).value) + ReadValue(v, max).value
  {
    if v[0] == '"' {
      StringSplit(v[1..]);
    } else if IsOpen(v[0]) {
      StackSplit(v[1..], [v[0]], max);
    } else {
      ScalarSplit(v);
    }
  }

  lemma {:induction false} StringExtends(v: string, more: string)
    requires StringTail(v).Some?
    ensures StringTail(v + more) == Some(StringTail(v).value + more)
  {
    if v[0] == '\\' {
      assert (v + more)[2..] == v[2..] + more;
      StringExtends(v[2..], more);
    } else {
      assert (v + more)[1..] == v[1..] + more;
      if v[0] != '"' { StringExtends(v[1..], more); }
    }
  }

  lemma {:induction false} StringCut(t: string)
    requires StringTail(t).Some?
    ensures StringTail(Taken(t, StringTail(t).value)) == Some("")
  {
    var r := StringTail(t).value;
    var v := Taken(t, r);
    if t[0] == '\\' {
      assert v[2..] == Taken(t[2..], r);
      StringCut(t[2..]);
    } else {
      assert v[1..] == Taken(t[1..], r);
      if t[0] != '"' { StringCut(t[1..]); }
    }
  }

  /** A bracketed value read in isolation reads the same before `more`, under any stack that leaves room. */
  lemma {:induction false} StackNests(v: string, stack: seq<char>, max: nat, outer: seq<char>, deeper: nat,
                                      more: string)
    requires stack != [] && StackScan(v, stack, max).Ok? && |outer| + max <= deeper
    ensures var rest := StackScan(v, stack, max).value + more;
      StackScan(v + more, outer + stack, deeper) ==
      if outer == [] then Ok(rest) else StackScan(rest, outer, deeper)
    decreases |v|
  {
    assert (v + more)[1..] == v[1..] + more;
    if v[0] == '"' {
      StringExtends(v[1..], more);
      StackNests(StringTail(v[1..]).value, stack, max, outer, deeper, more);
    } else if IsOpen(v[0]) {
      assert outer + stack + [v[0]] == outer + (stack + [v[0]]);
      StackNests(v[1..], stack + [v[0]], max, outer, deeper, more);
    } else if IsClose(v[0]) {
      var both := outer + stack;
      assert both[..|both| - 1] == outer + stack[..|stack| - 1];
      if |stack| == 1 {
        assert both[..|both| - 1] == outer;
      } else {
        StackNests(v[1..], stack[..|stack| - 1], max, outer, deeper, more);
      }
    } else {
      StackNests(v[1..], stack, max, outer, deeper, more);
    }
  }

  lemma {:induction false} StackCut(t: string, stack: seq<char>, max: nat)
    requires stack != [] && StackScan(t, stack, max).Ok?
    ensures StackScan(Taken(t, StackScan(t, stack, max).value), stack, max) == Ok("")
    decreases |t|
  {
    var r := StackScan(t, stack, max).value;
    var v := Taken(t, r);
    assert v[1..] == Taken(t[1..], r);
    if t[0] == '"' {
      var s := StringTail(t[1..]).value;
      StackCut(s, stack, max);
      StringCut(t[1..]);
      StringSplit(t[1..]);
      assert v[1..] == Taken(t[1..], s) + Taken(s, r);
      StringExtends(Taken(t[1..], s), Taken(s, r));
      assert "" + Taken(s, r) == Taken(s, r);
    } else if IsOpen(t[0]) {
      StackCut(t[1..], stack + [t[0]], max);
    } else if IsClose(t[0]) {
      if |stack| > 1 { StackCut(t[1..], stack[..|stack| - 1], max); }
    } else {
      StackCut(t[1..], stack, max);
    }
  }

  lemma {:induction false} ScalarCut(t: string)
    ensures ScalarTail(Taken(t, ScalarTail(t))) == ""
  {
    if t != "" && t[0] != ',' && t[0] != '}' {
      assert Taken(t, ScalarTail(t))[1..] == Taken(t[1..], ScalarTail(t));
      ScalarCut(t[1..]);
    }
  }

  lemma {:induction false} ScalarExtends(v: string, more: string)
    requires ScalarTail(v) == "" && more != "" && (more[0] == ',' || more[0] == '}')
    ensures ScalarTail(v + more) == more
  {
    if v == "" {
      assert v + more == more;
    } else {
      assert (v + more)[1..] == v[1..] + more;
      ScalarExtends(v[1..], more);
    }
  }

  // ---------------------------------------------------------------- the shape of a pair

  predicate IsScalar(v: string) {
    v == "" || (v[0] != '"' && !IsOpen(v[0]))
  }

  /** A text that a value scanner of depth `max` reads to its end and not beyond. */
  predicate IsValue(v: string, max: nat) {
    if IsScalar(v) then ScalarTail(v) == "" && (v != "" ==> !IsWs(v[0]))
    else if v[0] == '"' then StringTail(v[1..]) == Some("")
    else StackScan(v[1..], [v[0]], max) == Ok("")
  }

  predicate CleanKey(key: string) {
    forall i :: 0 <= i < |key| ==> key[i] != '"' && key[i] != '\\'
  }

  function Spaced(key: string, ws1: string, ws2: string, value: string): string {
    "\"" + (key + ("\"" + (ws1 + (":" + (ws2 + value)))))
  }

  lemma SpacedAppend(key: string, ws1: string, ws2: string, value: string, rest: string)
    ensures Spaced(key, ws1, ws2, value) + rest == Spaced(key, ws1, ws2, value + rest)
  {
    var colon := ":" + (ws2 + value);
    var quote := "\"" + (ws1 + colon);
    Assoc("\"", key + quote, rest);
    Assoc(key, quote, rest);
    Assoc("\"", ws1 + colon, rest);
    Assoc(ws1, colon, rest);
    Assoc(":", ws2 + value, rest);
    Assoc(ws2, value, rest);
  }

  /** What may follow a pair inside an object. */
  predicate Ends(rest: string) {
    rest != "" && (rest[0] == ',' || rest[0] == '}')
  }

  function AfterComma(rest: string): string
    requires Ends(rest)
  {
    if rest[0] == ',' then rest[1..] else rest
  }

  /** Copied into any object, the pair is found there as it is. */
  ghost predicate ReadsBack(p: JsonPair, max: nat) {
    forall rest: string {:trigger NextPair(p.text + rest, max)} :: Ends(rest) ==>
      NextPair(p.text + rest, max) == Pair(p, AfterComma(rest))
  }

  lemma {:induction false} KeyIsClean(t: string)
    requires ReadKey(t).Key?
    ensures CleanKey(ReadKey(t).key)
  {
    if t[0] != '"' {
      KeyIsClean(t[1..]);
      var more := ReadKey(t[1..]).key;
      assert ReadKey(t).key == [t[0]] + more;
      assert forall i :: 0 <= i < |more| ==> more[i] != '"' && more[i] != '\\';
      assert forall i :: 1 <= i < |more| + 1 ==> ([t[0]] + more)[i] == more[i - 1];
    }
  }

  lemma {:induction false} KeySplit(t: string)
    requires ReadKey(t).Key?
    ensures t == ReadKey(t).key + ("\"" + ReadKey(t).rest)
  {
    if t[0] != '"' { KeySplit(t[1..]); }
  }

  lemma {:induction false} KeyReads(key: string, rest: string)
    requires CleanKey(key)
    ensures ReadKey(key + ("\"" + rest)) == Key(key, rest)
  {
    var t := key + ("\"" + rest);
    if key == "" {
      assert t == "\"" + rest && t[1..] == rest;
    } else {
      assert t[1..] == key[1..] + ("\"" + rest);
      KeyReads(key[1..], rest);
      assert [key[0]] + key[1..] == key;
    }
  }

  lemma StringValueCut(v: string)
    requires v != "" && v[0] == '"' && StringTail(v[1..]).Some?
    ensures StringTail(Taken(v, StringTail(v[1..]).value)[1..]) == Some("")
  {
    StringCut(v[1..]);
    assert Taken(v, StringTail(v[1..]).value)[1..] == Taken(v[1..], StringTail(v[1..]).value);
  }

  lemma BracketValueCut(v: string, max: nat)
    requires v != "" && StackScan(v[1..], [v[0]], max).Ok?
    ensures StackScan(Taken(v, StackScan(v[1..], [v[0]], max).value)[1..], [v[0]], max) == Ok("")
  {
    var r := StackScan(v[1..], [v[0]], max).value;
    StackCut(v[1..], [v[0]], max);
    assert Taken(v, r)[1..] == Taken(v[1..], r);
  }

  lemma ValueIsCut(v: string, max: nat)
    requires ReadValue(v, max).Ok? && !IsWs(v[0])
    ensures IsValue(Taken(v, ReadValue(v, max).value), max)
  {
    if v[0] == '"' {
      StringValueCut(v);
    } else if IsOpen(v[0]) {
      BracketValueCut(v, max);
    } else {
      ScalarCut(v);
    }
  }

  lemma ValueReads(v: string, max: nat, deeper: nat, rest: string)
    requires IsValue(v, max) && max <= deeper
    requires rest != "" && (rest[0] == ',' || rest[0] == '}')
    ensures ReadValue(v + rest, deeper) == Ok(rest)
  {
    if IsScalar(v) {
      assert v == "" ==> v + rest == rest;
      ScalarExtends(v, rest);
    } else {
      assert (v + rest)[1..] == v[1..] + rest && "" + rest == rest;
      if v[0] == '"' {
        StringExtends(v[1..], rest);
      } else {
        StackNests(v[1..], [v[0]], max, [], deeper, rest);
        assert [] + [v[0]] == [v[0]];
      }
    }
  }

  /** Key, colon, value and the white space between them, glued together. */
  lemma Glue(p: string, key: string, ws1: string, colon: string, ws2: string, v: string)
    requires p != "" && p[0] == '"' && p[1..] == key + ("\"" + (ws1 + colon))
    requires colon != "" && colon[0] == ':' && colon[1..] == ws2 + v
    ensures p == Spaced(key, ws1, ws2, v)
  {
    assert colon == ":" + (ws2 + v);
    assert p == "\"" + (key + ("\"" + (ws1 + colon)));
  }

  lemma PairText(p: string, key: string, ws1: string, ws2: string, value: string, r: string)
    requires |r| <= |p| && p == Spaced(key, ws1, ws2, value + r)
    ensures Taken(p, r) == Spaced(key, ws1, ws2, value)
  {
    SpacedAppend(key, ws1, ws2, value, r);
  }

  /** The text of an accepted pair is its key and its value with white space around the colon. */
  lemma AcceptedText(p: string, key: string, afterKey: string, v: string, r: string) returns (ws1: string, ws2: string)
    requires p != "" && p[0] == '"' && p[1..] == key + ("\"" + afterKey)
    requires var colon := SkipWs(afterKey); colon != "" && colon[0] == ':' && v == SkipWs(colon[1..])
    requires |r| <= |v| && |r| <= |p| && v == Taken(v, r) + r
    ensures AllWs(ws1) && AllWs(ws2) && Taken(p, r) == Spaced(key, ws1, ws2, Taken(v, r))
  {
    var colon := SkipWs(afterKey);
    ws1, ws2 := Taken(afterKey, colon), Taken(colon[1..], v);
    WsSplit(afterKey);
    WsSplit(colon[1..]);
    Glue(p, key, ws1, colon, ws2, v);
    PairText(p, key, ws1, ws2, Taken(v, r), r);
  }

  lemma ValueFollowed(text: string, key: string, value: string, rest: string, max: nat)
    requires IsValue(value, max) && Ends(rest) && |value| < |text|
    ensures ReadPairValue(text + rest, key, value + rest, max) == Pair(JsonPair(key, value, text), AfterComma(rest))
  {
    ValueReads(value, max, max, rest);
    assert Taken(value + rest, rest) == value;
    assert Taken(text + rest, rest) == text;
    assert SkipWs(rest) == rest;
  }

  lemma ColonFollowed(p: string, key: string, ws1: string, ws2: string, v: string, max: nat)
    requires AllWs(ws1) && AllWs(ws2) && (v != "" ==> !IsWs(v[0]))
    requires |ws1 + (":" + (ws2 + v))| < |p|
    ensures ReadPairRest(p, key, ws1 + (":" + (ws2 + v)), max) == ReadPairValue(p, key, v, max)
  {
    var colon := ":" + (ws2 + v);
    WsSkips(ws1, colon);
    assert colon[1..] == ws2 + v;
    WsSkips(ws2, v);
  }

  lemma KeyFollowed(key: string, after: string, max: nat)
    requires CleanKey(key)
    ensures var t := "\"" + (key + ("\"" + after)); NextPair(t, max) == ReadPairRest(t, key, after, max)
  {
    var t := "\"" + (key + ("\"" + after));
    KeyReads(key, after);
    assert t[1..] == key + ("\"" + after);
    assert SkipWs(t) == t;
  }

  /** A pair followed by a comma or the closing brace is read back as it is. */
  lemma PairReads(key: string, ws1: string, ws2: string, value: string, max: nat)
    requires CleanKey(key) && AllWs(ws1) && AllWs(ws2) && IsValue(value, max)
    ensures ReadsBack(JsonPair(key, value, Spaced(key, ws1, ws2, value)), max)
  {
    var text := Spaced(key, ws1, ws2, value);
    forall rest: string | Ends(rest)
      ensures NextPair(text + rest, max) == Pair(JsonPair(key, value, text), AfterComma(rest))
    {
      var v := value + rest;
      SpacedAppend(key, ws1, ws2, value, rest);
      KeyFollowed(key, ws1 + (":" + (ws2 + v)), max);
      ColonFollowed(text + rest, key, ws1, ws2, v, max);
      ValueFollowed(text, key, value, rest, max);
    }
  }

  lemma IsValueDeeper(v: string, max: nat, deeper: nat)
    requires IsValue(v, max) && max <= deeper
    ensures IsValue(v, deeper)
  {
    if !IsScalar(v) && v[0] != '"' { DeeperAgrees(v[1..], [v[0]], max, deeper); }
  }

  // ---------------------------------------------------------------- a pair inside a bracket scan

  /** Characters a bracket scan passes over. */
  predicate Plain(w: string) {
    forall i :: 0 <= i < |w| ==> w[i] != '"' && !IsOpen(w[i]) && !IsClose(w[i])
  }

  /** The assumption on bare scalars: JSON numbers, true, false and null all meet it. */
  predicate PlainScalar(v: string) {
    IsScalar(v) ==> Plain(v)
  }

  /** A bracket scan with room for `room` more levels passes over the text. */
  ghost predicate Neutral(text: string, room: nat, max: nat) {
    forall rest: string, stack: seq<char> {:trigger StackScan(text + rest, stack, max)} ::
      stack != [] && |stack| + room <= max ==>
      StackScan(text + rest, stack, max) == StackScan(rest, stack, max)
  }

  lemma {:induction false} PlainSkips(w: string, rest: string, stack: seq<char>, max: nat)
    requires Plain(w) && stack != []
    ensures StackScan(w + rest, stack, max) == StackScan(rest, stack, max)
  {
    if w == "" {
      assert w + rest == rest;
    } else {
      assert (w + rest)[1..] == w[1..] + rest;
      PlainSkips(w[1..], rest, stack, max);
    }
  }

  lemma {:induction false} KeyStringTail(key: string, after: string)
    requires CleanKey(key)
    ensures StringTail(key + ("\"" + after)) == Some(after)
  {
    var t := key + ("\"" + after);
    if key == "" {
      assert t == "\"" + after && t[1..] == after;
    } else {
      assert t[1..] == key[1..] + ("\"" + after);
      KeyStringTail(key[1..], after);
    }
  }

  lemma KeySkips(key: string, after: string, stack: seq<char>, max: nat)
    requires CleanKey(key) && stack != []
    ensures StackScan("\"" + (key + ("\"" + after)), stack, max) == StackScan(after, stack, max)
  {
    KeyStringTail(key, after);
    assert ("\"" + (key + ("\"" + after)))[1..] == key + ("\"" + after);
  }

  lemma ValueSkips(v: string, rest: string, room: nat, stack: seq<char>, max: nat)
    requires IsValue(v, room) && PlainScalar(v) && stack != [] && |stack| + room <= max && room > 0
    ensures StackScan(v + rest, stack, max) == StackScan(rest, stack, max)
  {
    if IsScalar(v) {
      PlainSkips(v, rest, stack, max);
    } else {
      assert (v + rest)[1..] == v[1..] + rest && "" + rest == rest;
      if v[0] == '"' {
        StringExtends(v[1..], rest);
      } else {
        StackNests(v[1..], [v[0]], room, stack, max, rest);
      }
    }
  }

  lemma PairNeutral(key: string, ws1: string, ws2: string, value: string, room: nat, max: nat)
    requires CleanKey(key) && AllWs(ws1) && AllWs(ws2) && IsValue(value, room) && PlainScalar(value) && room > 0
    ensures Neutral(Spaced(key, ws1, ws2, value), room, max)
  {
    forall rest: string, stack: seq<char> | stack != [] && |stack| + room <= max
      ensures StackScan(Spaced(key, ws1, ws2, value) + rest, stack, max) == StackScan(rest, stack, max)
    {
      var v := value + rest;
      SpacedAppend(key, ws1, ws2, value, rest);
      KeySkips(key, ws1 + (":" + (ws2 + v)), stack, max);
      PlainSkips(ws1, ":" + (ws2 + v), stack, max);
      PlainSkips(":", ws2 + v, stack, max);
      PlainSkips(ws2, v, stack, max);
      ValueSkips(value, rest, room, stack, max);
    }
  }

  // ---------------------------------------------------------------- lists of pairs

  /** A pair that may be copied: read back unchanged by the ingest scanner, and invisible to its bracket scan. */
  ghost predicate Portable(p: JsonPair) {
    ReadsBack(p, INGEST_DEPTH) && Neutral(p.text, COMMAND_DEPTH, INGEST_DEPTH)
  }

  lemma NextPairPieces(t: string, max: nat) returns (key: string, afterKey: string, v: string, r: string)
    requires NextPair(t, max).Pair?
    ensures var p := SkipWs(t); p != "" && p[0] == '"' && ReadKey(p[1..]) == Key(key, afterKey)
    ensures var colon := SkipWs(afterKey); colon != "" && colon[0] == ':' && v == SkipWs(colon[1..])
    ensures v != "" && ReadValue(v, max) == Ok(r) && |r| <= |v| && |r| <= |SkipWs(t)|
    ensures NextPair(t, max).pair == JsonPair(key, Taken(v, r), Taken(SkipWs(t), r))
  {
    var p := SkipWs(t);
    key, afterKey := ReadKey(p[1..]).key, ReadKey(p[1..]).rest;
    v := SkipWs(SkipWs(afterKey)[1..]);
    r := ReadValue(v, max).value;
  }

  /** Read back by the ingest scanner in any case, and invisible to its bracket scan unless it is an odd scalar. */
  ghost predicate Copies(p: JsonPair) {
    ReadsBack(p, INGEST_DEPTH) && (PlainScalar(p.value) ==> Portable(p))
  }

  /** Whatever the payload builder accepts as a pair may be copied. */
  lemma AcceptedCopies(t: string)
    requires NextPair(t, COMMAND_DEPTH).Pair?
    ensures Copies(NextPair(t, COMMAND_DEPTH).pair)
  {
    var key, afterKey, v, r := NextPairPieces(t, COMMAND_DEPTH);
    AcceptedPieces(SkipWs(t), key, afterKey, v, r);
  }

  lemma AcceptedPieces(p: string, key: string, afterKey: string, v: string, r: string)
    requires p != "" && p[0] == '"' && ReadKey(p[1..]) == Key(key, afterKey)
    requires var colon := SkipWs(afterKey); colon != "" && colon[0] == ':' && v == SkipWs(colon[1..])
    requires v != "" && ReadValue(v, COMMAND_DEPTH) == Ok(r) && |r| <= |v| && |r| <= |p|
    ensures Copies(JsonPair(key, Taken(v, r), Taken(p, r)))
  {
    KeyIsClean(p[1..]);
    KeySplit(p[1..]);
    ValueIsCut(v, COMMAND_DEPTH);
    ValueSplit(v, COMMAND_DEPTH);
    PiecesCopy(p, key, afterKey, v, r);
  }

  lemma PiecesCopy(p: string, key: string, afterKey: string, v: string, r: string)
    requires p != "" && p[0] == '"' && p[1..] == key + ("\"" + afterKey)
    requires var colon := SkipWs(afterKey); colon != "" && colon[0] == ':' && v == SkipWs(colon[1..])
    requires |r| <= |v| && |r| <= |p| && v == Taken(v, r) + r
    requires CleanKey(key) && IsValue(Taken(v, r), COMMAND_DEPTH)
    ensures Copies(JsonPair(key, Taken(v, r), Taken(p, r)))
  {
    var ws1, ws2 := AcceptedText(p, key, afterKey, v, r);
    var value := Taken(v, r);
    IsValueDeeper(value, COMMAND_DEPTH, INGEST_DEPTH);
    PairReads(key, ws1, ws2, value, INGEST_DEPTH);
    if PlainScalar(value) {
      PairNeutral(key, ws1, ws2, value, COMMAND_DEPTH, INGEST_DEPTH);
    }
  }

  ghost predicate AllPortable(pairs: seq<JsonPair>) {
    forall p :: p in pairs ==> Portable(p)
  }

  ghost predicate AllCopy(pairs: seq<JsonPair>) {
    forall p :: p in pairs ==> Copies(p)
  }

  predicate PlainScalars(pairs: seq<JsonPair>) {
    forall p :: p in pairs ==> PlainScalar(p.value)
  }

  lemma PairsStep(t: string, max: nat)
    requires Pairs(t, max).Ok? && NextPair(t, max).Pair?
    ensures Pairs(NextPair(t, max).rest, max).Ok?
    ensures Pairs(t, max).value == [NextPair(t, max).pair] + Pairs(NextPair(t, max).rest, max).value
  {
  }

  lemma CopyCons(pair: JsonPair, more: seq<JsonPair>)
    requires Copies(pair) && AllCopy(more)
    ensures AllCopy([pair] + more)
  {
  }

  lemma {:induction false} PairsCopy(t: string)
    requires Pairs(t, COMMAND_DEPTH).Ok?
    ensures AllCopy(Pairs(t, COMMAND_DEPTH).value)
    decreases |t|
  {
    if NextPair(t, COMMAND_DEPTH).Pair? {
      PairsStep(t, COMMAND_DEPTH);
      var pair, rest := NextPair(t, COMMAND_DEPTH).pair, NextPair(t, COMMAND_DEPTH).rest;
      AcceptedCopies(t);
      PairsCopy(rest);
      CopyCons(pair, Pairs(rest, COMMAND_DEPTH).value);
    }
  }

  /** What follows a pair: the closing text, or a comma and the remaining pairs. */
  lemma JoinTail(more: seq<JsonPair>, close: string)
    requires close != "" && close[0] == '}'
    ensures Ends(Join(false, more) + close)
    ensures AfterComma(Join(false, more) + close) == Join(true, more) + close
  {
    if more == [] {
      assert Join(false, more) + close == close && Join(true, more) + close == close;
    } else {
      assert Join(false, more)[1..] == Join(true, more);
    }
  }

  lemma ReadFirst(pair: JsonPair, rest: string, more: seq<JsonPair>, max: nat)
    requires ReadsBack(pair, max) && Ends(rest) && Pairs(AfterComma(rest), max) == Ok(more)
    ensures Pairs(pair.text + rest, max) == Ok([pair] + more)
  {
    assert NextPair(pair.text + rest, max) == Pair(pair, AfterComma(rest));
  }

  lemma ReadBrace(t: string, max: nat)
    requires t != "" && t[0] == '}'
    ensures Pairs(t, max) == Ok([])
  {
    assert SkipWs(t) == t;
  }

  lemma ReadClose(pairs: seq<JsonPair>, rest: string, max: nat)
    requires pairs == []
    ensures Pairs(Join(true, pairs) + ("}" + rest), max) == Ok(pairs)
  {
    var t := "}" + rest;
    ReadBrace(t, max);
    assert Join(true, pairs) + t == t;
  }

  lemma JoinReadsOne(pair: JsonPair, more: seq<JsonPair>, max: nat, rest: string)
    requires ReadsBack(pair, max) && Pairs(Join(true, more) + ("}" + rest), max) == Ok(more)
    ensures Pairs(Join(true, [pair] + more) + ("}" + rest), max) == Ok([pair] + more)
  {
    var close := "}" + rest;
    JoinTail(more, close);
    assert ([pair] + more)[1..] == more;
    Assoc(pair.text, Join(false, more), close);
    ReadFirst(pair, Join(false, more) + close, more, max);
  }

  /** Printing pairs and reading them back gives the same pairs. */
  lemma {:induction false} JoinReads(pairs: seq<JsonPair>, max: nat, rest: string)
    requires forall p :: p in pairs ==> ReadsBack(p, max)
    ensures Pairs(Join(true, pairs) + ("}" + rest), max) == Ok(pairs)
  {
    if pairs == [] {
      ReadClose(pairs, rest, max);
    } else {
      JoinReads(pairs[1..], max, rest);
      JoinReadsOne(pairs[0], pairs[1..], max, rest);
      assert pairs == [pairs[0]] + pairs[1..];
    }
  }

  /** A bracket scan passes over printed pairs. */
  lemma {:induction false} JoinNeutral(first: bool, pairs: seq<JsonPair>, rest: string, stack: seq<char>)
    requires AllPortable(pairs) && stack != [] && |stack| + COMMAND_DEPTH <= INGEST_DEPTH
    ensures StackScan(Join(first, pairs) + rest, stack, INGEST_DEPTH) == StackScan(rest, stack, INGEST_DEPTH)
  {
    if pairs == [] {
      assert Join(first, pairs) + rest == rest;
    } else {
      var more := Join(false, pairs[1..]);
      JoinNeutral(false, pairs[1..], rest, stack);
      Assoc(pairs[0].text, more, rest);
      assert Portable(pairs[0]);
      assert StackScan(pairs[0].text + (more + rest), stack, INGEST_DEPTH) ==
        StackScan(more + rest, stack, INGEST_DEPTH);
      if !first {
        Assoc(",", pairs[0].text + more, rest);
        PlainSkips(",", pairs[0].text + more + rest, stack, INGEST_DEPTH);
      }
    }
  }

  // ---------------------------------------------------------------- merging

  /** In the merged arguments a key means what the parameters say, else what the defaults say. */
  lemma {:induction false} MergedLookup(defaults: seq<JsonPair>, params: seq<JsonPair>, key: string)
    ensures First(Merged(defaults, params), key) ==
      if First(params, key).Ok? then First(params, key) else First(defaults, key)
  {
    if defaults == [] {
      assert Merged(defaults, params) == params;
      FirstFails(params, key);
    } else {
      MergedLookup(defaults[1..], params, key);
      if First(params, defaults[0].key).Fail? {
        assert Merged(defaults, params) == [defaults[0]] + Merged(defaults[1..], params);
        assert Merged(defaults, params)[1..] == Merged(defaults[1..], params);
      }
    }
  }

  lemma {:induction false} FirstFails(pairs: seq<JsonPair>, key: string)
    ensures First(pairs, key).Fail? ==> First(pairs, key) == Fail(NotFound)
  {
    if pairs != [] { FirstFails(pairs[1..], key); }
  }

  lemma {:induction false} KeptIn(pairs: seq<JsonPair>, over: seq<JsonPair>)
    ensures forall p :: p in Kept(pairs, over) ==> p in pairs
  {
    if pairs != [] { KeptIn(pairs[1..], over); }
  }

  // ---------------------------------------------------------------- the payload read back

  function Field(key: string, value: string): JsonPair {
    JsonPair(key, value, Spaced(key, "", "", value))
  }

  function ArgsText(args: seq<JsonPair>): string {
    "{" + (Join(true, args) + "}")
  }

  function PayloadPairs(requestId: string, command: string, args: seq<JsonPair>, nowMs: int): seq<JsonPair> {
    [Field("request_id", Quote(requestId)), Field("command", Quote(command)),
     Field("args", ArgsText(args)), Field("ts_ms", DecimalInt(nowMs))]
  }

  lemma FieldReads(key: string, value: string)
    requires CleanKey(key) && IsValue(value, INGEST_DEPTH)
    ensures ReadsBack(Field(key, value), INGEST_DEPTH)
  {
    PairReads(key, "", "", value, INGEST_DEPTH);
  }

  lemma QuoteIsValue(s: string)
    ensures IsValue(Quote(s), INGEST_DEPTH)
  {
    QuoteScans(s, "");
    assert Quote(s)[1..] == Escape(s) + "\"" + "";
  }

  lemma {:induction false} DigitsAreScalar(t: string)
    requires forall i :: 0 <= i < |t| ==> '0' <= t[i] <= '9' || t[i] == '-'
    ensures ScalarTail(t) == ""
  {
    if t != "" { DigitsAreScalar(t[1..]); }
  }

  lemma DecimalIsValue(n: int)
    ensures IsValue(DecimalInt(n), INGEST_DEPTH)
  {
    DigitsAreScalar(DecimalInt(n));
  }

  /** The argument object is one balanced value to the ingest scanner. */
  lemma ArgsIsValue(args: seq<JsonPair>)
    requires AllPortable(args)
    ensures IsValue(ArgsText(args), INGEST_DEPTH)
  {
    JoinNeutral(true, args, "}", ['{']);
    assert ArgsText(args)[1..] == Join(true, args) + "}";
    assert "}"[1..] == "";
  }

  lemma FieldText(key: string, value: string)
    ensures Field(key, value).text == "\"" + key + "\":" + value
  {
    assert "" + (":" + ("" + value)) == ":" + value;
    Assoc("\"", ":", value);
    assert "\"" + ":" == "\":";
    Assoc("\"", key, "\":" + value);
    Assoc("\"" + key, "\":", value);
  }

  lemma PayloadIsJoin(requestId: string, command: string, args: seq<JsonPair>, nowMs: int)
    ensures PayloadText(requestId, command, args, nowMs) ==
      "{" + (Join(true, PayloadPairs(requestId, command, args, nowMs)) + ("}" + ""))
  {
    var q1, q2, j, n := Quote(requestId), Quote(command), Join(true, args), DecimalInt(nowMs);
    FieldText("request_id", q1);
    FieldText("command", q2);
    FieldText("args", ArgsText(args));
    FieldText("ts_ms", n);
    JoinOfFour(Field("request_id", q1), Field("command", q2), Field("args", ArgsText(args)), Field("ts_ms", n));
    PayloadPieces(q1, q2, j, n);
  }

  lemma JoinOfFour(a: JsonPair, b: JsonPair, c: JsonPair, d: JsonPair)
    ensures Join(true, [a, b, c, d]) == a.text + ("," + (b.text + ("," + (c.text + ("," + (d.text + ""))))))
  {
    assert [a, b, c, d][1..] == [b, c, d] && [b, c, d][1..] == [c, d] && [c, d][1..] == [d] && [d][1..] == [];
    assert Join(false, [d]) == "," + (d.text + "");
    assert Join(false, [c, d]) == "," + (c.text + Join(false, [d]));
    assert Join(false, [b, c, d]) == "," + (b.text + Join(false, [c, d]));
  }

  lemma PayloadPieces(q1: string, q2: string, j: string, n: string)
    ensures "{\"request_id\":" + (q1 + (",\"command\":" + (q2 + (",\"args\":{" + 
      (j + ("},\"ts_ms\":" + (n + "}"))))))) ==
      "{" + (("\"" + "request_id" + "\":" + q1 + ("," + ("\"" + "command" + "\":" + q2 + ("," + 
      ("\"" + "args" + "\":" + ("{" + (j + "}")) +
      ("," + ("\"" + "ts_ms" + "\":" + n + ""))))))) + ("}" + ""))
  {
    var a, b, c, d := "\"request_id\":", "\"command\":", "\"args\":", "\"ts_ms\":";
    assert "\"" + "request_id" + "\":" == a && "\"" + "command" + "\":" == b;
    assert "\"" + "args" + "\":" == c && "\"" + "ts_ms" + "\":" == d;
    assert "{\"request_id\":" == "{" + a && ",\"command\":" == "," + b;
    assert ",\"args\":{" == "," + c + "{" && "},\"ts_ms\":" == "}" + ("," + d);
    var t4 := d + n + "";
    var t3 := c + ("{" + (j + "}")) + ("," + t4);
    var t2 := b + q2 + ("," + t3);
    assert t4 == d + n && "}" + "" == "}";
    PullClose(a + q1, t2, "}");
    PullClose(b + q2, t3, "}");
    PullClose(c + ("{" + (j + "}")), t4, "}");
    Assoc(d, n, "}");
    Assoc(",", d, n + "}");
    Assoc("}", "," + d, n + "}");
    CloseArgs(c, j, "," + (d + (n + "}")));
    Assoc("," + c, "{", j + ("}" + ("," + (d + (n + "}")))));
    Assoc(",", c, "{" + (j + ("}" + ("," + (d + (n + "}"))))));
    Assoc(b, q2, "," + (c + ("{" + (j + ("}" + ("," + (d + (n + "}"))))))));
    Assoc(",", b, q2 + ("," + (c + ("{" + (j + ("}" + ("," + (d + (n + "}")))))))));
    Assoc(a, q1, "," + (b + (q2 + ("," + (c + ("{" + (j + ("}" + ("," + (d + (n + "}")))))))))));
    Assoc("{", a, q1 + ("," + (b + (q2 + ("," + (c + ("{" + (j + ("}" + ("," + (d + (n + "}")))))))))))) ;
  }

  lemma PullClose(x: string, y: string, close: string)
    ensures (x + ("," + y)) + close == x + ("," + (y + close))
  {
    Assoc(x, "," + y, close);
    Assoc(",", y, close);
  }

  lemma CloseArgs(c: string, j: string, z: string)
    ensures (c + ("{" + (j + "}"))) + z == c + ("{" + (j + ("}" + z)))
  {
    Assoc(c, "{" + (j + "}"), z);
    Assoc("{", j + "}", z);
    Assoc(j, "}", z);
  }

  lemma KeysAreClean()
    ensures CleanKey("request_id") && CleanKey("command") && CleanKey("args") && CleanKey("ts_ms")
  {
  }

  /** A search passes over a pair with another key and stops at its own. */
  lemma FindSkips(p: JsonPair, rest: string, key: string)
    requires ReadsBack(p, INGEST_DEPTH) && Ends(rest)
    ensures FindValue(p.text + rest, key, INGEST_DEPTH) ==
      if p.key == key then Ok(p.value) else FindValue(AfterComma(rest), key, INGEST_DEPTH)
  {
    assert NextPair(p.text + rest, INGEST_DEPTH) == Pair(p, AfterComma(rest));
  }

  lemma FindNext(p: JsonPair, more: string, key: string)
    requires ReadsBack(p, INGEST_DEPTH)
    ensures FindValue(p.text + ("," + more), key, INGEST_DEPTH) ==
      if p.key == key then Ok(p.value) else FindValue(more, key, INGEST_DEPTH)
  {
    FindSkips(p, "," + more, key);
    assert ("," + more)[1..] == more;
  }

  /** The text of the payload as its four pairs. */
  lemma PayloadInPairs(a: JsonPair, b: JsonPair, c: JsonPair, d: JsonPair)
    ensures Join(true, [a, b, c, d]) + ("}" + "") ==
      a.text + ("," + (b.text + ("," + (c.text + ("," + (d.text + "}"))))))
  {
    JoinOfFour(a, b, c, d);
    assert d.text + "" == d.text && "}" + "" == "}";
    PullClose(a.text, b.text + ("," + (c.text + ("," + d.text))), "}");
    PullClose(b.text, c.text + ("," + d.text), "}");
    PullClose(c.text, d.text, "}");
  }

  /** An object under a clean key is found whole exactly when it is a value to the ingest scanner. */
  lemma ObjectFieldFound(key: string, obj: string, more: string)
    requires CleanKey(key) && obj != "" && obj[0] == '{'
    ensures FindValue(Field(key, obj).text + ("," + more), key, INGEST_DEPTH) == Ok(obj) <==> IsValue(obj, INGEST_DEPTH)
  {
    var rest := "," + more;
    if IsValue(obj, INGEST_DEPTH) {
      FieldReads(key, obj);
      FindNext(Field(key, obj), more, key);
    } else {
      var text := Field(key, obj).text + rest;
      var v := obj + rest;
      ObjectFieldReads(key, obj, rest);
      if FindValue(text, key, INGEST_DEPTH) == Ok(obj) {
        BracketValueCut(v, INGEST_DEPTH);
      }
    }
  }

  lemma ObjectFieldReads(key: string, obj: string, rest: string)
    requires CleanKey(key) && obj != "" && obj[0] == '{'
    ensures var text, v := Field(key, obj).text + rest, obj + rest;
      |v| < |text| && NextPair(text, INGEST_DEPTH) == ReadPairValue(text, key, v, INGEST_DEPTH)
  {
    var v := obj + rest;
    SpacedAppend(key, "", "", obj, rest);
    KeyFollowed(key, "" + (":" + ("" + v)), INGEST_DEPTH);
    ColonFollowed(Field(key, obj).text + rest, key, "", "", v, INGEST_DEPTH);
  }

  lemma OpenObject(t: string, max: nat)
    ensures ObjectPairs("{" + t, max) == Pairs(t, max)
  {
    assert SkipWs("{" + t) == "{" + t;
    assert ("{" + t)[1..] == t;
  }

  lemma ArgsRead(args: seq<JsonPair>)
    requires AllCopy(args)
    ensures ObjectPairs(ArgsText(args), INGEST_DEPTH) == Ok(args)
  {
    assert "}" + "" == "}";
    assert forall p :: p in args ==> Copies(p) && ReadsBack(p, INGEST_DEPTH);
    JoinReads(args, INGEST_DEPTH, "");
    OpenObject(Join(true, args) + "}", INGEST_DEPTH);
  }

  lemma FindInPairs(t: string, key: string, max: nat)
    requires ObjectPairs(t, max).Ok?
    ensures FindInObject(t, key, max) == First(ObjectPairs(t, max).value, key)
  {
    FindIsFirst(SkipWs(t)[1..], key, max);
  }

  /** The value the builder finds for a key in one of its argument texts. */
  function Lookup(json: string, key: string): Result<string> {
    if json == "" then Fail(NotFound) else FindInObject(json, key, COMMAND_DEPTH)
  }

  lemma LookupIsFirst(json: string, key: string)
    requires ArgPairs(json).Ok?
    ensures Lookup(json, key) == First(ArgPairs(json).value, key)
  {
    if json != "" { FindInPairs(json, key, COMMAND_DEPTH); }
  }

  lemma AcceptedArgs(defaults: string, params: string)
    requires ArgPairs(defaults).Ok? && ArgPairs(params).Ok?
    ensures AllCopy(Merged(ArgPairs(defaults).value, ArgPairs(params).value))
  {
    if defaults != "" { PairsCopy(SkipWs(defaults)[1..]); }
    if params != "" { PairsCopy(SkipWs(params)[1..]); }
    KeptIn(ArgPairs(defaults).value, ArgPairs(params).value);
  }

  /** The arguments a successful build prints. */
  function Args(defaults: string, params: string): seq<JsonPair>
    requires ArgPairs(defaults).Ok? && ArgPairs(params).Ok?
  {
    Merged(ArgPairs(defaults).value, ArgPairs(params).value)
  }

  /** The ingest scanner reads the printed arguments to their closing brace and not beyond. */
  predicate ArgsBalanced(defaults: string, params: string)
    requires ArgPairs(defaults).Ok? && ArgPairs(params).Ok?
  {
    SkipValue(ArgsText(Args(defaults, params)), INGEST_DEPTH) == Ok("")
  }

  /** Plain bare scalars, such as JSON numbers, true, false and null, always leave the arguments balanced. */
  lemma PlainScalarsBalance(defaults: string, params: string)
    requires ArgPairs(defaults).Ok? && ArgPairs(params).Ok?
    requires PlainScalars(ArgPairs(defaults).value) && PlainScalars(ArgPairs(params).value)
    ensures ArgsBalanced(defaults, params)
  {
    AcceptedArgs(defaults, params);
    KeptIn(ArgPairs(defaults).value, ArgPairs(params).value);
    var args := Args(defaults, params);
    assert AllPortable(args) by {
      forall p | p in args ensures Portable(p) {
        assert Copies(p) && PlainScalar(p.value);
      }
    }
    ArgsIsValue(args);
    assert SkipWs(ArgsText(args)) == ArgsText(args);
  }

  /**
   Whenever the builder succeeds, the ingest scanner finds in its output a request id and a
   command that decode to the originals. It finds the argument object exactly when that object
   is balanced to it, and then also the time, and every key of the object has the value of the
   parameters if they have it, else that of the defaults.
   */
  lemma PayloadRoundTrip(cap: nat, requestId: string, command: string, defaults: string, params: string, nowMs: int,
                         out: string)
    requires Build(cap, requestId, command, defaults, params, nowMs) == Ok(out)
    ensures FindInObject(out, "request_id", INGEST_DEPTH) == Ok(Quote(requestId))
    ensures FindInObject(out, "command", INGEST_DEPTH) == Ok(Quote(command))
    ensures DecodeString(Quote(requestId), |requestId| + 1) == Ok(requestId)
    ensures DecodeString(Quote(command), |command| + 1) == Ok(command)
    ensures ArgPairs(defaults).Ok? && ArgPairs(params).Ok?
    ensures FindInObject(out, "args", INGEST_DEPTH) == Ok(ArgsText(Args(defaults, params))) <==>
      ArgsBalanced(defaults, params)
    ensures ArgsBalanced(defaults, params) ==> FindInObject(out, "ts_ms", INGEST_DEPTH) == Ok(DecimalInt(nowMs))
    ensures 0 <= nowMs <= U64_MAX ==> ParseU64(DecimalInt(nowMs)) == Some(nowMs)
    ensures forall key ::
      FindInObject(ArgsText(Args(defaults, params)), key, INGEST_DEPTH) ==
      (if Lookup(params, key).Ok? then Lookup(params, key) else Lookup(defaults, key))
  {
    BuildWrites(cap, requestId, command, defaults, params, nowMs);
    var args := Args(defaults, params);
    TopLevelFound(requestId, command, args, nowMs);
    assert SkipWs(ArgsText(args)) == ArgsText(args);
    QuoteDecodes(requestId, |requestId| + 1);
    QuoteDecodes(command, |command| + 1);
    if 0 <= nowMs <= U64_MAX { DecimalParses(nowMs); }
    forall key
      ensures FindInObject(ArgsText(args), key, INGEST_DEPTH) ==
              if Lookup(params, key).Ok? then Lookup(params, key) else Lookup(defaults, key)
    {
      ArgsFound(defaults, params, key);
    }
  }

  lemma TopLevelFound(requestId: string, command: string, args: seq<JsonPair>, nowMs: int)
    ensures var out := PayloadText(requestId, command, args, nowMs);
      && FindInObject(out, "request_id", INGEST_DEPTH) == Ok(Quote(requestId))
      && FindInObject(out, "command", INGEST_DEPTH) == Ok(Quote(command))
      && (FindInObject(out, "args", INGEST_DEPTH) == Ok(ArgsText(args)) <==> IsValue(ArgsText(args), INGEST_DEPTH))
      && (IsValue(ArgsText(args), INGEST_DEPTH) ==> FindInObject(out, "ts_ms", INGEST_DEPTH) == Ok(DecimalInt(nowMs)))
  {
    var a, b := Field("request_id", Quote(requestId)), Field("command", Quote(command));
    var c, d := Field("args", ArgsText(args)), Field("ts_ms", DecimalInt(nowMs));
    KeysAreClean();
    QuoteIsValue(requestId);
    QuoteIsValue(command);
    DecimalIsValue(nowMs);
    FieldReads("request_id", Quote(requestId));
    FieldReads("command", Quote(command));
    FieldReads("ts_ms", DecimalInt(nowMs));
    PayloadIsJoin(requestId, command, args, nowMs);
    PayloadInPairs(a, b, c, d);
    FieldsInOrder(a, b, c, d);
    ObjectFieldFound("args", ArgsText(args), d.text + "}");
    if IsValue(ArgsText(args), INGEST_DEPTH) {
      FieldReads("args", ArgsText(args));
      FindNext(c, d.text + "}", "ts_ms");
      FindSkips(d, "}", "ts_ms");
    }
  }

  /** Searching four pairs whose first two read back. */
  lemma FieldsInOrder(a: JsonPair, b: JsonPair, c: JsonPair, d: JsonPair)
    requires ReadsBack(a, INGEST_DEPTH) && ReadsBack(b, INGEST_DEPTH)
    requires a.key == "request_id" && b.key == "command"
    ensures var out := "{" + (a.text + ("," + (b.text + ("," + (c.text + ("," + (d.text + "}")))))));
      && FindInObject(out, "request_id", INGEST_DEPTH) == Ok(a.value)
      && FindInObject(out, "command", INGEST_DEPTH) == Ok(b.value)
      && FindInObject(out, "args", INGEST_DEPTH) == FindValue(c.text + ("," + (d.text + "}")), "args", INGEST_DEPTH)
      && FindInObject(out, "ts_ms", INGEST_DEPTH) == FindValue(c.text + ("," + (d.text + "}")), "ts_ms", INGEST_DEPTH)
  {
    var last := c.text + ("," + (d.text + "}"));
    var second := b.text + ("," + last);
    assert |"request_id"| == 10 && |"command"| == 7 && |"args"| == 4 && |"ts_ms"| == 5;
    OpenSearch(a.text + ("," + second));
    FindNext(a, second, "request_id");
    FindNext(a, second, "command");
    FindNext(a, second, "args");
    FindNext(a, second, "ts_ms");
    FindNext(b, last, "command");
    FindNext(b, last, "args");
    FindNext(b, last, "ts_ms");
  }

  lemma OpenSearch(t: string)
    ensures forall key :: FindInObject("{" + t, key, INGEST_DEPTH) == FindValue(t, key, INGEST_DEPTH)
  {
    assert SkipWs("{" + t) == "{" + t;
    assert ("{" + t)[1..] == t;
  }

  lemma ArgsFound(defaults: string, params: string, key: string)
    requires ArgPairs(defaults).Ok? && ArgPairs(params).Ok?
    ensures FindInObject(ArgsText(Args(defaults, params)), key, INGEST_DEPTH) ==
      if Lookup(params, key).Ok? then Lookup(params, key) else Lookup(defaults, key)
  {
    var args := Args(defaults, params);
    AcceptedArgs(defaults, params);
    ArgsRead(args);
    FindInPairs(ArgsText(args), key, INGEST_DEPTH);
    MergedLookup(ArgPairs(defaults).value, ArgPairs(params).value, key);
    LookupIsFirst(defaults, key);
    LookupIsFirst(params, key);
  }

  /**
   Why bare scalars must be plain: the builder accepts a scalar such as `1[`, but the argument
   object it prints from it is not a value to the ingest scanner.
   */
  lemma BracketInScalarBreaksArgs(key: string, w: string)
    requires CleanKey(key) && Plain(w) && IsValue(w + "[", COMMAND_DEPTH) && IsScalar(w + "[")
    ensures Pairs(Join(true, [Field(key, w + "[")]) + ("}" + ""), COMMAND_DEPTH) == Ok([Field(key, w + "[")])
    ensures SkipValue(ArgsText([Field(key, w + "[")]), INGEST_DEPTH).Fail?
  {
    var p := Field(key, w + "[");
    PairReads(key, "", "", w + "[", COMMAND_DEPTH);
    JoinReads([p], COMMAND_DEPTH, "");
    var text := ArgsText([p]);
    JoinOfOne(p);
    SpacedAppend(key, "", "", w + "[", "}");
    var after := "" + (":" + ("" + (w + "[" + "}")));
    KeySkips(key, after, ['{'], INGEST_DEPTH);
    StrayBracket(w);
    assert after == ":" + (w + ("[" + "}"));
    assert text[1..] == "\"" + (key + ("\"" + after));
    assert SkipWs(text) == text;
  }

  lemma JoinOfOne(p: JsonPair)
    ensures Join(true, [p]) == p.text
  {
    assert Join(true, [p]) == p.text + Join(false, [p][1..]) == p.text + "";
  }

  lemma StrayBracket(w: string)
    requires Plain(w)
    ensures StackScan(":" + (w + ("[" + "}")), ['{'], INGEST_DEPTH).Fail?
  {
    PlainSkips(":", w + ("[" + "}"), ['{'], INGEST_DEPTH);
    PlainSkips(w, "[" + "}", ['{'], INGEST_DEPTH);
    var t := "[" + "}";
    assert t[1..] == "}";
    assert StackScan("}", ['{', '['], INGEST_DEPTH).Fail?;
    assert ['{'] + ['['] == ['{', '['];
  }
}
