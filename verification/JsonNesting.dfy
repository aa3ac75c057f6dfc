/**
 What tells the counting scanner from the stack scanners: the brackets outside strings, and
 whether they nest.
 */
module JsonNesting {
  import opened Base
  import opened JsonScan
  import opened CommandPayload
  import opened CommandRoundTrip

  /** The brackets of a text that lie outside its strings, in order. */
  function Outside(t: string): seq<char>
    decreases |t|
  {
    if t == "" then []
    else if t[0] == '"' then
      var rest := StringTail(t[1..]);
      if rest.None? then [] else Outside(rest.value)
    else if IsOpen(t[0]) || IsClose(t[0]) then [t[0]] + Outside(t[1..])
    else Outside(t[1..])
  }

  /**
   Brackets that nest, at most `depth` deep: an opening one, its partner at some position, and what
   lies between and behind.
   */
  predicate Nested(bs: seq<char>, depth: nat)
    decreases |bs|
  {
    bs == [] || exists k :: 0 < k < |bs| && NestedAt(bs, depth, k)
  }

  /** The partner of the first bracket is at `k`. */
  predicate NestedAt(bs: seq<char>, depth: nat, k: nat)
    requires 0 < k < |bs|
    decreases |bs|, 0
  {
    depth > 0 && IsOpen(bs[0]) && bs[k] == Closer(bs[0]) && Nested(bs[1..k], depth - 1) && Nested(bs[k + 1..], depth)
  }

  /** One bracketed value, at most `max` deep. */
  predicate OneNestedValue(bs: seq<char>, max: nat)
    requires max > 0
  {
    |bs| >= 2 && IsOpen(bs[0]) && bs[|bs| - 1] == Closer(bs[0]) && Nested(bs[1..|bs| - 1], max - 1)
  }

  // ---------------------------------------------------------------- a stack over brackets alone

  /** The brackets bring the stack down to nothing with the last of them. */
  predicate Empties(bs: seq<char>, stack: seq<char>, max: nat)
    requires stack != []
    decreases |bs|
  {
    bs != [] &&
    if IsOpen(bs[0]) then |stack| < max && Empties(bs[1..], stack + [bs[0]], max)
    else
      bs[0] == Closer(stack[|stack| - 1]) &&
      if |stack| == 1 then |bs| == 1 else Empties(bs[1..], stack[..|stack| - 1], max)
  }

  /** What follows once nested brackets are passed over. */
  lemma {:induction false} NestedPasses(bs: seq<char>, depth: nat, rest: seq<char>, stack: seq<char>, max: nat)
    requires Nested(bs, depth) && stack != [] && |stack| + depth <= max
    ensures Empties(bs + rest, stack, max) <==> Empties(rest, stack, max)
    decreases |bs|
  {
    if bs == [] {
      assert bs + rest == rest;
    } else {
      var k :| 0 < k < |bs| && NestedAt(bs, depth, k);
      var inner, after := bs[1..k], bs[k + 1..];
      var all := bs + rest;
      assert all[1..] == inner + ([bs[k]] + (after + rest));
      NestedPasses(inner, depth - 1, [bs[k]] + (after + rest), stack + [bs[0]], max);
      PartnerPops(bs[0], after + rest, stack, max);
      NestedPasses(after, depth, rest, stack, max);
    }
  }

  lemma PartnerPops(open: char, rest: seq<char>, stack: seq<char>, max: nat)
    requires stack != [] && IsOpen(open)
    ensures Empties([Closer(open)] + rest, stack + [open], max) <==> Empties(rest, stack, max)
  {
    assert ([Closer(open)] + rest)[1..] == rest;
    assert (stack + [open])[..|stack|] == stack;
  }

  /** The position of the bracket that closes the top of the stack. */
  lemma {:induction false} TopIsClosed(bs: seq<char>, stack: seq<char>, max: nat) returns (k: nat)
    requires stack != [] && |stack| <= max && Empties(bs, stack, max)
    ensures k < |bs| && Nested(bs[..k], max - |stack|) && bs[k] == Closer(stack[|stack| - 1])
    ensures if |stack| == 1 then k == |bs| - 1 else Empties(bs[k + 1..], stack[..|stack| - 1], max)
    decreases |bs|
  {
    if IsOpen(bs[0]) {
      var rest := bs[1..];
      var a := TopIsClosed(rest, stack + [bs[0]], max);
      assert (stack + [bs[0]])[..|stack|] == stack;
      var behind := rest[a + 1..];
      var b := TopIsClosed(behind, stack, max);
      k := a + 2 + b;
      Compose(bs, rest, a, behind, b, max - |stack|);
    } else {
      k := 0;
    }
  }

  /** An inner part closed at `a` and a part behind it closed at `b`, put together. */
  lemma Compose(bs: seq<char>, rest: seq<char>, a: nat, behind: seq<char>, b: nat, depth: nat)
    requires bs != [] && rest == bs[1..] && a < |rest| && behind == rest[a + 1..] && b < |behind| && depth > 0
    requires IsOpen(bs[0]) && rest[a] == Closer(bs[0]) && Nested(rest[..a], depth - 1) && Nested(behind[..b], depth)
    ensures var k := a + 2 + b;
      k < |bs| && Nested(bs[..k], depth) && bs[k] == behind[b] && bs[k + 1..] == behind[b + 1..]
  {
    var k := a + 2 + b;
    assert bs[..k][1..a + 1] == rest[..a];
    assert bs[..k][a + 2..] == behind[..b];
    FirstPair(bs[..k], depth, a + 1);
  }

  lemma FirstPair(bs: seq<char>, depth: nat, i: nat)
    requires 0 < i < |bs| && NestedAt(bs, depth, i)
    ensures Nested(bs, depth)
  {
  }

  /** Emptying a stack of one bracket is being one nested value. */
  lemma EmptiesIs(open: char, bs: seq<char>, max: nat)
    requires IsOpen(open) && max > 0
    ensures Empties(bs, [open], max) <==> OneNestedValue([open] + bs, max)
  {
    if Empties(bs, [open], max) {
      EmptiesNests(open, bs, max);
    }
    if OneNestedValue([open] + bs, max) {
      NestsEmpties(open, bs, max);
    }
  }

  lemma EmptiesNests(open: char, bs: seq<char>, max: nat)
    requires IsOpen(open) && max > 0 && Empties(bs, [open], max)
    ensures OneNestedValue([open] + bs, max)
  {
    var all := [open] + bs;
    var k := TopIsClosed(bs, [open], max);
    assert all[1..|all| - 1] == bs[..k];
  }

  lemma NestsEmpties(open: char, bs: seq<char>, max: nat)
    requires IsOpen(open) && max > 0 && OneNestedValue([open] + bs, max)
    ensures Empties(bs, [open], max)
  {
    var all := [open] + bs;
    var inner := all[1..|all| - 1];
    assert bs == inner + [Closer(open)];
    NestedPasses(inner, max - 1, [Closer(open)], [open], max);
  }

  // ---------------------------------------------------------------- texts and their brackets

  lemma {:induction false} CountSplit(t: string, open: char, depth: nat)
    requires CountScan(t, open, depth).Ok?
    ensures t == Taken(t, CountScan(t, open, depth).value) + CountScan(t, open, depth).value
    decreases |t|
  {
    if t[0] == '"' {
      CountSplit(StringTail(t[1..]).value, open, depth);
      StringSplit(t[1..]);
    } else if t[0] == open {
      CountSplit(t[1..], open, depth + 1);
    } else if t[0] == Closer(open) {
      if depth > 1 { CountSplit(t[1..], open, depth - 1); }
    } else {
      CountSplit(t[1..], open, depth);
    }
  }

  /** Cut where the counter stops, the text is counted to its end. */
  lemma {:induction false} CountCut(t: string, open: char, depth: nat)
    requires CountScan(t, open, depth).Ok?
    ensures CountScan(Taken(t, CountScan(t, open, depth).value), open, depth) == Ok("")
    decreases |t|
  {
    var r := CountScan(t, open, depth).value;
    var v := Taken(t, r);
    assert v[1..] == Taken(t[1..], r);
    if t[0] == '"' {
      var s := StringTail(t[1..]).value;
      CountCut(s, open, depth);
      StringCut(t[1..]);
      StringSplit(t[1..]);
      assert v[1..] == Taken(t[1..], s) + Taken(s, r);
      StringExtends(Taken(t[1..], s), Taken(s, r));
      assert "" + Taken(s, r) == Taken(s, r);
    } else if t[0] == open {
      CountCut(t[1..], open, depth + 1);
    } else if t[0] == Closer(open) {
      if depth > 1 { CountCut(t[1..], open, depth - 1); }
    } else {
      CountCut(t[1..], open, depth);
    }
  }

  // ---------------------------------------------------------------- any text that ends in a closing bracket

  /** Every string that begins in the text ends in it. */
  predicate StringsEnd(t: string)
    decreases |t|
  {
    if t == "" then true
    else if t[0] == '"' then StringTail(t[1..]).Some? && StringsEnd(StringTail(t[1..]).value)
    else StringsEnd(t[1..])
  }

  predicate EndsClosed(t: string) {
    t == "" || IsClose(t[|t| - 1])
  }

  lemma EndsAsRest(t: string, r: string)
    requires EndsClosed(t) && |r| <= |t| && t == Taken(t, r) + r
    ensures EndsClosed(r)
  {
  }

  lemma ClosedRest(t: string)
    requires EndsClosed(t) && t != ""
    ensures EndsClosed(t[1..])
    ensures StringTail(t[1..]).Some? ==> EndsClosed(StringTail(t[1..]).value)
  {
    if StringTail(t[1..]).Some? {
      StringSplit(t[1..]);
      EndsAsRest(t[1..], StringTail(t[1..]).value);
    }
  }

  lemma {:induction false} ClosedHasBrackets(t: string)
    requires t != "" && EndsClosed(t) && StringsEnd(t)
    ensures Outside(t) != []
    decreases |t|
  {
    ClosedRest(t);
    if t[0] == '"' {
      TailOfClosed(t);
      ClosedHasBrackets(StringTail(t[1..]).value);
    } else if !IsOpen(t[0]) && !IsClose(t[0]) {
      ClosedHasBrackets(t[1..]);
    }
  }

  /** A text that ends in a bracket does not end with a string. */
  lemma TailOfClosed(t: string)
    requires t != "" && t[0] == '"' && EndsClosed(t) && StringTail(t[1..]).Some?
    ensures StringTail(t[1..]).value != ""
  {
    if StringTail(t[1..]).value == "" { QuoteEnds(t[1..]); }
  }

  lemma {:induction false} QuoteEnds(t: string)
    requires StringTail(t) == Some("")
    ensures t != "" && t[|t| - 1] == '"'
  {
    if t[0] == '\\' { QuoteEnds(t[2..]); } else if t[0] != '"' { QuoteEnds(t[1..]); }
  }

  /**
   A stack scan reads the whole of a text that ends in a closing bracket if and only if the strings
   of the text end in it and its brackets outside strings bring the stack down to nothing.
   */
  lemma {:induction false} ScanIsEmptying(u: string, stack: seq<char>, max: nat)
    requires stack != [] && EndsClosed(u)
    ensures StackScan(u, stack, max) == Ok("") <==> StringsEnd(u) && Empties(Outside(u), stack, max)
    decreases |u|
  {
    if u != "" {
      ClosedRest(u);
      if u[0] == '"' {
        if StringTail(u[1..]).Some? { ScanIsEmptying(StringTail(u[1..]).value, stack, max); }
      } else if IsOpen(u[0]) {
        FirstBracket(u);
        if |stack| < max { ScanIsEmptying(u[1..], stack + [u[0]], max); }
      } else if IsClose(u[0]) {
        FirstBracket(u);
        CloseIsEmptying(u, stack, max);
      } else {
        ScanIsEmptying(u[1..], stack, max);
      }
    }
  }

  lemma FirstBracket(u: string)
    requires u != "" && (IsOpen(u[0]) || IsClose(u[0]))
    ensures Outside(u) != [] && Outside(u)[0] == u[0] && Outside(u)[1..] == Outside(u[1..])
  {
  }

  lemma {:induction false} CloseIsEmptying(u: string, stack: seq<char>, max: nat)
    requires stack != [] && u != "" && IsClose(u[0]) && EndsClosed(u[1..])
    requires Outside(u) != [] && Outside(u)[0] == u[0] && Outside(u)[1..] == Outside(u[1..])
    ensures StackScan(u, stack, max) == Ok("") <==> StringsEnd(u) && Empties(Outside(u), stack, max)
    decreases |u|, 0
  {
    if u[0] == Closer(stack[|stack| - 1]) {
      if |stack| > 1 {
        ScanIsEmptying(u[1..], stack[..|stack| - 1], max);
      } else if u[1..] != "" && StringsEnd(u[1..]) {
        ClosedHasBrackets(u[1..]);
      }
    }
  }

  lemma LastOfRest(u: string, r: string)
    requires r != "" && |r| <= |u| && u == Taken(u, r) + r
    ensures u[|u| - 1] == r[|r| - 1]
  {
  }

  /** A text that the counter reads to its end is of this kind. */
  lemma {:induction false} CountedEnds(u: string, open: char, depth: nat)
    requires IsOpen(open) && CountScan(u, open, depth) == Ok("")
    ensures u != "" && EndsClosed(u) && StringsEnd(u)
    decreases |u|
  {
    if u[0] == '"' {
      var r := StringTail(u[1..]).value;
      CountedEnds(r, open, depth);
      StringSplit(u[1..]);
      LastOfRest(u[1..], r);
    } else if u[0] == open {
      CountedEnds(u[1..], open, depth + 1);
    } else if u[0] != Closer(open) {
      CountedEnds(u[1..], open, depth);
    } else if depth > 1 {
      CountedEnds(u[1..], open, depth - 1);
    }
  }

  /** On such a text the stack scan sees the brackets alone. */
  lemma ScanSeesBrackets(u: string, open: char, depth: nat, stack: seq<char>, max: nat)
    requires IsOpen(open) && CountScan(u, open, depth) == Ok("")
    requires stack != []
    ensures StackScan(u, stack, max) == Ok("") <==> Empties(Outside(u), stack, max)
  {
    CountedEnds(u, open, depth);
    ScanIsEmptying(u, stack, max);
  }

  // ---------------------------------------------------------------- the two scanners compared

  lemma StackStopsWhereCut(u: string, r: string, open: char, max: nat)
    requires IsOpen(open)
    ensures StackScan(u + r, [open], max) == Ok(r) <==> StackScan(u, [open], max) == Ok("")
  {
    if StackScan(u + r, [open], max) == Ok(r) {
      StackCut(u + r, [open], max);
      assert Taken(u + r, r) == u;
    }
    if StackScan(u, [open], max) == Ok("") {
      StackNests(u, [open], max, [], max, r);
      assert [] + [open] == [open] && "" + r == r;
    }
  }

  lemma BracketsOfValue(open: char, u: string)
    requires IsOpen(open)
    ensures Outside([open] + u) == [open] + Outside(u)
  {
    assert ([open] + u)[1..] == u;
  }

  /** A bracketed value that the counter reads is read by the stack scanner exactly when its brackets nest. */
  lemma BracketedAgree(v: string, max: nat, r: string)
    requires max > 0 && v != "" && IsOpen(v[0]) && CountScan(v[1..], v[0], 1) == Ok(r)
    ensures StackScan(v[1..], [v[0]], max) == Ok(r) <==> OneNestedValue(Outside(Taken(v, r)), max)
  {
    var open, t := v[0], v[1..];
    var u := Taken(t, r);
    CountSplit(t, open, 1);
    CountCut(t, open, 1);
    StackStopsWhereCut(u, r, open, max);
    ScanSeesBrackets(u, open, 1, [open], max);
    EmptiesIs(open, Outside(u), max);
    BracketsOfValue(open, u);
    assert Taken(v, r) == [open] + u;
  }

  /**
   On every value the counter accepts, a stack scanner of depth `max` accepts if and only if the
   brackets outside strings in what was read nest, at most `max` deep; and then both stop at the
   same place. Strings and bare scalars are always read alike.
   */
  lemma CounterAgreesIff(t: string, max: nat)
    requires max > 0 && SkipValueByCount(t).Ok?
    ensures SkipWs(t) != ""
    ensures SkipValue(t, max).Ok? <==>
      (IsOpen(SkipWs(t)[0]) ==> OneNestedValue(Outside(Taken(SkipWs(t), SkipValueByCount(t).value)), max))
    ensures SkipValue(t, max).Ok? ==> SkipValue(t, max) == SkipValueByCount(t)
  {
    var v := SkipWs(t);
    if SkipValue(t, max).Ok? {
      ScannersAgree(t, max, max);
    }
    if IsOpen(v[0]) {
      BracketedAgree(v, max, SkipValueByCount(t).value);
    }
  }

  // ---------------------------------------------------------------- the arguments of a command

  /** The strings of the printed arguments end in them, and their brackets outside strings nest. */
  predicate ArgsNest(defaults: string, params: string)
    requires ArgPairs(defaults).Ok? && ArgPairs(params).Ok?
  {
    var text := ArgsText(Args(defaults, params));
    StringsEnd(text) && OneNestedValue(Outside(text), INGEST_DEPTH)
  }

  /** The ingest scanner reads an object to its closing brace exactly when its strings end and its brackets nest. */
  lemma ObjectIsNested(inner: string)
    ensures var text := "{" + (inner + "}");
      SkipValue(text, INGEST_DEPTH) == Ok("") <==> StringsEnd(text) && OneNestedValue(Outside(text), INGEST_DEPTH)
  {
    var u := inner + "}";
    var text := "{" + u;
    assert text[1..] == u;
    assert SkipWs(text) == text;
    ScanIsEmptying(u, ['{'], INGEST_DEPTH);
    EmptiesIs('{', Outside(u), INGEST_DEPTH);
    BracketsOfValue('{', u);
  }

  lemma BalancedIsNested(defaults: string, params: string)
    requires ArgPairs(defaults).Ok? && ArgPairs(params).Ok?
    ensures ArgsBalanced(defaults, params) <==> ArgsNest(defaults, params)
  {
    ObjectIsNested(Join(true, Args(defaults, params)));
  }

  /**
   In the output of a successful build the ingest scanner finds the arguments as they were printed
   if and only if the strings of the printed object end in it and its brackets outside strings nest
   at most 32 deep; then it finds the time too.
   */
  lemma WhenArgsAreFound(cap: nat, requestId: string, command: string, defaults: string, params: string, nowMs: int,
                         out: string)
    requires Build(cap, requestId, command, defaults, params, nowMs) == Ok(out)
    ensures ArgPairs(defaults).Ok? && ArgPairs(params).Ok?
    ensures FindInObject(out, "args", INGEST_DEPTH) == Ok(ArgsText(Args(defaults, params))) <==>
      ArgsNest(defaults, params)
    ensures ArgsNest(defaults, params) ==> FindInObject(out, "ts_ms", INGEST_DEPTH) == Ok(DecimalInt(nowMs))
  {
    PayloadRoundTrip(cap, requestId, command, defaults, params, nowMs, out);
    BalancedIsNested(defaults, params);
  }
}
