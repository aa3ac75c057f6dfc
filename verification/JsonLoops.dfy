/**
 The scanners and the payload writer as the code runs them. A cursor is a position in a
 NUL-terminated text, and stands for the characters from there to the end; the loops advance
 it. The bracket stack and the output buffer are arrays written in place.
 */
module JsonLoops {
  import opened Base
  import opened JsonScan
  import opened CommandPayload

  method SkipWsFrom(t: string) returns (p: string)
    ensures p == SkipWs(t)
  {
    p := t;
    while p != "" && IsWs(p[0])
      invariant SkipWs(p) == SkipWs(t)
      decreases |p|
    {
      p := p[1..];
    }
  }

  /** `json_skip_string` insists on an opening quote. */
  function SkipString(t: string): (r: Result<string>)
    ensures r.Ok? ==> |r.value| < |t|
  {
    if t == "" || t[0] != '"' then Fail(InvalidArg)
    else
      var rest := StringTail(t[1..]);
      if rest.None? then Fail(InvalidArg) else Ok(rest.value)
  }

  method SkipStringFrom(t: string) returns (r: Result<string>)
    ensures r == SkipString(t)
  {
    if t == "" || t[0] != '"' {
      return Fail(InvalidArg);
    }
    var p := t[1..];
    while p != ""
      invariant StringTail(p) == StringTail(t[1..])
      decreases |p|
    {
      if p[0] == '\\' {
        if |p| == 1 {
          return Fail(InvalidArg);
        }
        p := p[2..];
      } else if p[0] == '"' {
        return Ok(p[1..]);
      } else {
        p := p[1..];
      }
    }
    return Fail(InvalidArg);
  }

  method ScalarEndFrom(t: string) returns (p: string)
    ensures p == ScalarTail(t)
  {
    p := t;
    while p != "" && p[0] != ',' && p[0] != '}'
      invariant ScalarTail(p) == ScalarTail(t)
      decreases |p|
    {
      p := p[1..];
    }
  }

  /** The bracket loop, with the stack the code keeps in an array of `max` characters. */
  method StackScanFrom(t: string, max: nat) returns (r: Result<string>)
    requires t != "" && IsOpen(t[0]) && max > 0
    ensures r == StackScan(t[1..], [t[0]], max)
  {
    var stack := new char[max](_ => ' ');
    stack[0] := t[0];
    var depth := 1;
    var p := t[1..];
    assert stack[..1] == [t[0]];
    while p != ""
      invariant 1 <= depth <= max
      invariant StackScan(p, stack[..depth], max) == StackScan(t[1..], [t[0]], max)
      decreases |p|
    {
      if p[0] == '"' {
        var rest := SkipStringFrom(p);
        if rest.Fail? {
          return Fail(InvalidArg);
        }
        p := rest.value;
      } else if IsOpen(p[0]) {
        if depth >= max {
          return Fail(InvalidSize);
        }
        ghost var before := stack[..depth];
        stack[depth] := p[0];
        assert stack[..depth + 1] == before + [p[0]];
        depth := depth + 1;
        p := p[1..];
      } else if IsClose(p[0]) {
        if p[0] != Closer(stack[depth - 1]) {
          return Fail(InvalidArg);
        }
        if depth == 1 {
          return Ok(p[1..]);
        }
        assert stack[..depth][..depth - 1] == stack[..depth - 1];
        depth := depth - 1;
        p := p[1..];
      } else {
        p := p[1..];
      }
    }
    return Fail(InvalidArg);
  }

  method SkipValueFrom(t: string, max: nat) returns (r: Result<string>)
    requires max > 0
    ensures r == SkipValue(t, max)
  {
    var p := SkipWsFrom(t);
    if p == "" {
      return Fail(InvalidArg);
    }
    if p[0] == '"' {
      r := SkipStringFrom(p);
    } else if IsOpen(p[0]) {
      r := StackScanFrom(p, max);
    } else {
      var e := ScalarEndFrom(p);
      r := Ok(e);
    }
  }

  /** `params_skip_value` with its single counter. */
  method SkipValueByCountFrom(t: string) returns (r: Result<string>)
    ensures r == SkipValueByCount(t)
  {
    var p := SkipWsFrom(t);
    if p == "" {
      return Fail(InvalidArg);
    }
    if p[0] == '"' {
      r := SkipStringFrom(p);
      return;
    }
    if !IsOpen(p[0]) {
      var e := ScalarEndFrom(p);
      return Ok(e);
    }
    var open, depth := p[0], 1;
    p := p[1..];
    ghost var spec := CountScan(p, open, 1);
    while p != ""
      invariant depth >= 1 && CountScan(p, open, depth) == spec
      decreases |p|
    {
      if p[0] == '"' {
        var rest := SkipStringFrom(p);
        if rest.Fail? {
          return Fail(InvalidArg);
        }
        p := rest.value;
      } else {
        if p[0] == open {
          depth := depth + 1;
        } else if p[0] == Closer(open) {
          depth := depth - 1;
          if depth == 0 {
            return Ok(p[1..]);
          }
        }
        p := p[1..];
      }
    }
    return Fail(InvalidArg);
  }

  method ReadKeyFrom(t: string) returns (r: KeyScan)
    ensures r == ReadKey(t)
  {
    var p, key := t, "";
    while p != ""
      invariant match ReadKey(p)
        case Key(more, rest) => ReadKey(t) == Key(key + more, rest)
        case BadKey(e) => ReadKey(t) == BadKey(e)
      decreases |p|
    {
      if p[0] == '\\' {
        return BadKey(NotSupported);
      }
      if p[0] == '"' {
        assert key + "" == key;
        return Key(key, p[1..]);
      }
      if ReadKey(p[1..]).Key? {
        Assoc(key, [p[0]], ReadKey(p[1..]).key);
      }
      key, p := key + [p[0]], p[1..];
    }
    return BadKey(InvalidArg);
  }

  method NextPairFrom(t: string, max: nat) returns (r: PairScan)
    requires max > 0
    ensures r == NextPair(t, max)
  {
    var p := SkipWsFrom(t);
    if p == "" {
      return BadPair(InvalidArg);
    }
    if p[0] == '}' {
      return NoMore(p[1..]);
    }
    if p[0] != '"' {
      return BadPair(InvalidArg);
    }
    var key := ReadKeyFrom(p[1..]);
    if key.BadKey? {
      return BadPair(key.err);
    }
    r := PairRestFrom(p, key.key, key.rest, max);
  }

  method PairRestFrom(p: string, key: string, afterKey: string, max: nat) returns (r: PairScan)
    requires |afterKey| < |p| && max > 0
    ensures r == ReadPairRest(p, key, afterKey, max)
  {
    var colon := SkipWsFrom(afterKey);
    if colon == "" || colon[0] != ':' {
      return BadPair(InvalidArg);
    }
    var v := SkipWsFrom(colon[1..]);
    var value := SkipValueFrom(v, max);
    assert SkipWs(v) == v;
    if value.Fail? {
      return BadPair(InvalidArg);
    }
    var next := SkipWsFrom(value.value);
    if next == "" || (next[0] != ',' && next[0] != '}') {
      return BadPair(InvalidArg);
    }
    r := Pair(JsonPair(key, Taken(v, value.value), Taken(p, value.value)), if next[0] == ',' then next[1..] else next);
  }

  /** `dci_json_find_pair_in_object` */
  method FindInObjectFrom(t: string, key: string, max: nat) returns (r: Result<string>)
    requires max > 0
    ensures r == FindInObject(t, key, max)
  {
    var p := SkipWsFrom(t);
    if p == "" || p[0] != '{' {
      return Fail(InvalidArg);
    }
    p := p[1..];
    ghost var spec := FindValue(p, key, max);
    while true
      invariant FindValue(p, key, max) == spec
      decreases |p|
    {
      var next := NextPairFrom(p, max);
      match next
      case NoMore(_) => return Fail(NotFound);
      case BadPair(e) => return Fail(e);
      case Pair(pair, rest) =>
        if pair.key == key {
          return Ok(pair.value);
        }
        p := rest;
    }
  }

  method HasKeyIn(json: string, key: string) returns (has: bool)
    ensures has <==> HasKey(json, key)
  {
    var r := FindInObjectFrom(json, key, COMMAND_DEPTH);
    has := r.Ok?;
  }

  /** `dci_json_parse_u64_value` */
  method ParseU64From(t: string) returns (r: Option<nat>)
    ensures r == ParseU64(t)
  {
    if t == "" || t[0] == '-' {
      return None;
    }
    var result: nat, i: nat, hasDigit := 0, 0, false;
    assert t[0..] == t;
    while i < |t| && '0' <= t[i] <= '9'
      invariant i <= |t| && (hasDigit <==> i > 0)
      invariant ParseDigits(t, 0) == ParseDigits(t[i..], result)
    {
      var digit := t[i] as int - '0' as int;
      hasDigit := true;
      assert t[i..][1..] == t[i + 1..];
      if result > (U64_MAX - digit) / 10 {
        return None;
      }
      result := result * 10 + digit;
      i := i + 1;
    }
    if !hasDigit || i != |t| {
      return None;
    }
    return Some(result);
  }

  /** What decoding `rest` gives once `done` is written. */
  function Decoded(done: string, rest: string): Result<string> {
    match Unescape(rest)
    case Fail(e) => Fail(e)
    case Ok(more) => Ok(done + more)
  }

  /** One round of the decoding loop: a plain character, a known escape, or an unknown one kept as it stands. */
  lemma DecodeRound(done: string, rest: string)
    requires rest != ""
    ensures rest[0] != '\\' ==> Decoded(done, rest) == Decoded(done + [rest[0]], rest[1..])
    ensures rest[0] == '\\' && |rest| == 1 ==> Decoded(done, rest).Fail?
    ensures rest[0] == '\\' && |rest| > 1 ==>
      var c := EscapeMeaning(rest[1]);
      Decoded(done, rest) == Decoded(if c.Some? then done + [c.value] else done + ['\\'] + [rest[1]], rest[2..])
  {
    if rest[0] != '\\' {
      if Unescape(rest[1..]).Ok? { Assoc(done, [rest[0]], Unescape(rest[1..]).value); }
    } else if |rest| > 1 {
      if Unescape(rest[2..]).Ok? {
        var c, more := EscapeMeaning(rest[1]), Unescape(rest[2..]).value;
        if c.Some? {
          Assoc(done, [c.value], more);
        } else {
          assert done + ['\\'] + [rest[1]] == done + ['\\', rest[1]];
          Assoc(done, ['\\', rest[1]], more);
        }
      }
    }
  }

  lemma DecodeEnds(done: string, body: string)
    ensures Decoded(done, "") == Ok(done) && Decoded("", body) == Unescape(body)
  {
    assert done + "" == done;
    if Unescape(body).Ok? { assert "" + Unescape(body).value == Unescape(body).value; }
  }

  /** A buffer filled to its last byte cannot hold the rest of the string. */
  lemma TooLong(done: string, rest: string, size: nat)
    requires |done| >= size && Decoded(done, rest).Ok?
    ensures |Decoded(done, rest).value| >= size
  {
  }

  /** `dci_json_copy_string_value`: decode into `dst`, ending with a zero. */
  method DecodeStringInto(value: string, dst: array<char>) returns (ok: bool, n: nat)
    modifies dst
    ensures ok <==> DecodeString(value, dst.Length).Ok?
    ensures ok ==> n < dst.Length && dst[..n] == DecodeString(value, dst.Length).value && dst[n] == '\0'
  {
    n := 0;
    if dst.Length == 0 || |value| < 2 || value[0] != '"' || value[|value| - 1] != '"' {
      return false, n;
    }
    ghost var body := value[1..|value| - 1];
    ghost var rest := body;
    DecodeEnds("", body);
    var i := 1;
    while i < |value| - 1
      invariant 1 <= i <= |value| - 1 && n < dst.Length && rest == value[i..|value| - 1]
      invariant Decoded("", body) == Decoded(dst[..n], rest)
      decreases |value| - i
    {
      DecodeRound(dst[..n], rest);
      ghost var done := dst[..n];
      var ch := value[i];
      assert rest[0] == ch && rest[1..] == value[i + 1..|value| - 1];
      i := i + 1;
      if ch == '\\' {
        if i >= |value| - 1 {
          return false, n;
        }
        var c := EscapeMeaning(value[i]);
        assert rest[1] == value[i] && rest[2..] == value[i + 1..|value| - 1];
        ch := value[i];
        i := i + 1;
        if c.None? {
          if n + 2 >= dst.Length {
            if Decoded("", body).Ok? { TooLong(done + ['\\'] + [ch], rest[2..], dst.Length); }
            return false, n;
          }
          dst[n], dst[n + 1] := '\\', ch;
          n := n + 2;
          assert dst[..n] == done + ['\\'] + [ch];
          rest := rest[2..];
          continue;
        }
        ch := c.value;
        rest := rest[2..];
      } else {
        rest := rest[1..];
      }
      if n + 1 >= dst.Length {
        if Decoded("", body).Ok? { TooLong(done + [ch], rest, dst.Length); }
        return false, n;
      }
      dst[n] := ch;
      n := n + 1;
      assert dst[..n] == done + [ch];
    }
    ghost var text := dst[..n];
    assert rest == "";
    DecodeEnds(text, body);
    dst[n] := '\0';
    assert dst[..n] == text;
    return true, n;
  }

  lemma EscapeStep(text: string, s: string, i: nat)
    requires i < |s|
    ensures text + EscapeChar(s[i]) + Escape(s[i + 1..]) == text + Escape(s[i..])
    ensures |Escape(s[i..])| == |EscapeChar(s[i])| + |Escape(s[i + 1..])|
  {
    assert s[i..][1..] == s[i + 1..];
    Assoc(text, EscapeChar(s[i]), Escape(s[i + 1..]));
  }

  /** An output buffer of which one character is kept for the terminating NUL. */
  class Writer {
    const buf: array<char>
    var len: nat

    ghost predicate Valid()
      reads this
    {
      len < buf.Length
    }

    ghost function Text(): string
      reads this, buf
      requires Valid()
    {
      buf[..len]
    }

    constructor (cap: nat)
      requires cap > 0
      ensures Valid() && fresh(buf) && buf.Length == cap && Text() == ""
    {
      buf := new char[cap](_ => '\0');
      len := 0;
    }

    method Putn(text: string) returns (ok: bool)
      requires Valid()
      modifies this, buf
      ensures Valid()
      ensures ok <==> old(len) + |text| < buf.Length
      ensures Text() == if ok then old(Text()) + text else old(Text())
      ensures ok ==> buf[len] == '\0'
    {
      if len + |text| >= buf.Length {
        return false;
      }
      var i := 0;
      while i < |text|
        invariant i <= |text| && len == old(len) && len + |text| < buf.Length
        invariant buf[..len] == old(Text()) && buf[len..len + i] == text[..i]
      {
        buf[len + i] := text[i];
        i := i + 1;
      }
      assert buf[..len + i] == buf[..len] + buf[len..len + i];
      len := len + |text|;
      buf[len] := '\0';
      ok := true;
    }

    /** Piece by piece, failing as soon as a piece does not fit: in all, exactly when the whole does not. */
    method PutEscaped(s: string) returns (ok: bool)
      requires Valid()
      modifies this, buf
      ensures Valid()
      ensures ok <==> old(len) + |Quote(s)| < buf.Length
      ensures ok ==> Text() == old(Text()) + Quote(s)
    {
      ghost var body := old(Text()) + "\"" + Escape(s);
      assert old(Text()) + Quote(s) == body + "\"";
      ok := Putn("\"");
      if !ok {
        return;
      }
      var i := 0;
      assert s[0..] == s;
      while i < |s|
        invariant i <= |s| && Valid() && Text() + Escape(s[i..]) == body
      {
        EscapeStep(Text(), s, i);
        ok := Putn(EscapeChar(s[i]));
        if !ok {
          return;
        }
        i := i + 1;
      }
      assert Text() + "" == Text();
      ok := Putn("\"");
    }

    method PutPair(text: string, first: bool) returns (ok: bool)
      requires Valid()
      modifies this, buf
      ensures Valid()
      ensures var piece := (if first then "" else ",") + text;
        (ok <==> old(len) + |piece| < buf.Length) && (ok ==> Text() == old(Text()) + piece)
    {
      if !first {
        ok := Putn(",");
        if !ok {
          return;
        }
        Assoc(old(Text()), ",", text);
      }
      ok := Putn(text);
      assert "" + text == text;
    }

    /** `writer_put_object_pairs`: the walk over the pairs of one object. */
    method PutObjectPairs(json: string, over: string, skip: bool, first: bool) returns (r: Result<bool>)
      requires Valid()
      modifies this, buf
      ensures Valid()
      ensures match PutObject(Written(old(Text()), first), json, over, skip, buf.Length)
        case Ok(w) => r == Ok(w.first) && Text() == w.text
        case Fail(e) => r == Fail(e)
    {
      var p := SkipWsFrom(json);
      if json == "" {
        return Ok(first);
      }
      if p == "" || p[0] != '{' {
        return Fail(InvalidArg);
      }
      r := PutPairsFrom(p[1..], over, skip, first);
    }

    method PutPairsFrom(t: string, over: string, skip: bool, first: bool) returns (r: Result<bool>)
      requires Valid()
      modifies this, buf
      ensures Valid()
      ensures match PutPairs(old(Text()), t, over, skip, first, buf.Length)
        case Ok(w) => r == Ok(w.first) && Text() == w.text
        case Fail(e) => r == Fail(e)
    {
      var p, isFirst := t, first;
      while true
        invariant Valid()
        invariant PutPairs(Text(), p, over, skip, isFirst, buf.Length) ==
          PutPairs(old(Text()), t, over, skip, first, buf.Length)
        decreases |p|
      {
        var next := NextPairFrom(p, COMMAND_DEPTH);
        match next
        case NoMore(_) => return Ok(isFirst);
        case BadPair(e) => return Fail(e);
        case Pair(pair, rest) =>
          var skipped := false;
          if skip {
            skipped := HasKeyIn(over, pair.key);
          }
          if !skipped {
            var ok := PutPair(pair.text, isFirst);
            if !ok {
              return Fail(InvalidSize);
            }
            isFirst := false;
          }
          p := rest;
      }
    }
  }

  method PutHead(w: Writer, requestId: string, command: string) returns (ok: bool)
    requires w.Valid() && w.Text() == ""
    modifies w, w.buf
    ensures w.Valid()
    ensures ok <==> |Head(requestId, command)| < w.buf.Length
    ensures ok ==> w.Text() == Head(requestId, command)
  {
    ok := w.Putn("{\"request_id\":");
    if ok { ok := w.PutEscaped(requestId); }
    if ok { ok := w.Putn(",\"command\":"); }
    if ok { ok := w.PutEscaped(command); }
    if ok { ok := w.Putn(",\"args\":{"); }
    assert "" + "{\"request_id\":" == "{\"request_id\":";
  }

  method PutTail(w: Writer, nowMs: int) returns (ok: bool)
    requires w.Valid()
    modifies w, w.buf
    ensures w.Valid()
    ensures Put(Put(Put(Ok(old(w.Text())), "},\"ts_ms\":", w.buf.Length), DecimalInt(nowMs), w.buf.Length),
                "}", w.buf.Length) ==
      if ok then Ok(w.Text()) else Fail(InvalidSize)
  {
    ok := w.Putn("},\"ts_ms\":");
    if ok { ok := w.Putn(DecimalInt(nowMs)); }
    if ok { ok := w.Putn("}"); }
  }

  /** `build_command_payload` into a buffer of `cap` characters. */
  method BuildPayload(cap: nat, requestId: string, command: string, defaults: string, params: string, nowMs: int)
    returns (r: Result<string>)
    requires cap > 0
    ensures r == Build(cap, requestId, command, defaults, params, nowMs)
  {
    var w := new Writer(cap);
    var ok := PutHead(w, requestId, command);
    HeadIsPut(cap, requestId, command);
    if !ok {
      return Fail(InvalidSize);
    }
    var first := w.PutObjectPairs(defaults, params, true, true);
    if first.Fail? {
      return Fail(first.err);
    }
    var both := w.PutObjectPairs(params, "", false, first.value);
    if both.Fail? {
      return Fail(both.err);
    }
    ok := PutTail(w, nowMs);
    r := if ok then Ok(w.buf[..w.len]) else Fail(InvalidSize);
  }
}
