/**
 The subscription wildcard matcher, and what it means over lists of topic levels.
 A string is the contents of a C string: its end is the terminating zero.
 */
module TopicFilter {

  /** Length of the first level of `s`. */
  function LevelLength(s: string): (n: nat)
    ensures n <= |s|
    ensures forall i :: 0 <= i < n ==> s[i] != '/'
    ensures n < |s| ==> s[n] == '/'
  {
    if s == "" || s[0] == '/' then 0 else 1 + LevelLength(s[1..])
  }

  /** The first level of `s`, whether a slash ends it, and what follows the slash. */
  function Head(s: string): string {
    s[..LevelLength(s)]
  }

  predicate GoesOn(s: string) {
    LevelLength(s) < |s|
  }

  function Rest(s: string): string
    requires GoesOn(s)
  {
    s[LevelLength(s) + 1..]
  }

  /** The levels of `s`: the pieces between its slashes, some of them possibly empty. */
  function Levels(s: string): (ls: seq<string>)
    ensures |ls| > 0
    decreases |s|
  {
    [Head(s)] + if GoesOn(s) then Levels(Rest(s)) else []
  }

  function JoinLevels(ls: seq<string>): string
    requires |ls| > 0
  {
    if |ls| == 1 then ls[0] else ls[0] + "/" + JoinLevels(ls[1..])
  }

  /** The level lists match: `+` stands for one level, a final `#` for any number of levels. */
  predicate MatchLevels(fs: seq<string>, ts: seq<string>) {
    if fs == [] then ts == []
    else if fs[0] == "#" then |fs| == 1
    else ts != [] && (fs[0] == "+" || fs[0] == ts[0]) && MatchLevels(fs[1..], ts[1..])
  }

  predicate Matches(filter: string, topic: string) {
    MatchLevels(Levels(filter), Levels(topic))
  }

  /** The first `n` levels agree one by one, and none of them is `#`. */
  predicate AgreeUpTo(fs: seq<string>, ts: seq<string>, n: nat)
    requires n <= |fs|
  {
    n <= |ts| && forall i :: 0 <= i < n ==> fs[i] != "#" && (fs[i] == "+" || fs[i] == ts[i])
  }

  /** Section 4.7.1 of MQTT 3.1.1 on level lists, without recursion. */
  predicate LevelsMatch(fs: seq<string>, ts: seq<string>)
    requires |fs| > 0
  {
    if fs[|fs| - 1] == "#" then AgreeUpTo(fs, ts, |fs| - 1) else |fs| == |ts| && AgreeUpTo(fs, ts, |fs|)
  }

  /** The recursive match is the level-by-level one. */
  lemma {:induction false} MatchLevelsMeans(fs: seq<string>, ts: seq<string>)
    requires |fs| > 0
    ensures MatchLevels(fs, ts) <==> LevelsMatch(fs, ts)
  {
    if |fs| == 1 {
      assert fs[1..] == [];
    } else if fs[0] != "#" && ts != [] {
      MatchLevelsMeans(fs[1..], ts[1..]);
      Shift(fs, ts, |fs| - 1);
      Shift(fs, ts, |fs|);
    }
  }

  lemma Shift(fs: seq<string>, ts: seq<string>, n: nat)
    requires 0 < n <= |fs| && ts != []
    ensures AgreeUpTo(fs, ts, n) <==>
      fs[0] != "#" && (fs[0] == "+" || fs[0] == ts[0]) && AgreeUpTo(fs[1..], ts[1..], n - 1)
  {
    if AgreeUpTo(fs[1..], ts[1..], n - 1) && fs[0] != "#" && (fs[0] == "+" || fs[0] == ts[0]) {
      forall i | 0 <= i < n ensures fs[i] != "#" && (fs[i] == "+" || fs[i] == ts[i]) {
        if i > 0 { assert fs[i] == fs[1..][i - 1] && ts[i] == ts[1..][i - 1]; }
      }
    }
  }

  /** Splitting loses nothing. */
  lemma {:induction false} JoinOfLevels(s: string)
    ensures JoinLevels(Levels(s)) == s
    decreases |s|
  {
    if GoesOn(s) {
      JoinOfLevels(Rest(s));
      assert Levels(s)[1..] == Levels(Rest(s));
      assert s == Head(s) + "/" + Rest(s);
    }
  }

  predicate HasWildcard(ls: seq<string>) {
    "+" in ls || "#" in ls
  }

  /** A filter with no wildcard level matches itself and nothing else. */
  lemma LiteralFilter(filter: string, topic: string)
    requires !HasWildcard(Levels(filter))
    ensures Matches(filter, topic) <==> filter == topic
  {
    var fs, ts := Levels(filter), Levels(topic);
    MatchLevelsMeans(fs, ts);
    JoinOfLevels(filter);
    JoinOfLevels(topic);
    if Matches(filter, topic) {
      assert fs == ts;
    }
  }

  /** The characters `+` and `#` are needed for a wildcard level. */
  lemma {:induction false} NoWildcardChar(s: string)
    requires '+' !in s && '#' !in s
    ensures !HasWildcard(Levels(s))
    decreases |s|
  {
    assert "+"[0] == '+' && "#"[0] == '#';
    assert Head(s) != "+" && Head(s) != "#";
    if GoesOn(s) {
      NoWildcardChar(Rest(s));
    }
  }

  lemma LiteralCharacters(filter: string, topic: string)
    requires '+' !in filter && '#' !in filter
    ensures Matches(filter, topic) <==> filter == topic
  {
    NoWildcardChar(filter);
    LiteralFilter(filter, topic);
  }

  lemma {:induction false} SubtreeLevels(ps: seq<string>, ts: seq<string>)
    requires !HasWildcard(ps)
    ensures MatchLevels(ps + ["#"], ts) <==> ps <= ts
  {
    var fs := ps + ["#"];
    if ps != [] && ts != [] {
      assert fs[1..] == ps[1..] + ["#"] && fs[0] == ps[0];
      SubtreeLevels(ps[1..], ts[1..]);
      assert ps == [ps[0]] + ps[1..] && ts == [ts[0]] + ts[1..];
    }
  }

  /** `p/#` matches `p` itself and every topic below it, and nothing else, when `p` has no wildcard level. */
  lemma SubtreeFilter(p: string, topic: string)
    requires !HasWildcard(Levels(p))
    ensures Matches(p + "/#", topic) <==> Levels(p) <= Levels(topic)
  {
    LevelsOfJoin(p, "#", p + "/#");
    OneLevel("#");
    SubtreeLevels(Levels(p), Levels(topic));
  }

  /** `q` is `p`, a slash and `rest`. */
  predicate Joined(p: string, rest: string, q: string) {
    && |q| == |p| + 1 + |rest| && q[|p|] == '/'
    && (forall i :: 0 <= i < |p| ==> q[i] == p[i])
    && (forall i :: 0 <= i < |rest| ==> rest[i] == q[|p| + 1 + i])
  }

  /** Joining with a slash joins the level lists. */
  lemma {:induction false} LevelsOfJoin(p: string, rest: string, q: string)
    requires Joined(p, rest, q)
    ensures Levels(q) == Levels(p) + Levels(rest)
    decreases |p|
  {
    HeadOfJoin(p, rest, q);
    if GoesOn(p) {
      LevelsOfJoin(Rest(p), rest, Rest(q));
      Prepend(Head(p), Levels(Rest(p)), Levels(rest), Levels(p), Levels(q));
    }
  }

  lemma Prepend(h: string, ls: seq<string>, more: seq<string>, lp: seq<string>, lq: seq<string>)
    requires lp == [h] + ls && lq == [h] + (ls + more)
    ensures lq == lp + more
  {
  }

  lemma HeadOfJoin(p: string, rest: string, q: string)
    requires Joined(p, rest, q)
    ensures Head(q) == Head(p) && GoesOn(q)
    ensures if GoesOn(p) then Joined(Rest(p), rest, Rest(q)) else Rest(q) == rest
  {
    assert LevelLength(q) == LevelLength(p);
  }

  /** A text without a slash is one level. */
  lemma {:induction false} OneLevel(s: string)
    requires '/' !in s
    ensures LevelLength(s) == |s| && Levels(s) == [s]
  {
    if s != "" {
      OneLevel(s[1..]);
    }
    assert Head(s) == s;
  }

  lemma MatchCons(x: string, fs: seq<string>, y: string, ts: seq<string>)
    ensures MatchLevels([x] + fs, [y] + ts) <==>
      if x == "#" then fs == [] else (x == "+" || x == y) && MatchLevels(fs, ts)
  {
    assert ([x] + fs)[1..] == fs && ([y] + ts)[1..] == ts;
  }

  /** Only the filter `#` matches an exhausted topic. */
  lemma AgainstNothing(f: string)
    ensures MatchLevels(Levels(f), []) <==> f == "#"
  {
    JoinOfLevels(f);
    if f == "#" {
      OneLevel(f);
    }
  }

  predicate HeadsAgree(f: string, t: string) {
    Head(f) != "#" && (Head(f) == "+" || Head(f) == Head(t))
  }

  /** One round of the matcher. */
  lemma MatchUnfold(f: string, t: string)
    ensures Head(f) == "#" ==> (Matches(f, t) <==> !GoesOn(f))
    ensures !HeadsAgree(f, t) && Head(f) != "#" ==> !Matches(f, t)
    ensures HeadsAgree(f, t) ==> (Matches(f, t) <==> RestsMatch(f, t))
  {
    var fs := if GoesOn(f) then Levels(Rest(f)) else [];
    var ts := if GoesOn(t) then Levels(Rest(t)) else [];
    MatchCons(Head(f), fs, Head(t), ts);
    if GoesOn(f) {
      AgainstNothing(Rest(f));
    }
  }

  /** What the ends of two agreeing levels leave to be matched. */
  predicate RestsMatch(f: string, t: string) {
    if GoesOn(f) && GoesOn(t) then Matches(Rest(f), Rest(t))
    else if GoesOn(f) then Rest(f) == "#"
    else !GoesOn(t)
  }

  // ---------------------------------------------------------------- topics that begin with a dollar sign

  /** A wildcard filter against a `$` topic, which section 4.7.2 keeps apart. */
  predicate KeptApart(filter: string, topic: string) {
    topic != "" && topic[0] == '$' && (Levels(filter)[0] == "+" || Levels(filter)[0] == "#")
  }

  /** Matching as sections 4.7.1 and 4.7.2 together have it. */
  predicate StandardMatch(filter: string, topic: string) {
    LevelsMatch(Levels(filter), Levels(topic)) && !KeptApart(filter, topic)
  }

  /**
   The matcher accepts whatever the standard does, and more in exactly one case: the topic begins with
   a dollar sign, the first level of the filter is a wildcard, and the levels agree.
   */
  lemma DollarTopics(filter: string, topic: string)
    ensures StandardMatch(filter, topic) ==> Matches(filter, topic)
    ensures Matches(filter, topic) && !StandardMatch(filter, topic) <==>
      KeptApart(filter, topic) && LevelsMatch(Levels(filter), Levels(topic))
  {
    MatchLevelsMeans(Levels(filter), Levels(topic));
  }

  /** So `#` matches every `$` topic, and `+/x` every `$` topic of two levels that ends in `x`. */
  lemma DollarIsMatched(name: string, rest: string)
    requires '/' !in name
    ensures KeptApart("#", "$" + rest) && Matches("#", "$" + rest) && !StandardMatch("#", "$" + rest)
    ensures var topic := ("$" + name) + "/x";
      KeptApart("+/x", topic) && Matches("+/x", topic) && !StandardMatch("+/x", topic)
  {
    OneLevel("#");
    DollarTopics("#", "$" + rest);
    TwoLevels("+", "x", "+/x");
    var topic := ("$" + name) + "/x";
    TwoLevels("$" + name, "x", topic);
    assert AgreeUpTo(["+", "x"], ["$" + name, "x"], 2);
    assert topic[0] == ("$" + name)[0] == '$';
    DollarTopics("+/x", topic);
  }

  lemma TwoLevels(a: string, b: string, s: string)
    requires '/' !in a && '/' !in b && s == a + ("/" + b)
    ensures Levels(s) == [a, b]
  {
    LevelsOfJoin(a, b, s);
    OneLevel(a);
    OneLevel(b);
  }

  // ---------------------------------------------------------------- the two cursors

  /** Where the level that starts at `at` ends. */
  function LevelEnd(s: string, at: nat): (e: nat)
    requires at <= |s|
    ensures at <= e <= |s|
    decreases |s| - at
  {
    if at < |s| && s[at] != '/' then LevelEnd(s, at + 1) else at
  }

  /** With the cursor at `at`, `r` is what is left to read of `s`. */
  predicate Left(s: string, at: nat, r: string) {
    at <= |s| && |r| == |s| - at && forall i :: 0 <= i < |r| ==> r[i] == s[at + i]
  }

  lemma {:induction false} LevelEndIs(s: string, at: nat, r: string)
    requires Left(s, at, r)
    ensures LevelEnd(s, at) == at + LevelLength(r)
    decreases |s| - at
  {
    if at < |s| && s[at] != '/' {
      LevelEndIs(s, at + 1, r[1..]);
    }
  }

  /** A cursor at `at` with `r` still to read: the level there and what follows it. */
  lemma AtCursor(s: string, at: nat, r: string, e: nat)
    requires Left(s, at, r) && e == LevelEnd(s, at)
    ensures GoesOn(r) <==> e < |s|
    ensures GoesOn(r) ==> Left(s, e + 1, Rest(r))
  {
    LevelEndIs(s, at, r);
  }

  lemma HeadAtCursor(s: string, at: nat, r: string, e: nat)
    requires Left(s, at, r) && e == LevelEnd(s, at)
    ensures Head(r) == s[at..e]
  {
    LevelEndIs(s, at, r);
  }

  lemma IsHash(s: string, at: nat, r: string)
    requires Left(s, at, r)
    ensures r == "#" <==> at + 1 == |s| && s[at] == '#'
  {
    if |r| == 1 {
      assert r[0] == s[at + 0];
      assert r == [r[0]];
    }
  }

  /** The level from `at` to `e` is the one character `c`. */
  predicate LevelIs(s: string, at: nat, e: nat, c: char)
    requires at <= e <= |s|
  {
    e == at + 1 && s[at] == c
  }

  /** `memcmp` of `n` characters gives zero. */
  predicate SameBytes(a: string, i: nat, b: string, j: nat, n: nat)
    requires i + n <= |a| && j + n <= |b|
    decreases n
  {
    n == 0 || (a[i] == b[j] && SameBytes(a, i + 1, b, j + 1, n - 1))
  }

  lemma SliceStarts(s: string, at: nat, n: nat)
    requires 0 < n && at + n <= |s|
    ensures |s[at..at + n]| == n && s[at..at + n][0] == s[at] && s[at..at + n][1..] == s[at + 1..at + 1 + (n - 1)]
  {
  }

  lemma EqualByHead(u: string, v: string)
    requires u != "" && v != ""
    ensures u == v <==> u[0] == v[0] && u[1..] == v[1..]
  {
    assert u == [u[0]] + u[1..] && v == [v[0]] + v[1..];
  }

  lemma {:induction false} SameBytesIs(a: string, i: nat, b: string, j: nat, n: nat)
    requires i + n <= |a| && j + n <= |b|
    ensures SameBytes(a, i, b, j, n) <==> a[i..i + n] == b[j..j + n]
    decreases n
  {
    if n > 0 {
      SameBytesIs(a, i + 1, b, j + 1, n - 1);
      SliceStarts(a, i, n);
      SliceStarts(b, j, n);
      EqualByHead(a[i..i + n], b[j..j + n]);
    }
  }

  /** The rounds of the matcher as a function of its two cursors. */
  predicate MatchesAt(filter: string, f: nat, topic: string, t: nat)
    requires f <= |filter| && t <= |topic|
    decreases |filter| - f
  {
    var fe, te := LevelEnd(filter, f), LevelEnd(topic, t);
    if LevelIs(filter, f, fe, '#') then fe == |filter|
    else if !LevelIs(filter, f, fe, '+') && !(fe - f == te - t && SameBytes(filter, f, topic, t, fe - f)) then false
    else if fe < |filter| && te < |topic| then MatchesAt(filter, fe + 1, topic, te + 1)
    else if fe < |filter| then fe + 2 == |filter| && filter[fe + 1] == '#'
    else te == |topic|
  }

  lemma LevelIsHead(s: string, at: nat, r: string, e: nat, c: char)
    requires Left(s, at, r) && e == LevelEnd(s, at)
    ensures LevelIs(s, at, e, c) <==> Head(r) == [c]
  {
    HeadAtCursor(s, at, r, e);
    if Head(r) == [c] { assert s[at] == s[at..e][0]; }
  }

  lemma SameHeads(filter: string, f: nat, fr: string, topic: string, t: nat, tr: string)
    requires Left(filter, f, fr) && Left(topic, t, tr)
    ensures var fe, te := LevelEnd(filter, f), LevelEnd(topic, t);
      Head(fr) == Head(tr) <==> fe - f == te - t && SameBytes(filter, f, topic, t, fe - f)
  {
    var fe, te := LevelEnd(filter, f), LevelEnd(topic, t);
    HeadAtCursor(filter, f, fr, fe);
    HeadAtCursor(topic, t, tr, te);
    if fe - f == te - t { SameBytesIs(filter, f, topic, t, fe - f); }
  }

  /** The tests on the level under each cursor are tests on the first levels left to read. */
  lemma CursorHeads(filter: string, f: nat, fr: string, topic: string, t: nat, tr: string)
    requires Left(filter, f, fr) && Left(topic, t, tr)
    ensures var fe, te := LevelEnd(filter, f), LevelEnd(topic, t);
      && (LevelIs(filter, f, fe, '#') <==> Head(fr) == "#")
      && (HeadsAgree(fr, tr) <==>
            !LevelIs(filter, f, fe, '#') &&
            (LevelIs(filter, f, fe, '+') || (fe - f == te - t && SameBytes(filter, f, topic, t, fe - f))))
  {
    var fe, te := LevelEnd(filter, f), LevelEnd(topic, t);
    LevelIsHead(filter, f, fr, fe, '#');
    LevelIsHead(filter, f, fr, fe, '+');
    SameHeads(filter, f, fr, topic, t, tr);
  }

  /** The outcome of a round: a `#`, whether the levels agree, what follows them, and the verdict of the next round. */
  predicate Verdict(hash: bool, agree: bool, filterGoesOn: bool, topicGoesOn: bool, hashFollows: bool, next: bool) {
    if hash then !filterGoesOn
    else agree && (if filterGoesOn && topicGoesOn then next else if filterGoesOn then hashFollows else !topicGoesOn)
  }

  lemma TextVerdict(f: string, t: string)
    ensures Matches(f, t) <==>
      Verdict(Head(f) == "#", HeadsAgree(f, t), GoesOn(f), GoesOn(t), GoesOn(f) && Rest(f) == "#",
              GoesOn(f) && GoesOn(t) && Matches(Rest(f), Rest(t)))
  {
    MatchUnfold(f, t);
  }

  predicate LevelsAgreeAt(filter: string, f: nat, topic: string, t: nat)
    requires f <= |filter| && t <= |topic|
  {
    var fe, te := LevelEnd(filter, f), LevelEnd(topic, t);
    !LevelIs(filter, f, fe, '#') &&
    (LevelIs(filter, f, fe, '+') || (fe - f == te - t && SameBytes(filter, f, topic, t, fe - f)))
  }

  lemma CursorVerdict(filter: string, f: nat, topic: string, t: nat)
    requires f <= |filter| && t <= |topic|
    ensures var fe, te := LevelEnd(filter, f), LevelEnd(topic, t);
      MatchesAt(filter, f, topic, t) <==>
      Verdict(LevelIs(filter, f, fe, '#'), LevelsAgreeAt(filter, f, topic, t), fe < |filter|, te < |topic|,
              fe + 2 == |filter| && filter[fe + 1] == '#',
              fe < |filter| && te < |topic| && MatchesAt(filter, fe + 1, topic, te + 1))
  {
  }

  /** What a round sees at the cursors is what it sees in the text left to read. */
  lemma SameView(filter: string, f: nat, fr: string, topic: string, t: nat, tr: string)
    requires Left(filter, f, fr) && Left(topic, t, tr)
    ensures var fe, te := LevelEnd(filter, f), LevelEnd(topic, t);
      && (LevelIs(filter, f, fe, '#') <==> Head(fr) == "#")
      && (LevelsAgreeAt(filter, f, topic, t) <==> HeadsAgree(fr, tr))
      && (fe < |filter| <==> GoesOn(fr)) && (te < |topic| <==> GoesOn(tr))
      && (GoesOn(fr) && Rest(fr) == "#" <==> fe + 2 == |filter| && filter[fe + 1] == '#')
  {
    var fe, te := LevelEnd(filter, f), LevelEnd(topic, t);
    CursorHeads(filter, f, fr, topic, t, tr);
    AtCursor(filter, f, fr, fe);
    AtCursor(topic, t, tr, te);
    if fe < |filter| {
      IsHash(filter, fe + 1, Rest(fr));
    }
  }

  /** A round decides alike if the next one does. */
  lemma OneRound(filter: string, f: nat, fr: string, topic: string, t: nat, tr: string)
    requires Left(filter, f, fr) && Left(topic, t, tr)
    requires GoesOn(fr) && GoesOn(tr) ==>
      var fe, te := LevelEnd(filter, f), LevelEnd(topic, t);
      fe < |filter| && te < |topic| && (MatchesAt(filter, fe + 1, topic, te + 1) <==> Matches(Rest(fr), Rest(tr)))
    ensures MatchesAt(filter, f, topic, t) <==> Matches(fr, tr)
  {
    SameView(filter, f, fr, topic, t, tr);
    TextVerdict(fr, tr);
    CursorVerdict(filter, f, topic, t);
  }

  /** The cursors' rounds are the match of what is left to read. */
  lemma {:induction false} MatchesAtIs(filter: string, f: nat, fr: string, topic: string, t: nat, tr: string)
    requires Left(filter, f, fr) && Left(topic, t, tr)
    ensures MatchesAt(filter, f, topic, t) <==> Matches(fr, tr)
    decreases |filter| - f, 1
  {
    if GoesOn(fr) && GoesOn(tr) {
      NextRound(filter, f, fr, topic, t, tr);
    }
    OneRound(filter, f, fr, topic, t, tr);
  }

  lemma {:induction false} NextRound(filter: string, f: nat, fr: string, topic: string, t: nat, tr: string)
    requires Left(filter, f, fr) && Left(topic, t, tr)
    requires GoesOn(fr) && GoesOn(tr)
    ensures var fe, te := LevelEnd(filter, f), LevelEnd(topic, t);
      fe < |filter| && te < |topic| && (MatchesAt(filter, fe + 1, topic, te + 1) <==> Matches(Rest(fr), Rest(tr)))
    decreases |filter| - f, 0
  {
    var fe, te := LevelEnd(filter, f), LevelEnd(topic, t);
    AtCursor(filter, f, fr, fe);
    AtCursor(topic, t, tr, te);
    MatchesAtIs(filter, fe + 1, Rest(fr), topic, te + 1, Rest(tr));
  }

  /** The inner loops of the matcher: count the characters of the level that starts at `from`. */
  method MeasureLevel(s: string, from: nat) returns (n: nat)
    requires from <= |s|
    ensures from + n == LevelEnd(s, from)
  {
    n := 0;
    while from + n < |s| && s[from + n] != '/'
      invariant from + n <= |s| && LevelEnd(s, from) == LevelEnd(s, from + n)
    {
      n := n + 1;
    }
  }

  /** `topic_matches_filter`. */
  method TopicMatchesFilter(filter: string, topic: string) returns (matched: bool)
    ensures matched <==> Matches(filter, topic)
  {
    matched := MatchByCursors(filter, topic);
    MatchesAtIs(filter, 0, filter, topic, 0, topic);
  }

  /** The loop of the matcher: two cursors advanced level by level. */
  method MatchByCursors(filter: string, topic: string) returns (matched: bool)
    ensures matched <==> MatchesAt(filter, 0, topic, 0)
  {
    ghost var goal := MatchesAt(filter, 0, topic, 0);
    var f: nat, t: nat := 0, 0;
    while true
      invariant f <= |filter| && t <= |topic|
      invariant goal <==> MatchesAt(filter, f, topic, t)
      decreases |filter| - f
    {
      var flen := MeasureLevel(filter, f);
      var tlen := MeasureLevel(topic, t);
      if flen == 1 && filter[f] == '#' {
        return f + 1 == |filter|;
      }
      if !(flen == 1 && filter[f] == '+') {
        if flen != tlen || !SameBytes(filter, f, topic, t, flen) {
          return false;
        }
      }
      f, t := f + flen, t + tlen;
      if f == |filter| && t == |topic| {
        return true;
      }
      if f < |filter| && t < |topic| {
        f, t := f + 1, t + 1;
        continue;
      }
      if f < |filter| && t == |topic| {
        return f + 2 == |filter| && filter[f + 1] == '#';
      }
      return false;
    }
  }
}
