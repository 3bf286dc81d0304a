/** The `str` operations of Rust's standard library that the bot relies on:
    whitespace trimming, substring search, pattern removal (`replace(p, "")`),
    `split_once`, `split_whitespace`, `lines`, `join` and ASCII lower-casing.
    Indices are character indices; Rust's byte indices pick out the same
    characters. */
module Text {
  import opened Wrappers

  /** Rust's `char::is_whitespace`: the Unicode White_Space property. */
  predicate IsWhitespace(c: char) {
    ('\t' <= c <= '\r') || c == ' ' || c == '\U{85}' || c == '\U{A0}' || c == '\U{1680}'
    || ('\U{2000}' <= c <= '\U{200A}') || c == '\U{2028}' || c == '\U{2029}'
    || c == '\U{202F}' || c == '\U{205F}' || c == '\U{3000}'
  }

  predicate IsPrefix(pat: string, s: string) {
    |pat| <= |s| && s[..|pat|] == pat
  }

  predicate IsSuffix(pat: string, s: string) {
    |pat| <= |s| && s[|s| - |pat|..] == pat
  }

  /** `str::find`: the index of the first occurrence of `pat`. */
  function Find(s: string, pat: string): (r: Option<nat>)
    ensures r.Some? ==> r.value + |pat| <= |s| && IsPrefix(pat, s[r.value..])
    ensures r.Some? ==> forall j :: 0 <= j < r.value ==> !IsPrefix(pat, s[j..])
    ensures r.None? ==> forall j :: 0 <= j <= |s| ==> !IsPrefix(pat, s[j..])
    decreases |s|
  {
    if IsPrefix(pat, s) then Some(0)
    else if s == [] then None
    else
      var tail := Find(s[1..], pat);
      assert forall j :: 1 <= j <= |s| ==> s[j..] == s[1..][j - 1..];
      match tail
      case None => None
      case Some(k) => Some(k + 1)
  }

  /** `str::contains` for a string pattern. */
  predicate Contains(s: string, pat: string) {
    Find(s, pat).Some?
  }

  /** A text without the first character of a pattern does not contain it. */
  lemma NotContainsWithoutHead(s: string, pat: string)
    requires |pat| > 0 && pat[0] !in s
    ensures !Contains(s, pat)
  {
    forall j | 0 <= j <= |s| ensures !IsPrefix(pat, s[j..]) {
      if j < |s| {
        assert s[j..][0] == s[j];
      }
    }
  }

  /** After a text free of `pat`, an occurrence of `pat` is the first one,
      provided no later character of `pat` equals its first (so that no
      occurrence can straddle the boundary). */
  lemma FindAfterFreePrefix(p: string, pat: string, rest: string)
    requires |pat| > 0 && forall k :: 0 < k < |pat| ==> pat[k] != pat[0]
    requires !Contains(p, pat)
    ensures Find(p + pat + rest, pat) == Some(|p|)
  {
    var s := p + pat + rest;
    assert s[|p|..][..|pat|] == pat;
    forall j | 0 <= j < |p| ensures !IsPrefix(pat, s[j..]) {
      if j + |pat| <= |p| {
        assert s[j..][..|pat|] == p[j..][..|pat|];
        assert !IsPrefix(pat, p[j..]);
      } else {
        var k := |p| - j;
        assert s[j..][k] == s[|p|] == pat[0] != pat[k];
      }
    }
  }

  /** `str::strip_prefix`. */
  function StripPrefix(s: string, pat: string): (r: Option<string>)
    ensures r.Some? <==> IsPrefix(pat, s)
    ensures r.Some? ==> s == pat + r.value
  {
    if IsPrefix(pat, s) then Some(s[|pat|..]) else None
  }

  /** `str::split_once` at a character: the text before and after its first
      occurrence. */
  function SplitOnce(s: string, sep: char): (r: Option<(string, string)>)
    ensures r.None? <==> sep !in s
    ensures r.Some? ==> s == r.value.0 + [sep] + r.value.1 && sep !in r.value.0
    decreases |s|
  {
    if s == [] then None
    else if s[0] == sep then Some(([], s[1..]))
    else
      var tail := SplitOnce(s[1..], sep);
      assert s == [s[0]] + s[1..];
      match tail
      case None => None
      case Some((a, b)) => Some(([s[0]] + a, b))
  }

  /** The split is determined by the first separator: whatever follows it,
      separators included, stays in the second part. */
  lemma {:induction false} SplitOnceAt(a: string, sep: char, b: string)
    requires sep !in a
    ensures SplitOnce(a + [sep] + b, sep) == Some((a, b))
  {
    if a == [] {
      assert a + [sep] + b == [sep] + b;
    } else {
      var s := a + [sep] + b;
      assert s[0] == a[0] && s[1..] == a[1..] + [sep] + b;
      SplitOnceAt(a[1..], sep, b);
      assert a == [a[0]] + a[1..];
    }
  }

  /** `str::trim_start`. */
  function TrimStart(s: string): (r: string)
    ensures |r| <= |s| && forall i :: 0 <= i < |r| ==> r[i] == s[|s| - |r| + i]
    ensures r == [] || !IsWhitespace(r[0])
    ensures forall i :: 0 <= i < |s| - |r| ==> IsWhitespace(s[i])
    decreases |s|
  {
    if s != [] && IsWhitespace(s[0]) then TrimStart(s[1..]) else s
  }

  /** `str::trim_end`. */
  function TrimEnd(s: string): (r: string)
    ensures |r| <= |s| && forall i :: 0 <= i < |r| ==> r[i] == s[i]
    ensures r == [] || !IsWhitespace(r[|r| - 1])
    ensures forall i :: |r| <= i < |s| ==> IsWhitespace(s[i])
    decreases |s|
  {
    if s != [] && IsWhitespace(s[|s| - 1]) then TrimEnd(s[..|s| - 1]) else s
  }

  /** No whitespace at either end. */
  predicate Trimmed(s: string) {
    s == [] || (!IsWhitespace(s[0]) && !IsWhitespace(s[|s| - 1]))
  }

  /** `str::trim`: the text with its leading and trailing whitespace removed;
      what is removed is whitespace only. */
  function Trim(s: string): (r: string)
    ensures Trimmed(r)
    ensures |r| <= |s|
  {
    var t := TrimStart(s);
    var r := TrimEnd(t);
    assert r != [] ==> r[0] == t[0];
    r
  }

  lemma {:induction false} TrimStartPadded(a: string, t: string)
    requires forall i :: 0 <= i < |a| ==> IsWhitespace(a[i])
    requires t == [] || !IsWhitespace(t[0])
    ensures TrimStart(a + t) == t
  {
    if a == [] {
      assert a + t == t;
    } else {
      assert (a + t)[0] == a[0] && (a + t)[1..] == a[1..] + t;
      TrimStartPadded(a[1..], t);
    }
  }

  lemma {:induction false} TrimEndPadded(t: string, b: string)
    requires forall i :: 0 <= i < |b| ==> IsWhitespace(b[i])
    requires t == [] || !IsWhitespace(t[|t| - 1])
    ensures TrimEnd(t + b) == t
  {
    if b == [] {
      assert t + b == t;
    } else {
      var s := t + b;
      assert s[|s| - 1] == b[|b| - 1] && s[..|s| - 1] == t + b[..|b| - 1];
      TrimEndPadded(t, b[..|b| - 1]);
    }
  }

  /** Trimming removes exactly the whitespace around a trimmed text. */
  lemma TrimPadded(a: string, t: string, b: string)
    requires forall i :: 0 <= i < |a| ==> IsWhitespace(a[i])
    requires forall i :: 0 <= i < |b| ==> IsWhitespace(b[i])
    requires Trimmed(t)
    ensures Trim(a + t + b) == t
  {
    if t == [] {
      assert a + t + b == (a + b) + [];
      TrimStartPadded(a + b, []);
    } else {
      var s := a + t + b;
      assert s == a + (t + b);
      assert TrimStart(s) == t + b by {
        assert (t + b)[0] == t[0];
        TrimStartPadded(a, t + b);
      }
      assert TrimEnd(t + b) == t by {
        TrimEndPadded(t, b);
      }
    }
  }

  lemma TrimOfTrimmed(s: string)
    requires Trimmed(s)
    ensures Trim(s) == s
  {
  }

  /** Trimming twice is trimming once. */
  lemma TrimIdempotent(s: string)
    ensures Trim(Trim(s)) == Trim(s)
  {
    TrimOfTrimmed(Trim(s));
  }

  /** `str::trim_end_matches` with a character pattern. */
  function TrimEndMatches(s: string, c: char): (r: string)
    ensures |r| <= |s| && forall i :: 0 <= i < |r| ==> r[i] == s[i]
    ensures r == [] || r[|r| - 1] != c
    ensures forall i :: |r| <= i < |s| ==> s[i] == c
    decreases |s|
  {
    if s != [] && s[|s| - 1] == c then TrimEndMatches(s[..|s| - 1], c) else s
  }

  /** `str::trim_start_matches` with a string pattern: every leading
      repetition of `pat` is removed. */
  function TrimStartMatches(s: string, pat: string): (r: string)
    ensures |r| <= |s| && forall i :: 0 <= i < |r| ==> r[i] == s[|s| - |r| + i]
    ensures |pat| > 0 ==> !IsPrefix(pat, r)
    decreases |s|
  {
    if |pat| > 0 && IsPrefix(pat, s) then TrimStartMatches(s[|pat|..], pat) else s
  }

  /** `s.replace(pat, "")`: occurrences are found left to right without
      overlapping and removed; the text is not rescanned after a removal. */
  function RemoveAll(s: string, pat: string): (r: string)
    requires |pat| > 0
    ensures |r| <= |s|
    decreases |s|
  {
    if s == [] then []
    else if IsPrefix(pat, s) then RemoveAll(s[|pat|..], pat)
    else [s[0]] + RemoveAll(s[1..], pat)
  }

  /** Nothing is removed from a text that lacks the pattern's first character. */
  lemma {:induction false} RemoveAllWithoutHead(s: string, pat: string)
    requires |pat| > 0 && pat[0] !in s
    ensures RemoveAll(s, pat) == s
  {
    if s != [] {
      assert s[0] != pat[0];
      RemoveAllWithoutHead(s[1..], pat);
      assert [s[0]] + s[1..] == s;
    }
  }


  /** A pattern at the head of the text is removed. */
  lemma RemoveAllAtHead(pat: string, b: string)
    requires |pat| > 0
    ensures RemoveAll(pat + b, pat) == RemoveAll(b, pat)
  {
    assert (pat + b)[..|pat|] == pat;
    assert (pat + b)[|pat|..] == b;
  }

  /** A part without the pattern's first character is kept as it is. */
  lemma {:induction false} RemoveAllAfterFree(a: string, b: string, pat: string)
    requires |pat| > 0 && pat[0] !in a
    ensures RemoveAll(a + b, pat) == a + RemoveAll(b, pat)
    decreases |a|
  {
    if a != [] {
      assert (a + b)[0] == a[0] && (a + b)[1..] == a[1..] + b;
      RemoveAllAfterFree(a[1..], b, pat);
      assert a == [a[0]] + a[1..];
    } else {
      assert a + b == b;
    }
  }

  /** The first occurrence of the pattern is removed, the text before it is
      kept and the search goes on after it. */
  lemma RemoveAllAt(a: string, pat: string, b: string)
    requires |pat| > 0 && pat[0] !in a
    ensures RemoveAll(a + pat + b, pat) == a + RemoveAll(b, pat)
  {
    assert a + pat + b == a + (pat + b);
    RemoveAllAfterFree(a, pat + b, pat);
    RemoveAllAtHead(pat, b);
  }

  /** A piece that differs from the pattern within both their lengths, and
      holds the pattern's first character only at its head, is kept. */
  lemma RemoveAllPastMismatch(t: string, rest: string, pat: string, k: nat)
    requires |pat| > 0 && k < |t| && k < |pat| && t[k] != pat[k] && pat[0] !in t[1..]
    ensures RemoveAll(t + rest, pat) == t + RemoveAll(rest, pat)
  {
    var s := t + rest;
    assert s[k] == t[k];
    assert !IsPrefix(pat, s) by {
      if |pat| <= |s| {
        assert s[..|pat|][k] == s[k];
      }
    }
    assert s[1..] == t[1..] + rest;
    RemoveAllAfterFree(t[1..], rest, pat);
    assert t == [t[0]] + t[1..];
  }

  /** `k` copies of a pattern, one after another. */
  function Repeated(pat: string, k: nat): string {
    if k == 0 then [] else pat + Repeated(pat, k - 1)
  }

  /** What `trim_start_matches` drops is a whole number of copies of the
      pattern; the number is returned. */
  lemma {:induction false} TrimStartMatchesCount(s: string, pat: string) returns (k: nat)
    ensures s == Repeated(pat, k) + TrimStartMatches(s, pat)
    decreases |s|
  {
    if |pat| > 0 && IsPrefix(pat, s) {
      var tail := s[|pat|..];
      var k' := TrimStartMatchesCount(tail, pat);
      k := k' + 1;
      RegroupCopy(s, pat, tail, Repeated(pat, k'), TrimStartMatches(tail, pat));
    } else {
      k := 0;
      assert [] + s == s;
    }
  }

  lemma RegroupCopy(s: string, pat: string, tail: string, copies: string, r: string)
    requires |pat| <= |s| && s[..|pat|] == pat && tail == s[|pat|..] && tail == copies + r
    ensures s == (pat + copies) + r
  {
    assert s == s[..|pat|] + s[|pat|..];
  }

  /** The text is copies of the pattern followed by what `trim_start_matches`
      leaves, which does not start with the pattern. */
  lemma TrimStartMatchesDropsCopies(s: string, pat: string)
    ensures exists k :: s == Repeated(pat, k) + TrimStartMatches(s, pat)
  {
    var k := TrimStartMatchesCount(s, pat);
  }

  /** The longest prefix without whitespace. */
  function TakeWord(s: string): (r: string)
    ensures |r| <= |s| && forall i :: 0 <= i < |r| ==> r[i] == s[i]
    ensures forall i :: 0 <= i < |r| ==> !IsWhitespace(r[i])
    ensures |r| == |s| || IsWhitespace(s[|r|])
    ensures s != [] && !IsWhitespace(s[0]) ==> |r| > 0
    decreases |s|
  {
    if s == [] || IsWhitespace(s[0]) then [] else [s[0]] + TakeWord(s[1..])
  }

  /** What `split_whitespace` yields: a non-empty run without whitespace. */
  predicate IsToken(t: string) {
    |t| > 0 && forall i :: 0 <= i < |t| ==> !IsWhitespace(t[i])
  }

  predicate AllTokens(ts: seq<string>) {
    forall k :: 0 <= k < |ts| ==> IsToken(ts[k])
  }

  lemma AllTokensConcat(a: seq<string>, b: seq<string>)
    requires AllTokens(a) && AllTokens(b)
    ensures AllTokens(a + b)
  {
    assert forall k :: |a| <= k < |a + b| ==> (a + b)[k] == b[k - |a|];
  }

  /** `str::split_whitespace`: the maximal whitespace-free runs, in order;
      each is a token. */
  function SplitWhitespace(s: string): (r: seq<string>)
    ensures AllTokens(r)
    decreases |s|, 1
  {
    Words(TrimStart(s))
  }

  /** The runs of a text that does not start with whitespace. */
  function Words(t: string): (r: seq<string>)
    requires t == [] || !IsWhitespace(t[0])
    ensures AllTokens(r)
    decreases |t|, 0
  {
    if t == [] then []
    else
      var w := TakeWord(t);
      var rest := SplitWhitespace(t[|w|..]);
      AllTokensConcat([w], rest);
      [w] + rest
  }

  /** `[String]::join`: the pieces in order with the separator between
      them; no pieces give the empty text and a single piece is itself. */
  function Join(ts: seq<string>, sep: string): (r: string)
    ensures ts == [] ==> r == []
    ensures |ts| == 1 ==> r == ts[0]
  {
    if ts == [] then []
    else if |ts| == 1 then ts[0]
    else ts[0] + sep + Join(ts[1..], sep)
  }

  lemma {:induction false} JoinStartsWithToken(ts: seq<string>)
    requires AllTokens(ts)
    ensures Join(ts, " ") == [] || !IsWhitespace(Join(ts, " ")[0])
  {
    if |ts| > 1 {
      assert Join(ts, " ")[0] == ts[0][0];
    }
  }

  lemma {:induction false} TakeWordOfToken(w: string, rest: string)
    requires IsToken(w)
    requires rest == [] || IsWhitespace(rest[0])
    ensures TakeWord(w + rest) == w
  {
    var s := w + rest;
    assert s[0] == w[0] && s[1..] == w[1..] + rest;
    if |w| > 1 {
      TakeWordOfToken(w[1..], rest);
      assert [w[0]] + w[1..] == w;
    } else {
      assert s[1..] == rest;
    }
  }

  lemma SplitWhitespaceCons(w: string, rest: string)
    requires IsToken(w)
    requires rest == [] || IsWhitespace(rest[0])
    ensures SplitWhitespace(w + rest) == [w] + SplitWhitespace(rest)
  {
    var s := w + rest;
    assert s[0] == w[0];
    assert TrimStart(s) == s;
    TakeWordOfToken(w, rest);
    assert s[|w|..] == rest;
  }

  lemma SplitWhitespaceSkipSpace(x: string)
    ensures SplitWhitespace(" " + x) == SplitWhitespace(x)
  {
    assert (" " + x)[1..] == x;
    assert TrimStart(" " + x) == TrimStart(x);
  }

  lemma JoinCons(ts: seq<string>)
    requires |ts| > 1
    ensures Join(ts, " ") == ts[0] + (" " + Join(ts[1..], " "))
  {
  }

  lemma SplitToken(w: string)
    requires IsToken(w)
    ensures SplitWhitespace(w) == [w]
  {
    SplitWhitespaceCons(w, []);
    assert w + [] == w;
    assert TrimStart([]) == [];
  }

  lemma SplitJoinStep(w: string, j: string, tail: seq<string>)
    requires IsToken(w) && SplitWhitespace(j) == tail
    ensures SplitWhitespace(w + (" " + j)) == [w] + tail
  {
    SplitWhitespaceCons(w, " " + j);
    SplitWhitespaceSkipSpace(j);
  }

  /** Splitting the space-joined tokens gives the tokens back. */
  lemma {:induction false} SplitJoin(ts: seq<string>)
    requires AllTokens(ts)
    ensures SplitWhitespace(Join(ts, " ")) == ts
  {
    if ts == [] {
      assert TrimStart([]) == [];
    } else if |ts| == 1 {
      assert IsToken(ts[0]);
      SplitToken(ts[0]);
    } else {
      var tail := ts[1..];
      assert AllTokens(tail) by {
        assert forall k :: 0 <= k < |tail| ==> tail[k] == ts[k + 1];
      }
      SplitJoin(tail);
      assert IsToken(ts[0]);
      JoinCons(ts);
      SplitJoinStep(ts[0], Join(tail, " "), tail);
      assert ts == [ts[0]] + tail;
    }
  }

  /** A line ending in "\r\n" loses its "\r" as well. */
  function StripCr(l: string): string {
    if |l| > 0 && l[|l| - 1] == '\r' then l[..|l| - 1] else l
  }

  /** The index of the first '\n', or the length when there is none. */
  function LineEnd(s: string): (n: nat)
    ensures n <= |s| && '\n' !in s[..n]
    ensures n < |s| ==> s[n] == '\n'
    decreases |s|
  {
    if s == [] || s[0] == '\n' then 0
    else
      var k := LineEnd(s[1..]);
      assert s[..k + 1] == [s[0]] + s[1..][..k];
      k + 1
  }

  /** `str::lines`: the text split at '\n', with a final empty line dropped. */
  function Lines(s: string): (r: seq<string>)
    ensures forall k :: 0 <= k < |r| ==> '\n' !in r[k]
    ensures |r| <= |s|
    decreases |s|
  {
    if s == [] then []
    else
      var n := LineEnd(s);
      if n == |s| then [s]
      else [StripCr(s[..n])] + Lines(s[n + 1..])
  }

  lemma LineEndAt(a: string, rest: string)
    requires '\n' !in a
    ensures LineEnd(a + "\n" + rest) == |a|
  {
    var s := a + "\n" + rest;
    assert s[|a|] == '\n';
    assert s[..|a|] == a;
  }

  /** A last line without a line feed is one line. */
  lemma LinesOfLast(a: string)
    requires '\n' !in a && a != []
    ensures Lines(a) == [a]
  {
  }

  /** A line ended by "\n" is a line of its own. */
  lemma LinesOfLf(a: string, rest: string)
    requires '\n' !in a && (a == [] || a[|a| - 1] != '\r')
    ensures Lines(a + "\n" + rest) == [a] + Lines(rest)
  {
    var s := a + "\n" + rest;
    LineEndAt(a, rest);
    assert s[..|a|] == a && s[|a| + 1..] == rest;
  }

  /** A line ended by "\r\n" is a line of its own, without the "\r". */
  lemma LinesOfCrLf(a: string, rest: string)
    requires '\n' !in a
    ensures Lines(a + "\r\n" + rest) == [a] + Lines(rest)
  {
    var ar := a + "\r";
    var s := a + "\r\n" + rest;
    assert s == ar + "\n" + rest;
    LineEndAt(ar, rest);
    assert s[..|ar|] == ar && s[|ar| + 1..] == rest;
    assert ar[..|a|] == a;
  }

  lemma JoinAfterLine(x: string, ls: seq<string>)
    requires ls != []
    ensures Join([x] + ls, "\n") == x + "\n" + Join(ls, "\n")
  {
    assert ([x] + ls)[1..] == ls;
  }

  lemma GlueLine(s: string, x: string, rest: string, j: string)
    requires s == x + "\n" + rest && rest != []
    requires rest[|rest| - 1] == '\n' ==> j + "\n" == rest
    requires rest[|rest| - 1] != '\n' ==> j == rest
    ensures s[|s| - 1] == '\n' ==> x + "\n" + j + "\n" == s
    ensures s[|s| - 1] != '\n' ==> x + "\n" + j == s
  {
    assert s[|s| - 1] == rest[|rest| - 1];
  }

  /** Without carriage returns, the lines joined by line feeds give back the
      text, up to a final line feed. */
  lemma {:induction false} LinesJoin(s: string)
    requires '\r' !in s
    ensures s != [] && s[|s| - 1] == '\n' ==> Join(Lines(s), "\n") + "\n" == s
    ensures (s == [] || s[|s| - 1] != '\n') ==> Join(Lines(s), "\n") == s
    decreases |s|
  {
    if s != [] {
      var n := LineEnd(s);
      if n == |s| {
        assert s[|s| - 1] in s[..n];
        LinesOfLast(s);
      } else {
        var x := s[..n];
        var rest := s[n + 1..];
        assert s == x + "\n" + rest;
        assert '\r' !in x && '\r' !in rest;
        assert x == [] || x[|x| - 1] != '\r' by {
          if x != [] { assert x[|x| - 1] in x; }
        }
        LinesOfLf(x, rest);
        if rest != [] {
          LinesJoin(rest);
          var ls := Lines(rest);
          assert ls != [];
          JoinAfterLine(x, ls);
          GlueLine(s, x, rest, Join(ls, "\n"));
        }
      }
    }
  }

  function LowerChar(c: char): char {
    if 'A' <= c <= 'Z' then (c as int + 32) as char else c
  }

  /** `str::to_lowercase`, on ASCII letters. */
  function ToLower(s: string): (r: string)
    ensures |r| == |s|
    ensures forall i :: 0 <= i < |s| ==> r[i] == LowerChar(s[i])
  {
    seq(|s|, i requires 0 <= i < |s| => LowerChar(s[i]))
  }
}
