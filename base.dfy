/**
 * Helpers shared by the crawler models: an Option type for values the
 * Python code represents with `None` or a missing dictionary key, and the
 * handful of Python string and sequence operations the crawlers rely on
 * (substring test, strip, split, int(), slicing with negative indices,
 * decimal rendering, code-point ordering of strings).
 */
module Base {

  datatype Option<T> = None | Some(value: T)

  // ---------------------------------------------------------------- strings

  /** Python `s.startswith(p)`. */
  predicate StartsWith(s: string, p: string) {
    p <= s
  }

  /** Python `s.endswith(p)`. */
  predicate EndsWith(s: string, p: string) {
    |p| <= |s| && s[|s| - |p|..] == p
  }

  /** Python `needle in hay` on strings: needle occurs as a contiguous run. */
  predicate Contains(hay: string, needle: string)
    decreases |hay|
  {
    needle <= hay || (|hay| > 0 && Contains(hay[1..], needle))
  }

  /** Python `any(w in hay for w in words)`. */
  predicate ContainsAny(hay: string, words: seq<string>) {
    exists i :: 0 <= i < |words| && Contains(hay, words[i])
  }

  /** The characters Python's `str.isspace()` and the regex class `\s` accept. */
  predicate IsSpace(c: char) {
    c == ' ' || ('\t' <= c <= '\r') || ('\U{1c}' <= c <= '\U{1f}')
    || c == '\U{85}' || c == '\U{a0}' || c == '\U{1680}'
    || ('\U{2000}' <= c <= '\U{200a}') || c == '\U{2028}' || c == '\U{2029}'
    || c == '\U{202f}' || c == '\U{205f}' || c == '\U{3000}'
  }

  /** Python `s.lstrip()`: drops leading whitespace (see StripLeftSpec). */
  function StripLeft(s: string): (r: string)
    ensures |r| <= |s|
  {
    if |s| > 0 && IsSpace(s[0]) then StripLeft(s[1..]) else s
  }

  /** Python `s.rstrip()`: drops trailing whitespace (see StripRightSpec). */
  function StripRight(s: string): (r: string)
    ensures |r| <= |s|
  {
    if |s| > 0 && IsSpace(s[|s| - 1]) then StripRight(s[..|s| - 1]) else s
  }

  /** Python `s.strip()`: drops leading and trailing whitespace. */
  function Strip(s: string): string {
    StripRight(StripLeft(s))
  }

  /** Python `s.split(sep)` for a non-empty separator. */
  function Split(s: string, sep: string): (parts: seq<string>)
    requires |sep| > 0
    ensures |parts| >= 1
    decreases |s|
  {
    if |s| < |sep| then [s]
    else if sep <= s then [[]] + Split(s[|sep|..], sep)
    else
      var rest := Split(s[1..], sep);
      [[s[0]] + rest[0]] + rest[1..]
  }

  /** Python `s.replace(c, rep)` for a one-character pattern. */
  function ReplaceChar(s: string, c: char, rep: string): (r: string)
  {
    if s == [] then []
    else (if s[0] == c then rep else [s[0]]) + ReplaceChar(s[1..], c, rep)
  }

  /**
   * How many entries of `words` occur in `text`: each entry counts once
   * however often it occurs, and an entry listed twice counts twice.
   */
  function CountPresent(text: string, words: seq<string>): (k: nat)
    ensures k <= |words|
  {
    if words == [] then 0
    else CountPresent(text, words[..|words| - 1]) + (if Contains(text, words[|words| - 1]) then 1 else 0)
  }

  // ---------------------------------------------------------------- numbers

  predicate IsDigit(c: char) {
    '0' <= c <= '9'
  }

  predicate AllDigits(s: string) {
    forall i :: 0 <= i < |s| ==> IsDigit(s[i])
  }

  /** Value of a run of decimal digits, most significant first. */
  function DigitsValue(d: string): nat
    requires AllDigits(d)
  {
    if d == [] then 0
    else DigitsValue(d[..|d| - 1]) * 10 + (d[|d| - 1] as int - '0' as int)
  }

  /** Decimal digits of a natural number, without leading zeros. */
  function NatToString(n: nat): (r: string)
    ensures |r| >= 1 && AllDigits(r)
  {
    if n < 10 then [('0' as int + n) as char]
    else NatToString(n / 10) + [('0' as int + n % 10) as char]
  }

  /** Python `str(n)` for an integer. */
  function IntToString(n: int): string {
    if n < 0 then "-" + NatToString(-n) else NatToString(n)
  }

  /**
   * Python `int(s)` on a string: surrounding whitespace, an optional sign
   * and at least one ASCII digit; anything else raises ValueError (None).
   */
  function ParseInt(s: string): (r: Option<int>)
  {
    var t := Strip(s);
    var neg := |t| > 0 && t[0] == '-';
    var digits := if |t| > 0 && (t[0] == '+' || t[0] == '-') then t[1..] else t;
    if |digits| > 0 && AllDigits(digits) then
      var v: int := DigitsValue(digits);
      Some(if neg then -v else v)
    else None
  }

  // ---------------------------------------------------------------- slices

  /** How Python normalises one slice bound against a sequence of length n. */
  function SliceBound(i: int, n: nat): (b: nat)
    ensures b <= n
  {
    if i < 0 then (if i + n < 0 then 0 else i + n)
    else if i > n then n
    else i
  }

  /** Python `s[i:j]`, negative bounds counting from the end. */
  function PySlice<T>(s: seq<T>, i: int, j: int): seq<T> {
    var a, b := SliceBound(i, |s|), SliceBound(j, |s|);
    if a < b then s[a..b] else []
  }

  /** The first n elements of s, or all of s when it is shorter (Python `s[:n]` for n >= 0). */
  function Take<T>(s: seq<T>, n: nat): (r: seq<T>)
    ensures |r| <= n && r <= s
    ensures |s| <= n ==> r == s
  {
    if |s| <= n then s else s[..n]
  }

  // ---------------------------------------------------------------- ordering

  /** Python's `<=` on str: code-point lexicographic order. */
  predicate LexLe(a: string, b: string)
    decreases |a|
  {
    a == [] || (|b| > 0 && (a[0] < b[0] || (a[0] == b[0] && LexLe(a[1..], b[1..]))))
  }

  lemma {:induction false} LexLeTotal(a: string, b: string)
    ensures LexLe(a, b) || LexLe(b, a)
    decreases |a|
  {
    if a != [] && b != [] && a[0] == b[0] {
      LexLeTotal(a[1..], b[1..]);
    }
  }

  lemma {:induction false} LexLeTrans(a: string, b: string, c: string)
    requires LexLe(a, b) && LexLe(b, c)
    ensures LexLe(a, c)
    decreases |a|
  {
    if a != [] && a[0] == b[0] && b[0] == c[0] {
      LexLeTrans(a[1..], b[1..], c[1..]);
    }
  }

  predicate SortedLex(s: seq<string>) {
    forall i, j :: 0 <= i < j < |s| ==> LexLe(s[i], s[j])
  }

  // ---------------------------------------------------------------- regex substitutions

  /** Python `re.sub(r'\s+', sep, s)`: every maximal whitespace run becomes sep. */
  function CollapseSpace(s: string, sep: string): string
    decreases |s|
  {
    if s == [] then []
    else if IsSpace(s[0]) then sep + CollapseSpace(StripLeft(s), sep)
    else [s[0]] + CollapseSpace(s[1..], sep)
  }

  /** The non-whitespace characters of s, in order. */
  function NonSpace(s: string): string
    decreases |s|
  {
    if s == [] then [] else (if IsSpace(s[0]) then [] else [s[0]]) + NonSpace(s[1..])
  }

  /** Every maximal whitespace run of s is exactly sep. */
  predicate SpaceRunsAre(s: string, sep: string)
    requires |sep| > 0
    decreases |s|
  {
    if s == [] then true
    else if IsSpace(s[0]) then sep <= s && (|s| == |sep| || !IsSpace(s[|sep|])) && SpaceRunsAre(s[|sep|..], sep)
    else SpaceRunsAre(s[1..], sep)
  }

  /** A non-empty text without whitespace, such as a site marker. */
  predicate Solid(p: string) {
    |p| > 0 && forall i :: 0 <= i < |p| ==> !IsSpace(p[i])
  }

  /** Length of the first of `literals` that starts s, 0 when none does. */
  function LiteralMatch(s: string, literals: seq<string>): (n: nat)
    ensures n <= |s|
  {
    if literals == [] then 0
    else if |literals[0]| > 0 && literals[0] <= s then |literals[0]|
    else LiteralMatch(s, literals[1..])
  }

  /** Length of the leading run of non-whitespace characters. */
  function NonSpaceRun(s: string): (n: nat)
    ensures n <= |s|
  {
    if s == [] || IsSpace(s[0]) then 0 else 1 + NonSpaceRun(s[1..])
  }

  /**
   * Length of the match of the alternation `(lit1|lit2|...|prefix\S+)` at
   * the start of s (alternatives tried in order, `\S+` greedy), 0 when none
   * matches.
   */
  function MarkerMatch(s: string, literals: seq<string>, urlPrefix: string): (n: nat)
    ensures n <= |s|
  {
    var lit := LiteralMatch(s, literals);
    if lit > 0 then lit
    else if urlPrefix <= s && NonSpaceRun(s[|urlPrefix|..]) > 0 then |urlPrefix| + NonSpaceRun(s[|urlPrefix|..])
    else 0
  }

  /** Python `re.sub(r'(lit1|...|prefix\S+)', '', s)`: one left-to-right pass deleting matches. */
  function RemoveMarkers(s: string, literals: seq<string>, urlPrefix: string): string
    decreases |s|
  {
    if s == [] then []
    else
      var n := MarkerMatch(s, literals, urlPrefix);
      if n > 0 then RemoveMarkers(s[n..], literals, urlPrefix)
      else [s[0]] + RemoveMarkers(s[1..], literals, urlPrefix)
  }

  /** Python `s.replace(p, '')` for a non-empty pattern: one left-to-right pass. */
  function RemoveAll(s: string, p: string): string
    requires |p| > 0
    decreases |s|
  {
    if |s| < |p| then s
    else if p <= s then RemoveAll(s[|p|..], p)
    else [s[0]] + RemoveAll(s[1..], p)
  }

  // ---------------------------------------------------------------- filtering loops

  /** `f` applied to every element, in order. */
  function Map<T, U>(xs: seq<T>, f: T -> U): (ys: seq<U>)
    ensures |ys| == |xs| && forall i :: 0 <= i < |xs| ==> ys[i] == f(xs[i])
  {
    if xs == [] then [] else Map(xs[..|xs| - 1], f) + [f(xs[|xs| - 1])]
  }

  /** Python's `enumerate(xs)`: each element paired with its position. */
  function Enumerate<T>(xs: seq<T>): (ps: seq<(nat, T)>)
    ensures |ps| == |xs| && forall i :: 0 <= i < |xs| ==> ps[i] == (i, xs[i])
  {
    seq(|xs|, i requires 0 <= i < |xs| => (i as nat, xs[i]))
  }

  /**
   * The list a loop `for x in xs: y = f(x); if y is not None: out.append(y)`
   * builds: the defined results, in order.
   */
  function FilterMap<T, U>(xs: seq<T>, f: T -> Option<U>): seq<U> {
    if xs == [] then []
    else
      var n := |xs| - 1;
      FilterMap(xs[..n], f) + (if f(xs[n]).Some? then [f(xs[n]).value] else [])
  }

  // ---------------------------------------------------------------- retries and selectors

  /** What one HTTP attempt gave: a response with its status code and body, or an exception. */
  datatype Reply = Reply(status: int, body: string) | Raised

  predicate IsOk(r: Reply) {
    r.Reply? && r.status == 200
  }

  /** The first attempt in [from, retry) answered with status 200, if any. */
  function FirstOk(replies: nat -> Reply, from: nat, retry: int): (r: Option<nat>)
    ensures r.Some? ==> IsOk(replies(r.value))
    decreases retry - from
  {
    if from >= retry then None
    else if IsOk(replies(from)) then Some(from)
    else FirstOk(replies, from + 1, retry)
  }

  /**
   * The text of the first selector, in order, that finds an element on the
   * page ("" when none does); `lookup(sel)` is what `select_one(sel)` found.
   */
  function FirstFound(selectors: seq<string>, lookup: string -> Option<string>): string {
    if selectors == [] then ""
    else if lookup(selectors[0]).Some? then lookup(selectors[0]).value
    else FirstFound(selectors[1..], lookup)
  }

  /** The loop `for selector in selectors: elem = select_one(selector); if elem: text = ...; break`. */
  method SelectFirst(selectors: seq<string>, lookup: string -> Option<string>) returns (text: string)
    ensures text == FirstFound(selectors, lookup)
  {
    text := "";
    var i := 0;
    while i < |selectors|
      invariant 0 <= i <= |selectors|
      invariant FirstFound(selectors[i..], lookup) == FirstFound(selectors, lookup)
    {
      assert selectors[i..][1..] == selectors[i + 1..];
      var found := lookup(selectors[i]);
      if found.Some? {
        text := found.value;
        break;
      }
      i := i + 1;
    }
  }

  // ---------------------------------------------------------------- lemmas

  /** Reading back the decimal digits of n gives n. */
  lemma {:induction false} NatToStringValue(n: nat)
    ensures DigitsValue(NatToString(n)) == n
  {
    if n >= 10 {
      NatToStringValue(n / 10);
      var d := NatToString(n / 10);
      var s := d + [('0' as int + n % 10) as char];
      assert s[..|s| - 1] == d;
    }
  }

  /** lstrip removes exactly the leading whitespace: what is left is a suffix starting otherwise. */
  lemma {:induction false} StripLeftSpec(s: string)
    ensures var r := StripLeft(s);
            && r == s[|s| - |r|..]
            && (r == [] || !IsSpace(r[0]))
            && forall i :: 0 <= i < |s| - |r| ==> IsSpace(s[i])
    decreases |s|
  {
    if |s| > 0 && IsSpace(s[0]) {
      StripLeftSpec(s[1..]);
    }
  }

  /** rstrip removes exactly the trailing whitespace: what is left is a prefix ending otherwise. */
  lemma {:induction false} StripRightSpec(s: string)
    ensures var r := StripRight(s);
            && r == s[..|r|]
            && (r == [] || !IsSpace(r[|r| - 1]))
            && forall i :: |r| <= i < |s| ==> IsSpace(s[i])
    decreases |s|
  {
    if |s| > 0 && IsSpace(s[|s| - 1]) {
      StripRightSpec(s[..|s| - 1]);
    }
  }

  /** strip leaves no whitespace at either end. */
  lemma StripSpec(s: string)
    ensures var r := Strip(s);
            r == [] || (!IsSpace(r[0]) && !IsSpace(r[|r| - 1]))
  {
    StripLeftSpec(s);
    var l := StripLeft(s);
    StripRightSpec(l);
    var r := StripRight(l);
    if r != [] {
      assert r[0] == l[0];
    }
  }

  lemma StripUnchanged(s: string)
    requires s == [] || (!IsSpace(s[0]) && !IsSpace(s[|s| - 1]))
    ensures Strip(s) == s
  {
  }

  /** A run of digits parses to its value. */
  lemma ParseDigits(d: string)
    requires |d| >= 1 && AllDigits(d)
    ensures ParseInt(d) == Some(DigitsValue(d))
  {
    StripUnchanged(d);
  }

  /** A minus sign followed by a run of digits parses to the negated value. */
  lemma ParseNegatedDigits(d: string, v: int)
    requires |d| >= 1 && AllDigits(d) && v == DigitsValue(d)
    ensures ParseInt("-" + d) == Some(-v)
  {
    var s := "-" + d;
    assert s[0] == '-' && !IsSpace(s[0]);
    assert s[|s| - 1] == d[|d| - 1] && IsDigit(d[|d| - 1]);
    StripUnchanged(s);
    var t := Strip(s);
    assert t[1..] == d;
    var w: int := DigitsValue(t[1..]);
    assert ParseInt(s) == Some(-w);
  }

  /** Python `int(str(n)) == n`: the parser reads back what decimal rendering writes. */
  lemma ParseIntRoundTrip(n: int)
    ensures ParseInt(IntToString(n)) == Some(n)
  {
    if n < 0 {
      NatToStringValue(-n);
      ParseNegatedDigits(NatToString(-n), -n);
    } else {
      NatToStringValue(n);
      ParseDigits(NatToString(n));
    }
  }

  /** A string without the separator character splits into itself alone. */
  lemma {:induction false} SplitNoSeparator(s: string, c: char)
    requires forall i :: 0 <= i < |s| ==> s[i] != c
    ensures Split(s, [c]) == [s]
    decreases |s|
  {
    if |s| >= 1 {
      assert s[0] != c;
      assert !([c] <= s);
      SplitNoSeparator(s[1..], c);
      assert [s[0]] + s[1..] == s;
    }
  }

  /** Splitting at the first separator: the part before it, then the split of the rest. */
  lemma {:induction false} SplitFirstSeparator(x: string, c: char, y: string)
    requires forall i :: 0 <= i < |x| ==> x[i] != c
    ensures Split(x + [c] + y, [c]) == [x] + Split(y, [c])
    decreases |x|
  {
    var s := x + [c] + y;
    if x == [] {
      assert [c] <= s;
      assert s[1..] == y;
    } else {
      assert s[0] == x[0] && x[0] != c;
      assert !([c] <= s);
      assert s[1..] == x[1..] + [c] + y;
      SplitFirstSeparator(x[1..], c, y);
      assert [s[0]] + x[1..] == x;
    }
  }

  /** After collapsing with a separator that is itself whitespace, collapsing again changes nothing. */
  lemma {:induction false} CollapseSpaceIdempotent(s: string, sep: string)
    requires |sep| > 0 && forall i :: 0 <= i < |sep| ==> IsSpace(sep[i])
    ensures CollapseSpace(CollapseSpace(s, sep), sep) == CollapseSpace(s, sep)
    decreases |s|
  {
    if s == [] {
    } else if IsSpace(s[0]) {
      var rest := StripLeft(s);
      StripLeftSpec(s);
      var x := CollapseSpace(rest, sep);
      CollapseSpaceIdempotent(rest, sep);
      CollapseStartsLikeInput(rest, sep);
      StripLeftSpaces(sep, x);
      assert CollapseSpace(sep + x, sep) == sep + CollapseSpace(x, sep);
    } else {
      CollapseSpaceIdempotent(s[1..], sep);
      var t := [s[0]] + CollapseSpace(s[1..], sep);
      assert t[1..] == CollapseSpace(s[1..], sep);
    }
  }

  // A collapsed text starts with non-whitespace exactly when the input does.
  lemma CollapseStartsLikeInput(s: string, sep: string)
    requires s == [] || !IsSpace(s[0])
    ensures CollapseSpace(s, sep) == [] || !IsSpace(CollapseSpace(s, sep)[0])
  {
  }

  // Stripping a run of whitespace in front of a text that starts otherwise leaves the text.
  lemma {:induction false} StripLeftSpaces(w: string, x: string)
    requires forall i :: 0 <= i < |w| ==> IsSpace(w[i])
    requires x == [] || !IsSpace(x[0])
    ensures StripLeft(w + x) == x
    decreases |w|
  {
    if w != [] {
      assert (w + x)[1..] == w[1..] + x;
      StripLeftSpaces(w[1..], x);
    } else {
      assert w + x == x;
    }
  }

  /** After collapsing, whitespace occurs only inside the separators: every other character is kept. */
  lemma {:induction false} CollapseSpaceKeepsText(s: string, sep: string)
    ensures forall i :: 0 <= i < |s| && !IsSpace(s[i]) ==> s[i] in CollapseSpace(s, sep)
    decreases |s|
  {
    if s != [] {
      if IsSpace(s[0]) {
        var rest := StripLeft(s);
        StripLeftSpec(s);
        CollapseSpaceKeepsText(rest, sep);
        forall i | 0 <= i < |s| && !IsSpace(s[i]) ensures s[i] in CollapseSpace(s, sep) {
          assert s[i] == rest[i - (|s| - |rest|)];
        }
      } else {
        CollapseSpaceKeepsText(s[1..], sep);
        forall i | 0 <= i < |s| && !IsSpace(s[i]) ensures s[i] in CollapseSpace(s, sep) {
          if i > 0 { assert s[i] == s[1..][i - 1]; }
        }
      }
    }
  }

  /** Collapsing with a whitespace separator keeps the non-whitespace characters, in order. */
  lemma {:induction false} CollapseSpaceKeepsOrder(s: string, sep: string)
    requires forall i :: 0 <= i < |sep| ==> IsSpace(sep[i])
    ensures NonSpace(CollapseSpace(s, sep)) == NonSpace(s)
    decreases |s|
  {
    if s != [] {
      if IsSpace(s[0]) {
        var rest := StripLeft(s);
        CollapseSpaceKeepsOrder(rest, sep);
        NonSpaceAppend(sep, CollapseSpace(rest, sep));
        NonSpaceOfSpaces(sep);
        NonSpaceStripLeft(s);
      } else {
        CollapseSpaceKeepsOrder(s[1..], sep);
        var c := CollapseSpace(s, sep);
        assert c[1..] == CollapseSpace(s[1..], sep);
      }
    }
  }

  lemma {:induction false} NonSpaceAppend(a: string, b: string)
    ensures NonSpace(a + b) == NonSpace(a) + NonSpace(b)
    decreases |a|
  {
    if a == [] {
      assert a + b == b;
    } else {
      assert (a + b)[1..] == a[1..] + b;
      NonSpaceAppend(a[1..], b);
    }
  }

  lemma {:induction false} NonSpaceOfSpaces(w: string)
    requires forall i :: 0 <= i < |w| ==> IsSpace(w[i])
    ensures NonSpace(w) == []
    decreases |w|
  {
    if w != [] {
      NonSpaceOfSpaces(w[1..]);
    }
  }

  lemma {:induction false} NonSpaceStripLeft(s: string)
    ensures NonSpace(StripLeft(s)) == NonSpace(s)
    decreases |s|
  {
    if |s| > 0 && IsSpace(s[0]) {
      NonSpaceStripLeft(s[1..]);
    }
  }

  /** strip drops whitespace only: the non-whitespace characters are kept, in order. */
  lemma NonSpaceStrip(s: string)
    ensures NonSpace(Strip(s)) == NonSpace(s)
  {
    NonSpaceStripLeft(s);
    NonSpaceStripRight(StripLeft(s));
  }

  lemma {:induction false} NonSpaceStripRight(s: string)
    ensures NonSpace(StripRight(s)) == NonSpace(s)
    decreases |s|
  {
    if |s| > 0 && IsSpace(s[|s| - 1]) {
      var d := s[..|s| - 1];
      var c := s[|s| - 1];
      NonSpaceStripRight(d);
      assert s == d + [c];
      NonSpaceAppend(d, [c]);
      assert NonSpace([c]) == [] + NonSpace([c][1..]);
      assert [c][1..] == [];
    }
  }

  /** Collapsing with a non-empty whitespace separator makes every whitespace run exactly the separator. */
  lemma {:induction false} CollapseSpaceRuns(s: string, sep: string)
    requires |sep| > 0 && forall i :: 0 <= i < |sep| ==> IsSpace(sep[i])
    ensures SpaceRunsAre(CollapseSpace(s, sep), sep)
    decreases |s|
  {
    if s != [] {
      var c := CollapseSpace(s, sep);
      if IsSpace(s[0]) {
        var rest := StripLeft(s);
        StripLeftSpec(s);
        CollapseSpaceRuns(rest, sep);
        CollapseStartsLikeInput(rest, sep);
        var x := CollapseSpace(rest, sep);
        assert c == sep + x;
        assert c[|sep|..] == x;
      } else {
        CollapseSpaceRuns(s[1..], sep);
        assert c[1..] == CollapseSpace(s[1..], sep);
      }
    }
  }

  // A text whose runs are sep keeps that shape when cut after a non-whitespace character.
  lemma {:induction false} SpaceRunsPrefix(u: string, v: string, sep: string)
    requires |sep| > 0 && forall i :: 0 <= i < |sep| ==> IsSpace(sep[i])
    requires u == [] || !IsSpace(u[|u| - 1])
    requires SpaceRunsAre(u + v, sep)
    ensures SpaceRunsAre(u, sep)
    decreases |u|
  {
    if u != [] {
      var s := u + v;
      if IsSpace(u[0]) {
        assert !IsSpace(s[|u| - 1]);
        assert forall i :: 0 <= i < |sep| ==> s[i] == sep[i];
        assert |sep| < |u|;
        assert s[|sep|..] == u[|sep|..] + v;
        SpaceRunsPrefix(u[|sep|..], v, sep);
      } else {
        assert s[1..] == u[1..] + v;
        SpaceRunsPrefix(u[1..], v, sep);
      }
    }
  }

  /** Stripping a text whose whitespace runs are all sep leaves runs that are all sep. */
  lemma SpaceRunsStrip(s: string, sep: string)
    requires |sep| > 0 && forall i :: 0 <= i < |sep| ==> IsSpace(sep[i])
    requires SpaceRunsAre(s, sep)
    ensures SpaceRunsAre(Strip(s), sep)
  {
    var l := StripLeft(s);
    if s != [] && IsSpace(s[0]) {
      StripLeftSpaces(sep, s[|sep|..]);
      assert sep + s[|sep|..] == s;
    }
    assert SpaceRunsAre(l, sep);
    StripRightSpec(l);
    var r := StripRight(l);
    assert l == r + l[|r|..];
    SpaceRunsPrefix(r, l[|r|..], sep);
  }

  // A collapsed text starts with whitespace exactly when the input does.
  lemma CollapseSpaceLeads(s: string, sep: string)
    requires |sep| > 0
    ensures s != [] ==> |CollapseSpace(s, sep)| > 0 && (IsSpace(CollapseSpace(s, sep)[0]) <==> IsSpace(s[0]) && IsSpace(sep[0]))
  {
  }

  // A solid text that starts the collapsed text already starts the input.
  lemma {:induction false} CollapsePrefix(s: string, sep: string, p: string)
    requires |sep| > 0 && forall i :: 0 <= i < |sep| ==> IsSpace(sep[i])
    requires Solid(p)
    ensures p <= CollapseSpace(s, sep) ==> p <= s
    decreases |s|
  {
    var c := CollapseSpace(s, sep);
    if p <= c {
      CollapseSpaceLeads(s, sep);
      assert p[0] == c[0];
      assert c[1..] == CollapseSpace(s[1..], sep);
      if |p| > 1 {
        assert p[1..] <= CollapseSpace(s[1..], sep);
        CollapsePrefix(s[1..], sep, p[1..]);
      }
    }
  }

  lemma {:induction false} ContainsSuffix(s: string, k: nat, p: string)
    requires k <= |s| && !Contains(s, p)
    ensures !Contains(s[k..], p)
    decreases k
  {
    if k > 0 {
      ContainsSuffix(s[1..], k - 1, p);
      assert s[1..][k - 1..] == s[k..];
    }
  }

  lemma {:induction false} SpacesThenAbsent(w: string, x: string, p: string)
    requires forall i :: 0 <= i < |w| ==> IsSpace(w[i])
    requires Solid(p) && !Contains(x, p)
    ensures !Contains(w + x, p)
    decreases |w|
  {
    if w == [] {
      assert w + x == x;
    } else {
      assert (w + x)[0] == w[0] && IsSpace(w[0]) && !IsSpace(p[0]);
      assert !(p <= w + x);
      assert (w + x)[1..] == w[1..] + x;
      SpacesThenAbsent(w[1..], x, p);
    }
  }

  /** Collapsing whitespace never creates a solid text the input did not contain. */
  lemma {:induction false} CollapseKeepsAbsent(s: string, sep: string, p: string)
    requires |sep| > 0 && forall i :: 0 <= i < |sep| ==> IsSpace(sep[i])
    requires Solid(p) && !Contains(s, p)
    ensures !Contains(CollapseSpace(s, sep), p)
    decreases |s|
  {
    if s != [] {
      var c := CollapseSpace(s, sep);
      if IsSpace(s[0]) {
        var rest := StripLeft(s);
        StripLeftSpec(s);
        ContainsSuffix(s, |s| - |rest|, p);
        CollapseKeepsAbsent(rest, sep, p);
        SpacesThenAbsent(sep, CollapseSpace(rest, sep), p);
      } else {
        CollapseKeepsAbsent(s[1..], sep, p);
        CollapsePrefix(s, sep, p);
        assert c[1..] == CollapseSpace(s[1..], sep);
      }
    }
  }

  /** Collapsing whitespace in a text without any marker leaves the marker pass nothing to delete. */
  lemma CollapsedHasNoMarker(s: string, sep: string, literals: seq<string>, urlPrefix: string)
    requires |sep| > 0 && forall i :: 0 <= i < |sep| ==> IsSpace(sep[i])
    requires forall i :: 0 <= i < |literals| ==> Solid(literals[i]) && !Contains(s, literals[i])
    requires Solid(urlPrefix) && !Contains(s, urlPrefix)
    ensures RemoveMarkers(CollapseSpace(s, sep), literals, urlPrefix) == CollapseSpace(s, sep)
  {
    var c := CollapseSpace(s, sep);
    forall i | 0 <= i < |literals| ensures |literals[i]| > 0 && !Contains(c, literals[i]) {
      CollapseKeepsAbsent(s, sep, literals[i]);
    }
    CollapseKeepsAbsent(s, sep, urlPrefix);
    RemoveMarkersNoMatch(c, literals, urlPrefix);
  }

  /** Text that contains no marker is left as it is. */
  lemma {:induction false} RemoveMarkersNoMatch(s: string, literals: seq<string>, urlPrefix: string)
    requires forall i :: 0 <= i < |literals| ==> |literals[i]| > 0 && !Contains(s, literals[i])
    requires |urlPrefix| > 0 && !Contains(s, urlPrefix)
    ensures RemoveMarkers(s, literals, urlPrefix) == s
    decreases |s|
  {
    if s != [] {
      NoLiteralMatch(s, literals);
      forall i | 0 <= i < |literals| ensures !Contains(s[1..], literals[i]) {
        assert !Contains(s, literals[i]);
      }
      RemoveMarkersNoMatch(s[1..], literals, urlPrefix);
      assert [s[0]] + s[1..] == s;
    }
  }

  lemma {:induction false} NoLiteralMatch(s: string, literals: seq<string>)
    requires forall i :: 0 <= i < |literals| ==> !Contains(s, literals[i])
    ensures LiteralMatch(s, literals) == 0
    decreases |literals|
  {
    if literals != [] {
      assert !Contains(s, literals[0]);
      NoLiteralMatch(s, literals[1..]);
    }
  }

  /** Deleting markers never lengthens the text. */
  lemma {:induction false} RemoveMarkersShortens(s: string, literals: seq<string>, urlPrefix: string)
    ensures |RemoveMarkers(s, literals, urlPrefix)| <= |s|
    decreases |s|
  {
    if s != [] {
      var n := MarkerMatch(s, literals, urlPrefix);
      if n > 0 {
        RemoveMarkersShortens(s[n..], literals, urlPrefix);
      } else {
        RemoveMarkersShortens(s[1..], literals, urlPrefix);
      }
    }
  }

  /** The retry loop's verdict: the first status-200 attempt, every earlier attempt having failed. */
  lemma {:induction false} FirstOkSpec(replies: nat -> Reply, from: nat, retry: int)
    ensures match FirstOk(replies, from, retry)
            case Some(k) =>
              from <= k < retry && IsOk(replies(k)) && forall j :: from <= j < k ==> !IsOk(replies(j))
            case None => forall j :: from <= j < retry ==> !IsOk(replies(j))
    decreases retry - from
  {
    if from < retry && !IsOk(replies(from)) {
      FirstOkSpec(replies, from + 1, retry);
    }
  }

  /** The first selector that finds an element decides; when none finds one the text is "". */
  lemma {:induction false} FirstFoundSpec(selectors: seq<string>, lookup: string -> Option<string>)
    ensures (forall i :: 0 <= i < |selectors| ==> lookup(selectors[i]).None?) ==> FirstFound(selectors, lookup) == ""
    ensures forall k :: 0 <= k < |selectors| && lookup(selectors[k]).Some? &&
                        (forall j :: 0 <= j < k ==> lookup(selectors[j]).None?) ==>
                          FirstFound(selectors, lookup) == lookup(selectors[k]).value
  {
    if selectors != [] {
      FirstFoundSpec(selectors[1..], lookup);
      forall k | 0 < k < |selectors| && lookup(selectors[k]).Some? &&
                 (forall j :: 0 <= j < k ==> lookup(selectors[j]).None?)
        ensures FirstFound(selectors, lookup) == lookup(selectors[k]).value
      {
        assert lookup(selectors[0]).None?;
        assert selectors[1..][k - 1] == selectors[k];
        forall j | 0 <= j < k - 1
          ensures lookup(selectors[1..][j]).None?
        {
          assert selectors[1..][j] == selectors[j + 1];
        }
      }
      if forall i :: 0 <= i < |selectors| ==> lookup(selectors[i]).None? {
        forall i | 0 <= i < |selectors| - 1
          ensures lookup(selectors[1..][i]).None?
        {
          assert selectors[1..][i] == selectors[i + 1];
        }
      }
    }
  }

  /**
   * A filtering loop keeps exactly the defined results: each one comes from
   * an input, every input with a result gives it, and no more come out than
   * went in.
   */
  lemma {:induction false} FilterMapSpec<T, U>(xs: seq<T>, f: T -> Option<U>)
    ensures |FilterMap(xs, f)| <= |xs|
    ensures forall y :: y in FilterMap(xs, f) ==> exists i :: 0 <= i < |xs| && f(xs[i]) == Some(y)
    ensures forall i :: 0 <= i < |xs| && f(xs[i]).Some? ==> f(xs[i]).value in FilterMap(xs, f)
  {
    if xs != [] {
      var n := |xs| - 1;
      FilterMapSpec(xs[..n], f);
      forall y | y in FilterMap(xs, f)
        ensures exists i :: 0 <= i < |xs| && f(xs[i]) == Some(y)
      {
        if y in FilterMap(xs[..n], f) {
          var i :| 0 <= i < n && f(xs[..n][i]) == Some(y);
          assert xs[..n][i] == xs[i];
        } else {
          assert f(xs[n]) == Some(y);
        }
      }
      forall i | 0 <= i < |xs| && f(xs[i]).Some?
        ensures f(xs[i]).value in FilterMap(xs, f)
      {
        if i < n {
          assert xs[..n][i] == xs[i];
        }
      }
    }
  }

  /** The count only depends on which entries occur. */
  lemma {:induction false} CountPresentSame(t1: string, t2: string, words: seq<string>)
    requires forall i :: 0 <= i < |words| ==> (Contains(t1, words[i]) <==> Contains(t2, words[i]))
    ensures CountPresent(t1, words) == CountPresent(t2, words)
  {
    if words != [] {
      var n := |words| - 1;
      assert forall i :: 0 <= i < n ==> words[..n][i] == words[i];
      CountPresentSame(t1, t2, words[..n]);
    }
  }

  /** Every listed entry present counts: a text containing the entries at `present` counts at least that many. */
  lemma {:induction false} CountPresentAtLeast(text: string, words: seq<string>, present: set<nat>)
    requires forall i :: i in present ==> i < |words| && Contains(text, words[i])
    ensures CountPresent(text, words) >= |present|
  {
    if words == [] {
      assert forall i :: i !in present;
      assert present == {};
    } else {
      var n := |words| - 1;
      var rest := present - {n};
      assert forall i :: i in rest ==> i < n && words[..n][i] == words[i];
      CountPresentAtLeast(text, words[..n], rest);
      if n in present {
        assert present == rest + {n};
      } else {
        assert present == rest;
      }
    }
  }

  /**
   * A loop that stops once it has kept `cap` results of a filter has kept
   * the first `cap` results of the whole input.
   */
  lemma FilterMapStopped<T, U>(xs: seq<T>, i: nat, f: T -> Option<U>, cap: nat)
    requires i <= |xs| && (i == |xs| || |FilterMap(xs[..i], f)| == cap)
    requires |FilterMap(xs[..i], f)| <= cap
    ensures Take(FilterMap(xs, f), cap) == FilterMap(xs[..i], f)
  {
    assert xs == xs[..i] + xs[i..];
    FilterMapAppend(xs[..i], xs[i..], f);
    if i == |xs| {
      assert xs[..i] == xs;
    } else {
      assert (FilterMap(xs[..i], f) + FilterMap(xs[i..], f))[..cap] == FilterMap(xs[..i], f);
    }
  }

  /** A filter that keeps nothing gives nothing. */
  lemma {:induction false} FilterMapNone<T, U>(xs: seq<T>, f: T -> Option<U>)
    requires forall i :: 0 <= i < |xs| ==> f(xs[i]).None?
    ensures FilterMap(xs, f) == []
  {
    if xs != [] {
      var n := |xs| - 1;
      assert forall i :: 0 <= i < n ==> xs[..n][i] == xs[i];
      FilterMapNone(xs[..n], f);
    }
  }

  /** Filtering keeps the input order: it distributes over concatenation. */
  lemma {:induction false} FilterMapAppend<T, U>(xs: seq<T>, ys: seq<T>, f: T -> Option<U>)
    ensures FilterMap(xs + ys, f) == FilterMap(xs, f) + FilterMap(ys, f)
    decreases |ys|
  {
    if ys != [] {
      var n := |ys| - 1;
      assert (xs + ys)[..|xs| + n] == xs + ys[..n];
      FilterMapAppend(xs, ys[..n], f);
    } else {
      assert xs + ys == xs;
    }
  }
}
