/**
 * The JavaScript string built-ins the backend and the stores rely on:
 * `trim`, `startsWith`, `indexOf`/`includes`, `replace` with a string pattern,
 * `toLowerCase`, `join`, `slice(0, n)`, `String(n)` and the `/\s+/g` rewrite.
 */
module Text {
  import opened Wrappers
  import opened Collections

  /** JavaScript's WhiteSpace and LineTerminator code points: what `trim` strips and `\s` matches. */
  predicate IsSpace(c: char) {
    || c == '\t' || c == '\n' || c == '\U{B}' || c == '\U{C}' || c == '\r' || c == ' '
    || c == '\U{A0}' || c == '\U{1680}' || ('\U{2000}' <= c <= '\U{200A}')
    || c == '\U{2028}' || c == '\U{2029}' || c == '\U{202F}' || c == '\U{205F}'
    || c == '\U{3000}' || c == '\U{FEFF}'
  }

  /** Not white space: what survives `trim` and `/\s+/g` untouched. */
  predicate NotSpace(c: char) {
    !IsSpace(c)
  }

  /** The only white space is the plain space, and no two spaces are adjacent. */
  predicate SingleSpaced(s: string) {
    && (forall i :: 0 <= i < |s| && IsSpace(s[i]) ==> s[i] == ' ')
    && (forall i :: 0 <= i < |s| - 1 && s[i] == ' ' ==> s[i + 1] != ' ')
  }

  /** `s.trim().length === 0` */
  predicate IsBlank(s: string) {
    forall i :: 0 <= i < |s| ==> IsSpace(s[i])
  }

  /** `s.trimStart()`: the suffix left after dropping leading white space. */
  function TrimStart(s: string): (r: string)
    ensures |r| <= |s| && r == s[|s| - |r|..]
    ensures r == [] || !IsSpace(r[0])
    ensures forall i :: 0 <= i < |s| - |r| ==> IsSpace(s[i])
  {
    if s == [] || !IsSpace(s[0]) then s else TrimStart(s[1..])
  }

  /** `s.trimEnd()`: the prefix left after dropping trailing white space. */
  function TrimEnd(s: string): (r: string)
    ensures |r| <= |s| && r == s[..|r|]
    ensures r == [] || !IsSpace(r[|r| - 1])
    ensures forall i :: |r| <= i < |s| ==> IsSpace(s[i])
  {
    if s == [] || !IsSpace(s[|s| - 1]) then s else TrimEnd(s[..|s| - 1])
  }

  /** No white space at either end. */
  predicate Trimmed(s: string) {
    s == [] || (!IsSpace(s[0]) && !IsSpace(s[|s| - 1]))
  }

  /** `s` is `r` with nothing but white space added before and after it. */
  predicate BlankAround(s: string, r: string) {
    exists k :: 0 <= k <= |s| - |r| && r == s[k..k + |r|] && IsBlank(s[..k]) && IsBlank(s[k + |r|..])
  }

  /** `s.trim()` */
  function Trim(s: string): (r: string)
    ensures |r| <= |s|
    ensures Trimmed(r)
    ensures r == [] <==> IsBlank(s)
    ensures BlankAround(s, r)
  {
    var t := TrimStart(s);
    var r := TrimEnd(t);
    TrimWitness(s, t, r);
    r
  }

  /** The trimmed piece sits at offset `|s| - |t|`, with only white space before and after it. */
  lemma TrimWitness(s: string, t: string, r: string)
    requires |t| <= |s| && t == s[|s| - |t|..]
    requires forall i :: 0 <= i < |s| - |t| ==> IsSpace(s[i])
    requires |r| <= |t| && r == t[..|r|]
    requires forall i :: |r| <= i < |t| ==> IsSpace(t[i])
    ensures BlankAround(s, r)
  {
    var k := |s| - |t|;
    assert r == s[k..k + |r|];
    var front := s[..k];
    forall i | 0 <= i < k ensures IsSpace(front[i]) {
      assert front[i] == s[i];
    }
    var back := s[k + |r|..];
    forall i | 0 <= i < |back| ensures IsSpace(back[i]) {
      assert back[i] == t[|r| + i];
    }
  }

  /** A blank string holds no character that is not white space. */
  lemma FilterBlank(s: string)
    requires IsBlank(s)
    ensures Filter(s, NotSpace) == []
  {
  }

  /** Dropping blank ends keeps every character that is not white space, in order. */
  lemma FilterBlankEnds(front: string, middle: string, back: string)
    requires IsBlank(front) && IsBlank(back)
    ensures Filter(front + middle + back, NotSpace) == Filter(middle, NotSpace)
  {
    FilterAppend(front + middle, back, NotSpace);
    FilterAppend(front, middle, NotSpace);
    FilterBlank(front);
    FilterBlank(back);
    assert Filter(front + middle + back, NotSpace) == [] + Filter(middle, NotSpace) + [];
  }

  /** Trimming drops white space only: every other character stays, in order. */
  lemma TrimKeepsText(s: string)
    ensures Filter(Trim(s), NotSpace) == Filter(s, NotSpace)
  {
    BlankAroundKeepsText(s, Trim(s));
  }

  /** Trimming a text whose only white space is single spaces leaves single spaces only. */
  lemma TrimKeepsSingleSpaces(s: string)
    requires SingleSpaced(s)
    ensures SingleSpaced(Trim(s))
  {
    BlankAroundSingleSpaced(s, Trim(s));
  }

  /** Any contiguous piece of a single-spaced text is single-spaced. */
  lemma InfixSingleSpaced(s: string, k: nat, n: nat)
    requires k + n <= |s| && SingleSpaced(s)
    ensures SingleSpaced(s[k..k + n])
  {
    var r := s[k..k + n];
    forall i | 0 <= i < |r| ensures r[i] == s[k + i] {
    }
  }

  /** Adding white space around a text adds no non-space character. */
  lemma BlankAroundKeepsText(s: string, r: string)
    requires BlankAround(s, r)
    ensures Filter(r, NotSpace) == Filter(s, NotSpace)
  {
    var k :| 0 <= k <= |s| - |r| && r == s[k..k + |r|] && IsBlank(s[..k]) && IsBlank(s[k + |r|..]);
    FilterOfInfix(s, k, r);
  }

  /** A piece cut out of a single-spaced text is single-spaced. */
  lemma BlankAroundSingleSpaced(s: string, r: string)
    requires BlankAround(s, r) && SingleSpaced(s)
    ensures SingleSpaced(r)
  {
    var k :| 0 <= k <= |s| - |r| && r == s[k..k + |r|] && IsBlank(s[..k]) && IsBlank(s[k + |r|..]);
    InfixSingleSpaced(s, k, |r|);
  }

  /** The piece between two blank ends holds all of the text's non-space characters. */
  lemma FilterOfInfix(s: string, k: nat, r: string)
    requires k + |r| <= |s| && r == s[k..k + |r|] && IsBlank(s[..k]) && IsBlank(s[k + |r|..])
    ensures Filter(r, NotSpace) == Filter(s, NotSpace)
  {
    var front, back := s[..k], s[k + |r|..];
    assert s == front + r + back;
    FilterBlankEnds(front, r, back);
  }

  /** A string with no white space at either end is its own trim. */
  lemma {:induction false} TrimOfTrimmed(s: string)
    requires Trimmed(s)
    ensures Trim(s) == s
  {
    if s != [] {
      assert TrimStart(s) == s;
      assert TrimEnd(s) == s;
    }
  }

  /** Trimming twice is trimming once. */
  lemma TrimIdempotent(s: string)
    ensures Trim(Trim(s)) == Trim(s)
  {
    TrimOfTrimmed(Trim(s));
  }

  /** `s.startsWith(p)` */
  predicate StartsWith(s: string, p: string) {
    |p| <= |s| && s[..|p|] == p
  }

  /** `sub` occurs in `s` at index `i`. */
  predicate MatchAt(s: string, sub: string, i: nat) {
    i + |sub| <= |s| && s[i..i + |sub|] == sub
  }

  /** `s.endsWith(p)` */
  predicate EndsWith(s: string, p: string) {
    |p| <= |s| && s[|s| - |p|..] == p
  }

  /** The middle piece of a concatenation occurs right after the first piece. */
  lemma MatchInMiddle(a: string, b: string, c: string)
    ensures MatchAt(a + b + c, b, |a|)
  {
    assert (a + b + c)[|a|..|a| + |b|] == b;
  }

  /** An occurrence inside `b` is still an occurrence, shifted, inside `a + b + c`. */
  lemma MatchShift(a: string, b: string, c: string, sub: string, i: nat)
    requires MatchAt(b, sub, i)
    ensures MatchAt(a + b + c, sub, |a| + i)
  {
    assert (a + b + c)[|a| + i..|a| + i + |sub|] == b[i..i + |sub|];
  }

  /** An occurrence inside `b` makes `sub` a substring of `a + b + c`. */
  lemma ContainsInContext(a: string, b: string, c: string, sub: string)
    requires Contains(b, sub)
    ensures Contains(a + b + c, sub)
  {
    MatchShift(a, b, c, sub, IndexOf(b, sub).value);
    ContainsIff(a + b + c, sub);
  }

  /** A substring of `a` is a substring of `a + b`. */
  lemma ContainsAppend(a: string, b: string, sub: string)
    requires Contains(a, sub)
    ensures Contains(a + b, sub)
  {
    ContainsInContext([], a, b, sub);
    assert [] + a + b == a + b;
  }

  /** A substring of `b` is a substring of `a + b`. */
  lemma ContainsPrepend(a: string, b: string, sub: string)
    requires Contains(b, sub)
    ensures Contains(a + b, sub)
  {
    ContainsInContext(a, b, [], sub);
    assert a + b + [] == a + b;
  }

  /** Being a substring is transitive. */
  lemma ContainsTrans(s: string, t: string, u: string)
    requires Contains(s, t) && Contains(t, u)
    ensures Contains(s, u)
  {
    var i := IndexOf(s, t).value;
    var j := IndexOf(t, u).value;
    assert s[i..i + |t|] == t && t[j..j + |u|] == u;
    assert s[i..i + |t|][j..j + |u|] == s[i + j..i + j + |u|];
    assert MatchAt(s, u, i + j);
    ContainsIff(s, u);
  }

  /** A string lacking one of the characters of `sub` does not contain `sub`. */
  lemma MissingCharNotContained(s: string, sub: string, k: nat)
    requires k < |sub| && sub[k] !in s
    ensures !Contains(s, sub)
  {
    forall i: nat | i + |sub| <= |s| ensures !MatchAt(s, sub, i) {
      assert s[i..i + |sub|][k] == s[i + k];
      assert s[i + k] in s;
    }
    ContainsIff(s, sub);
  }

  /** `s.indexOf(sub, from)`, with `None` for -1: the first occurrence at or after `from`. */
  function IndexOfFrom(s: string, sub: string, from: nat): (r: Option<nat>)
    requires from <= |s|
    ensures r.Some? ==> from <= r.value && MatchAt(s, sub, r.value)
    ensures r.Some? ==> forall j :: from <= j < r.value ==> !MatchAt(s, sub, j)
    ensures r.None? ==> forall j :: from <= j ==> !MatchAt(s, sub, j)
    decreases |s| - from
  {
    if MatchAt(s, sub, from) then Some(from)
    else if from == |s| then None
    else IndexOfFrom(s, sub, from + 1)
  }

  /** `s.indexOf(sub)` */
  function IndexOf(s: string, sub: string): Option<nat> {
    IndexOfFrom(s, sub, 0)
  }

  /** `s.includes(sub)` */
  predicate Contains(s: string, sub: string) {
    IndexOf(s, sub).Some?
  }

  /** `includes` is exactly "occurs at some index". */
  lemma ContainsIff(s: string, sub: string)
    ensures Contains(s, sub) <==> exists i: nat :: MatchAt(s, sub, i)
  {
  }

  /** `s.replace(pat, rep)` with a string pattern: only the first occurrence is replaced. */
  function ReplaceFirst(s: string, pat: string, rep: string): (r: string)
    ensures !Contains(s, pat) ==> r == s
    ensures Contains(s, pat) ==> |r| == |s| - |pat| + |rep|
    ensures Contains(s, pat) ==> var i := IndexOf(s, pat).value;
      r[..i] == s[..i] && r[i..i + |rep|] == rep && r[i + |rep|..] == s[i + |pat|..]
  {
    match IndexOf(s, pat)
    case None => s
    case Some(i) => s[..i] + rep + s[i + |pat|..]
  }

  /** A string that starts with `p` loses exactly that prefix under `replace(p, "")`. */
  lemma ReplacePrefix(s: string, p: string)
    requires StartsWith(s, p)
    ensures ReplaceFirst(s, p, "") == s[|p|..]
  {
    assert MatchAt(s, p, 0);
  }

  /** `toLowerCase` on one code point; only the ASCII letters are mapped. */
  function ToLowerChar(c: char): (d: char)
    ensures !('A' <= d <= 'Z')
    ensures c != d ==> 'A' <= c <= 'Z' && d as int == c as int + 32
  {
    if 'A' <= c <= 'Z' then (c as int + 32) as char else c
  }

  /** `s.toLowerCase()` */
  function ToLower(s: string): (r: string)
    ensures |r| == |s|
    ensures forall i :: 0 <= i < |s| ==> r[i] == ToLowerChar(s[i])
  {
    seq(|s|, i requires 0 <= i < |s| => ToLowerChar(s[i]))
  }

  /** Lower-casing is idempotent. */
  lemma ToLowerIdempotent(s: string)
    ensures ToLower(ToLower(s)) == ToLower(s)
  {
    var t := ToLower(s);
    forall i | 0 <= i < |t| ensures ToLowerChar(t[i]) == t[i] {
    }
  }

  /** Lower-casing works character by character, so it distributes over concatenation. */
  lemma ToLowerConcat(a: string, b: string)
    ensures ToLower(a + b) == ToLower(a) + ToLower(b)
  {
  }

  /** `parts.join(sep)` */
  function Join(parts: seq<string>, sep: string): (r: string)
    ensures parts == [] ==> r == []
    ensures |parts| == 1 ==> r == parts[0]
    ensures |parts| >= 2 ==> r == Join(parts[..|parts| - 1], sep) + sep + parts[|parts| - 1]
  {
    if parts == [] then []
    else if |parts| == 1 then parts[0]
    else Join(parts[..|parts| - 1], sep) + sep + parts[|parts| - 1]
  }

  /** The first part of a non-empty join is a prefix of it. */
  lemma {:induction false} JoinStartsWithFirst(parts: seq<string>, sep: string)
    requires parts != []
    ensures StartsWith(Join(parts, sep), parts[0])
  {
    if |parts| >= 2 {
      var init := parts[..|parts| - 1];
      JoinStartsWithFirst(init, sep);
      assert init[0] == parts[0];
      var j := Join(init, sep);
      assert Join(parts, sep) == j + (sep + parts[|parts| - 1]);
      assert Join(parts, sep)[..|parts[0]|] == j[..|parts[0]|];
    }
  }

  /** Total length of the parts of a join. */
  function SumLengths(parts: seq<string>): nat {
    if parts == [] then 0 else SumLengths(parts[..|parts| - 1]) + |parts[|parts| - 1]|
  }

  /** A join holds every part and one separator between each neighbouring pair. */
  lemma {:induction false} JoinLength(parts: seq<string>, sep: string)
    requires parts != []
    ensures |Join(parts, sep)| == SumLengths(parts) + (|parts| - 1) * |sep|
  {
    if |parts| >= 2 {
      var init := parts[..|parts| - 1];
      JoinLength(init, sep);
      var k := |parts| - 2;
      assert |Join(init, sep)| == SumLengths(init) + k * |sep|;
      assert (k + 1) * |sep| == k * |sep| + |sep|;
    } else {
      assert parts[..0] == [];
    }
  }

  /** `s.slice(0, n)` */
  function Take<T>(s: seq<T>, n: nat): (r: seq<T>)
    ensures |r| <= n && |r| <= |s|
    ensures n >= |s| ==> r == s
    ensures n < |s| ==> |r| == n
    ensures forall i :: 0 <= i < |r| ==> r[i] == s[i]
  {
    if n < |s| then s[..n] else s
  }

  /** The decimal digit for `d`. */
  function DigitChar(d: nat): (c: char)
    requires d < 10
    ensures '0' <= c <= '9' && c as int - '0' as int == d
  {
    (d + '0' as int) as char
  }

  /** `String(n)` for a natural number. */
  function NatToString(n: nat): (r: string)
    ensures |r| >= 1
    ensures forall i :: 0 <= i < |r| ==> '0' <= r[i] <= '9'
    ensures n > 0 ==> r[0] != '0'
    decreases n
  {
    if n < 10 then [DigitChar(n)] else NatToString(n / 10) + [DigitChar(n % 10)]
  }

  /** The value of a string of decimal digits. */
  function DigitsValue(s: string): nat
    requires forall i :: 0 <= i < |s| ==> '0' <= s[i] <= '9'
  {
    if s == [] then 0
    else DigitsValue(s[..|s| - 1]) * 10 + (s[|s| - 1] as int - '0' as int)
  }

  /** `String(n)` reads back as `n`, so distinct numbers print differently. */
  lemma {:induction false} NatToStringRoundTrip(n: nat)
    ensures DigitsValue(NatToString(n)) == n
    decreases n
  {
    var r := NatToString(n);
    if n >= 10 {
      NatToStringRoundTrip(n / 10);
      assert r[..|r| - 1] == NatToString(n / 10);
    } else {
      assert r[..0] == [];
    }
  }

  /** `String` is injective on natural numbers. */
  lemma NatToStringInjective(m: nat, n: nat)
    requires NatToString(m) == NatToString(n)
    ensures m == n
  {
    NatToStringRoundTrip(m);
    NatToStringRoundTrip(n);
  }

  /** `s.replace(/\s+/g, " ")`: every maximal run of white space becomes one space. */
  function CollapseSpaces(s: string): (r: string)
    ensures |r| <= |s|
    ensures r == [] <==> s == []
    ensures s != [] && !IsSpace(s[0]) ==> r[0] == s[0]
    ensures s != [] && IsSpace(s[0]) ==> r[0] == ' '
    ensures forall i :: 0 <= i < |r| && IsSpace(r[i]) ==> r[i] == ' '
    ensures forall i :: 0 <= i < |r| - 1 && r[i] == ' ' ==> r[i + 1] != ' '
    decreases |s|
  {
    if s == [] then []
    else if IsSpace(s[0]) then
      var rest := TrimStart(s[1..]);
      var tail := CollapseSpaces(rest);
      assert tail != [] ==> tail[0] != ' ';
      [' '] + tail
    else
      [s[0]] + CollapseSpaces(s[1..])
  }

  /** Every white-space character replaced by a space: the first half of `/\s+/g` to `" "`. */
  function Blanked(s: string): (r: string)
    ensures |r| == |s|
    ensures forall i :: 0 <= i < |s| ==> r[i] == if IsSpace(s[i]) then ' ' else s[i]
  {
    seq(|s|, i requires 0 <= i < |s| => if IsSpace(s[i]) then ' ' else s[i])
  }

  /** A space that follows a space dropped: the second half, which leaves one space per run. */
  function Squeeze(t: string): string
    decreases |t|
  {
    if |t| <= 1 then t
    else if t[0] == ' ' && t[1] == ' ' then Squeeze(t[1..])
    else [t[0]] + Squeeze(t[1..])
  }

  /** A space followed by a run of spaces and then a non-space squeezes to one space. */
  lemma {:induction false} SqueezeRun(w: string, u: string)
    requires forall i :: 0 <= i < |w| ==> w[i] == ' '
    requires u == [] || u[0] != ' '
    ensures Squeeze([' '] + w + u) == [' '] + Squeeze(u)
    decreases |w|
  {
    var t := [' '] + w + u;
    if w == [] {
      assert t == [' '] + u;
      if u != [] {
        assert t[1..] == u;
      }
    } else {
      assert t[1..] == [' '] + w[1..] + u;
      SqueezeRun(w[1..], u);
    }
  }

  /** Blanking works character by character, so it distributes over concatenation. */
  lemma BlankedAppend(a: string, b: string)
    ensures Blanked(a + b) == Blanked(a) + Blanked(b)
  {
  }

  /** A blank string is blanked to spaces only. */
  lemma BlankedBlank(w: string)
    requires IsBlank(w)
    ensures forall i :: 0 <= i < |Blanked(w)| ==> Blanked(w)[i] == ' '
  {
  }

  /** Blanking a string that opens with white space: one space, then the blanked run, then the rest. */
  lemma LeadingRun(c: char, w: string, rest: string)
    requires IsSpace(c)
    ensures Blanked([c] + w + rest) == [' '] + Blanked(w) + Blanked(rest)
  {
    BlankedAppend([c] + w, rest);
    BlankedAppend([c], w);
    assert Blanked([c]) == [' '];
  }

  /** The characters `TrimStart` drops after the first one are all white space. */
  lemma LeadingRunBlank(s: string)
    requires s != []
    ensures IsBlank(s[1..][..|s[1..]| - |TrimStart(s[1..])|])
  {
    var tail := s[1..];
    var w := tail[..|tail| - |TrimStart(tail)|];
    forall i | 0 <= i < |w| ensures IsSpace(w[i]) {
      assert w[i] == tail[i];
    }
  }

  /** A white-space run and then a non-space (or the end) becomes one space in the reference rewrite. */
  lemma SqueezeSpaceRun(c: char, w: string, rest: string)
    requires IsSpace(c) && IsBlank(w)
    requires rest == [] || !IsSpace(rest[0])
    ensures Squeeze(Blanked([c] + w + rest)) == [' '] + Squeeze(Blanked(rest))
  {
    LeadingRun(c, w, rest);
    BlankedBlank(w);
    var br := Blanked(rest);
    assert br == [] || (br[0] == rest[0] && !IsSpace(rest[0]));
    SqueezeRun(Blanked(w), br);
  }

  /** A character that is not white space passes through the reference rewrite unchanged. */
  lemma SqueezeKeep(c: char, t: string)
    requires !IsSpace(c)
    ensures Squeeze(Blanked([c] + t)) == [c] + Squeeze(Blanked(t))
  {
    var b := Blanked(t);
    BlankedAppend([c], t);
    assert Blanked([c] + t) == [c] + b;
    if b != [] {
      assert ([c] + b)[1..] == b;
    }
  }

  /**
   * `replace(/\s+/g, " ")` is the two-pass rewrite: every white-space character becomes a space,
   * then each run of spaces shrinks to one.
   */
  lemma {:induction false} CollapseIsSqueeze(s: string)
    ensures CollapseSpaces(s) == Squeeze(Blanked(s))
    decreases |s|
  {
    if s == [] {
      assert Blanked(s) == [];
    } else if IsSpace(s[0]) {
      var rest := TrimStart(s[1..]);
      var w := s[1..][..|s[1..]| - |rest|];
      assert s == [s[0]] + w + rest;
      LeadingRunBlank(s);
      CollapseIsSqueeze(rest);
      SqueezeSpaceRun(s[0], w, rest);
    } else {
      assert s == [s[0]] + s[1..];
      CollapseIsSqueeze(s[1..]);
      SqueezeKeep(s[0], s[1..]);
    }
  }

  /** Collapsing rewrites white space only: every other character stays, in order. */
  lemma {:induction false} CollapseKeepsText(s: string)
    ensures Filter(CollapseSpaces(s), NotSpace) == Filter(s, NotSpace)
    decreases |s|
  {
    if s != [] {
      if IsSpace(s[0]) {
        var rest := TrimStart(s[1..]);
        var w := s[1..][..|s[1..]| - |rest|];
        assert s == ([s[0]] + w) + rest;
        FilterAppend([s[0]] + w, rest, NotSpace);
        FilterBlank([s[0]] + w);
        FilterAppend([' '], CollapseSpaces(rest), NotSpace);
        FilterBlank([' ']);
        CollapseKeepsText(rest);
      } else {
        assert s == [s[0]] + s[1..];
        FilterAppend([s[0]], s[1..], NotSpace);
        FilterAppend([s[0]], CollapseSpaces(s[1..]), NotSpace);
        CollapseKeepsText(s[1..]);
      }
    }
  }

  /** After collapsing, no line feed is left, so a following `/\n{3,}/g` rewrite changes nothing. */
  lemma CollapsedHasNoNewline(s: string)
    ensures '\n' !in CollapseSpaces(s)
  {
    assert IsSpace('\n');
  }
}
