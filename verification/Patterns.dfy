// The regular expressions of the analyzers, written out as predicates and
// rewriting functions: the `\[\d+\]` -> `[*]` normalisation of field paths,
// the extraction of the indices it removes, the T01 variant whose pattern is
// over-escaped, and the value shapes (UUID, timestamps, case patterns).

module Patterns {
  import opened Text

  // ---------------------------------------------------------------------
  // Array-index tokens `[` digits `]` in a field path.

  /** Length of the run of ASCII digits that `t` starts with. */
  function DigitRun(t: string): (k: nat)
    ensures k <= |t|
    ensures forall i :: 0 <= i < k ==> IsAsciiDigit(t[i])
    ensures k < |t| ==> !IsAsciiDigit(t[k])
  {
    if t != [] && IsAsciiDigit(t[0]) then 1 + DigitRun(t[1..]) else 0
  }

  /** `t` starts with one or more digits followed by `]`. */
  predicate ClosesIndex(t: string) {
    1 <= DigitRun(t) < |t| && t[DigitRun(t)] == ']'
  }

  /** `s` starts with a whole index token such as `[12]`. */
  predicate StartsWithIndex(s: string) {
    s != [] && s[0] == '[' && ClosesIndex(s[1..])
  }

  /** Length of the index token `s` starts with. */
  function IndexTokenLength(s: string): (n: nat)
    requires StartsWithIndex(s)
    ensures 3 <= n <= |s|
  {
    DigitRun(s[1..]) + 2
  }

  /** `re.sub(r'\[\d+\]', '[*]', path)`: every index token becomes `[*]`. */
  function NormalizeIndices(s: string): string
    decreases |s|
  {
    if s == [] then []
    else if StartsWithIndex(s) then "[*]" + NormalizeIndices(s[IndexTokenLength(s)..])
    else [s[0]] + NormalizeIndices(s[1..])
  }

  /** `[int(x) for x in re.findall(r'\[(\d+)\]', path)]`. */
  function ExtractIndices(s: string): seq<nat>
    decreases |s|
  {
    if s == [] then []
    else if StartsWithIndex(s) then
      [DigitsValue(s[1..IndexTokenLength(s) - 1])] + ExtractIndices(s[IndexTokenLength(s)..])
    else ExtractIndices(s[1..])
  }

  lemma NormalizeStep(c: char, t: string)
    requires c != '['
    ensures NormalizeIndices([c] + t) == [c] + NormalizeIndices(t)
  {
    assert ([c] + t)[1..] == t;
  }

  lemma NormalizeWildcard(t: string)
    ensures NormalizeIndices("[*]" + t) == "[*]" + NormalizeIndices(t)
  {
    var s := "[*]" + t;
    var u := ['*'] + ([']'] + t);
    assert s[1..] == u;
    assert !IsAsciiDigit(u[0]);
    assert NormalizeIndices(s) == ['['] + NormalizeIndices(u);
    NormalizeStep('*', [']'] + t);
    NormalizeStep(']', t);
  }

  /** Normalising never changes whether a string starts with `]` or with a digit. */
  lemma {:induction false} NormalizeFirst(t: string)
    ensures |NormalizeIndices(t)| == 0 <==> |t| == 0
    ensures t != [] ==> (NormalizeIndices(t)[0] == ']' <==> t[0] == ']')
    ensures t != [] ==> (IsAsciiDigit(NormalizeIndices(t)[0]) <==> IsAsciiDigit(t[0]))
    ensures t != [] && IsAsciiDigit(t[0]) ==> NormalizeIndices(t) == [t[0]] + NormalizeIndices(t[1..])
  {
  }

  lemma ClosesIndexUnfold(t: string)
    requires t != [] && IsAsciiDigit(t[0])
    ensures ClosesIndex(t) <==> |t| >= 2 && (t[1] == ']' || ClosesIndex(t[1..]))
  {
    var u := t[1..];
    assert DigitRun(t) == 1 + DigitRun(u);
    if |t| >= 2 {
      assert t[1] == u[0];
      assert DigitRun(u) < |u| ==> t[DigitRun(t)] == u[DigitRun(u)];
    }
  }

  /** Normalising never creates or destroys a digits-then-`]` prefix. */
  lemma {:induction false} NormalizeClosesIndex(t: string)
    ensures ClosesIndex(NormalizeIndices(t)) <==> ClosesIndex(t)
    decreases |t|
  {
    NormalizeFirst(t);
    if t != [] && IsAsciiDigit(t[0]) {
      var u := t[1..];
      var nt := NormalizeIndices(t);
      NormalizeFirst(u);
      NormalizeClosesIndex(u);
      ClosesIndexUnfold(t);
      ClosesIndexUnfold(nt);
      assert nt[1..] == NormalizeIndices(u);
    }
  }

  /** Normalising a normalised path changes nothing. */
  lemma {:induction false} NormalizeIdempotent(s: string)
    ensures NormalizeIndices(NormalizeIndices(s)) == NormalizeIndices(s)
    decreases |s|
  {
    if s == [] {
    } else if StartsWithIndex(s) {
      var rest := s[IndexTokenLength(s)..];
      NormalizeIdempotent(rest);
      NormalizeWildcard(NormalizeIndices(rest));
    } else if s[0] != '[' {
      NormalizeIdempotent(s[1..]);
      NormalizeStep(s[0], NormalizeIndices(s[1..]));
    } else {
      var n1 := NormalizeIndices(s[1..]);
      NormalizeIdempotent(s[1..]);
      NormalizeClosesIndex(s[1..]);
      var ns := [s[0]] + n1;
      assert ns[1..] == n1;
      assert !StartsWithIndex(ns);
    }
  }

  /** A path is changed by normalisation exactly when it holds an index token. */
  lemma {:induction false} NormalizeChangesIffIndices(s: string)
    ensures NormalizeIndices(s) == s <==> ExtractIndices(s) == []
    decreases |s|
  {
    if s != [] {
      if StartsWithIndex(s) {
        var n := NormalizeIndices(s);
        assert n[1] == '*';
        assert s[1] != '*' by { assert IsAsciiDigit(s[1..][0]); }
      } else {
        NormalizeChangesIffIndices(s[1..]);
      }
    }
  }

  /** A path that normalisation changed contains `[*]`. */
  lemma {:induction false} NormalizeChangedHasWildcard(s: string)
    requires NormalizeIndices(s) != s
    ensures Contains(NormalizeIndices(s), "[*]")
    decreases |s|
  {
    if StartsWithIndex(s) {
      assert StartsWith(NormalizeIndices(s), "[*]");
    } else {
      NormalizeChangedHasWildcard(s[1..]);
      assert NormalizeIndices(s)[1..] == NormalizeIndices(s[1..]);
    }
  }

  // ---------------------------------------------------------------------
  // T01's merge pattern `r'\\[\\d*\\]'`: a backslash followed by one of
  // backslash, `d` or `*` (the raw string escapes the brackets away).

  predicate StartsWithT01Token(s: string) {
    |s| >= 2 && s[0] == '\\' && (s[1] == '\\' || s[1] == 'd' || s[1] == '*')
  }

  function T01NormalizePath(s: string): string
    decreases |s|
  {
    if s == [] then []
    else if StartsWithT01Token(s) then "[*]" + T01NormalizePath(s[2..])
    else [s[0]] + T01NormalizePath(s[1..])
  }

  /** Paths without a backslash, which is every path made of JSON keys and
      `[n]`/`[*]` segments in practice, are left as they are. */
  lemma {:induction false} T01NormalizeNoBackslash(s: string)
    requires '\\' !in s
    ensures T01NormalizePath(s) == s
    decreases |s|
  {
    if s != [] {
      assert s[0] != '\\';
      assert forall i :: 0 <= i < |s[1..]| ==> s[1..][i] == s[i + 1];
      T01NormalizeNoBackslash(s[1..]);
    }
  }

  // ---------------------------------------------------------------------
  // Value shapes.

  predicate UuidWhole(s: string) {
    |s| == 36
    && (forall i :: 0 <= i < 36 ==> (i == 8 || i == 13 || i == 18 || i == 23) == (s[i] == '-'))
    && (forall i :: 0 <= i < 36 && s[i] != '-' ==> IsHexDigitIgnoreCase(s[i]))
  }

  /** `re.match(r'^[0-9a-f]{8}-...-[0-9a-f]{12}$', s, re.IGNORECASE)`. */
  predicate IsUuid(s: string) {
    DollarAnchored(s, UuidWhole)
  }

  predicate DigitsAt(s: string, from: nat, count: nat) {
    from + count <= |s| && forall i :: from <= i < from + count ==> IsAsciiDigit(s[i])
  }

  /** `\d{4}-\d{2}-\d{2}` then `sep` then `\d{2}:\d{2}:\d{2}`: 19 characters. */
  predicate DateTimeBase(s: string, sep: char) {
    |s| >= 19 && DigitsAt(s, 0, 4) && s[4] == '-' && DigitsAt(s, 5, 2) && s[7] == '-'
    && DigitsAt(s, 8, 2) && s[10] == sep && DigitsAt(s, 11, 2) && s[13] == ':'
    && DigitsAt(s, 14, 2) && s[16] == ':' && DigitsAt(s, 17, 2)
  }

  /** `(\.\d{3})?` matched on the whole of `t`. */
  predicate OptionalMillis(t: string) {
    t == [] || (|t| == 4 && t[0] == '.' && DigitsAt(t, 1, 3))
  }

  predicate IsoWhole(s: string) {
    DateTimeBase(s, 'T')
    && (OptionalMillis(s[19..]) || (s[|s| - 1] == 'Z' && OptionalMillis(s[19..|s| - 1])))
  }

  /** `re.match(r'^\d{4}-\d{2}-\d{2}T\d{2}:\d{2}:\d{2}(\.\d{3})?Z?$', s)`. */
  predicate IsIsoDatetime(s: string) {
    DollarAnchored(s, IsoWhole)
  }

  predicate SpacedWhole(s: string) {
    DateTimeBase(s, ' ') && OptionalMillis(s[19..])
  }

  /** `re.match(r'^\d{4}-\d{2}-\d{2} \d{2}:\d{2}:\d{2}(\.\d{3})?$', s)`. */
  predicate IsSpacedTimestamp(s: string) {
    DollarAnchored(s, SpacedWhole)
  }

  /**
   * T01's datetime pattern `r'^\\d{4}-...$'`: in a raw string `\\d{4}` is a
   * backslash followed by `dddd`, so only the literal text
   * `\dddd-\dd-\ddT\dd:\dd:\dd` (with an optional backslash, one character
   * and `\ddd`, then an optional `Z`) matches.
   */
  predicate T01DatetimeWhole(s: string) {
    var base := "\\dddd-\\dd-\\ddT\\dd:\\dd:\\dd";
    StartsWith(s, base)
    && var rest := s[|base|..];
    var r := if rest != [] && rest[|rest| - 1] == 'Z' then rest[..|rest| - 1] else rest;
    (r == [] || (|r| == 6 && r[0] == '\\' && r[1] != '\n' && r[2..] == "\\ddd"))
  }

  predicate T01DatetimeMatch(s: string) {
    DollarAnchored(s, T01DatetimeWhole)
  }

  /** T01's datetime pattern never matches a string without a backslash,
      so real ISO timestamps are never typed "datetime" there. */
  lemma T01DatetimeNeedsBackslash(s: string)
    requires '\\' !in s
    ensures !T01DatetimeMatch(s)
  {
    if |s| > 0 {
      assert s[0] in s;
      if |s| > 1 {
        assert s[..|s| - 1][0] == s[0];
      }
    }
  }

  /** `re.match(r'^[A-Z_]+$', s)`. */
  predicate IsUpperCaseWord(s: string) {
    DollarAnchored(s, (t: string) => |t| >= 1 && AllChars(t, IsUpperOrUnderscore))
  }

  /** `re.match(r'^[a-z_]+$', s)`. */
  predicate IsLowerCaseWord(s: string) {
    DollarAnchored(s, (t: string) => |t| >= 1 && AllChars(t, IsLowerOrUnderscore))
  }

  /** `re.match(r'^\d+$', s)`. */
  predicate IsNumericString(s: string) {
    DollarAnchored(s, (t: string) => |t| >= 1 && AllChars(t, IsAsciiDigit))
  }
}
