/** String helpers shared by the frontend (JavaScript) and the backend (Python) model:
    the two whitespace sets that `trim()` and `strip()` remove, ASCII case folding,
    `find`/`rfind`, `split`/`join` and decimal rendering. */
module Strings {

  /** The code points JavaScript's `String.prototype.trim` removes (WhiteSpace and LineTerminator). */
  predicate IsJsSpace(c: char) {
    c == ' ' || c == '\t' || c == '\n' || c == '\r' || c == '\U{000B}' || c == '\U{000C}'
    || c == '\U{00A0}' || c == '\U{FEFF}' || c == '\U{1680}' || ('\U{2000}' <= c <= '\U{200A}')
    || c == '\U{2028}' || c == '\U{2029}' || c == '\U{202F}' || c == '\U{205F}' || c == '\U{3000}'
  }

  /** The code points Python's `str.strip()` removes (those for which `str.isspace()` holds). */
  predicate IsPySpace(c: char) {
    ('\t' <= c <= '\r') || ('\U{001C}' <= c <= '\U{001F}') || c == ' ' || c == '\U{0085}'
    || c == '\U{00A0}' || c == '\U{1680}' || ('\U{2000}' <= c <= '\U{200A}')
    || c == '\U{2028}' || c == '\U{2029}' || c == '\U{202F}' || c == '\U{205F}' || c == '\U{3000}'
  }

  /** How many leading characters of `s` satisfy `sp`. */
  function LeadCount(s: string, sp: char -> bool): (k: nat)
    ensures k <= |s|
  {
    if s != [] && sp(s[0]) then 1 + LeadCount(s[1..], sp) else 0
  }

  /** How many trailing characters of `s` satisfy `sp`. */
  function TrailCount(s: string, sp: char -> bool): (k: nat)
    ensures k <= |s|
  {
    if s != [] && sp(s[|s| - 1]) then 1 + TrailCount(s[..|s| - 1], sp) else 0
  }

  /** `s` with whitespace (as `sp` defines it) removed at both ends: `trim()` / `strip()`.
      The result is the slice of `s` that starts right after the leading whitespace. */
  function Trim(s: string, sp: char -> bool): (r: string)
    ensures LeadCount(s, sp) + |r| <= |s|
    ensures r == s[LeadCount(s, sp)..LeadCount(s, sp) + |r|]
  {
    var t := s[LeadCount(s, sp)..];
    t[..|t| - TrailCount(t, sp)]
  }

  /** The characters `LeadCount` counts satisfy `sp`, and the next one does not. */
  lemma {:induction false} LeadSpaces(s: string, sp: char -> bool)
    ensures forall i :: 0 <= i < LeadCount(s, sp) ==> sp(s[i])
    ensures LeadCount(s, sp) < |s| ==> !sp(s[LeadCount(s, sp)])
  {
    if s != [] && sp(s[0]) {
      LeadSpaces(s[1..], sp);
      forall i | 0 < i < LeadCount(s, sp) ensures sp(s[i]) {
        assert s[i] == s[1..][i - 1];
      }
    }
  }

  /** The characters `TrailCount` counts satisfy `sp`, and the one before them does not. */
  lemma {:induction false} TrailSpaces(s: string, sp: char -> bool)
    ensures forall i :: |s| - TrailCount(s, sp) <= i < |s| ==> sp(s[i])
    ensures TrailCount(s, sp) < |s| ==> !sp(s[|s| - TrailCount(s, sp) - 1])
  {
    if s != [] && sp(s[|s| - 1]) {
      var p := s[..|s| - 1];
      TrailSpaces(p, sp);
    }
  }

  /** A trimmed string starts and ends with non-whitespace, and it is empty exactly when
      the whole string is whitespace. */
  lemma TrimEnds(s: string, sp: char -> bool)
    ensures Trim(s, sp) != [] ==> !sp(Trim(s, sp)[0]) && !sp(Trim(s, sp)[|Trim(s, sp)| - 1])
    ensures Trim(s, sp) == [] <==> forall i :: 0 <= i < |s| ==> sp(s[i])
  {
    var k := LeadCount(s, sp);
    var t := s[k..];
    var r := Trim(s, sp);
    LeadSpaces(s, sp);
    TrailSpaces(t, sp);
    if r != [] {
      assert r[0] == s[k];
      assert r[|r| - 1] == t[|t| - TrailCount(t, sp) - 1];
    }
  }

  /** Trimming a slice `text[s..e]` leaves the part of `text` that starts after the
      slice's leading whitespace, still inside the slice. */
  lemma TrimWithin(text: string, s: nat, e: nat, sp: char -> bool)
    requires s <= e <= |text|
    ensures s + LeadCount(text[s..e], sp) + |Trim(text[s..e], sp)| <= e
    ensures text[s + LeadCount(text[s..e], sp)..s + LeadCount(text[s..e], sp) + |Trim(text[s..e], sp)|]
      == Trim(text[s..e], sp)
  {
    var sel := text[s..e];
    var k := LeadCount(sel, sp);
    var t := Trim(sel, sp);
    assert k + |t| <= |sel| && t == sel[k..k + |t|];
    SliceOfSlice(text, s, e, k, k + |t|);
  }

  lemma SliceOfSlice(text: string, s: nat, e: nat, i: nat, j: nat)
    requires s <= e <= |text| && i <= j <= e - s
    ensures text[s..e][i..j] == text[s + i..s + j]
  {
    forall k | 0 <= k < j - i ensures text[s..e][i..j][k] == text[s + i..s + j][k] {
      assert text[s..e][i..j][k] == text[s..e][i + k];
    }
  }

  /** JavaScript `s.trim()`. */
  function JsTrim(s: string): string {
    Trim(s, IsJsSpace)
  }

  /** Python `s.strip()`. */
  function PyStrip(s: string): string {
    Trim(s, IsPySpace)
  }

  /** A string whose ends are not whitespace is its own `strip()`. */
  lemma StripUnpadded(s: string)
    requires s != [] && !IsPySpace(s[0]) && !IsPySpace(s[|s| - 1])
    ensures PyStrip(s) == s
  {
    assert LeadCount(s, IsPySpace) == 0;
    assert s[0..] == s;
    assert TrailCount(s, IsPySpace) == 0;
  }

  /** `!s.trim()` in JavaScript: the string is empty once trimmed. */
  predicate IsBlank(s: string) {
    JsTrim(s) == []
  }

  /** ASCII lower-casing of one character. */
  function LowerChar(c: char): (r: char)
    ensures 'A' <= c <= 'Z' ==> r as int == c as int + 32
    ensures !('A' <= c <= 'Z') ==> r == c
    ensures !('A' <= r <= 'Z')
  {
    if 'A' <= c <= 'Z' then (c as int + 32) as char else c
  }

  /** `toLowerCase()` / `lower()`, restricted to ASCII letters. */
  function ToLower(s: string): (r: string)
    ensures |r| == |s|
    ensures forall i :: 0 <= i < |s| ==> r[i] == LowerChar(s[i])
  {
    if s == [] then [] else [LowerChar(s[0])] + ToLower(s[1..])
  }

  /** Lower-casing twice is lower-casing once. */
  lemma ToLowerIdempotent(s: string)
    ensures ToLower(ToLower(s)) == ToLower(s)
  {
    var t := ToLower(s);
    assert forall i :: 0 <= i < |t| ==> ToLower(t)[i] == t[i];
  }

  predicate EndsWith(s: string, suffix: string) {
    |suffix| <= |s| && s[|s| - |suffix|..] == suffix
  }

  predicate StartsWith(s: string, prefix: string) {
    |prefix| <= |s| && s[..|prefix|] == prefix
  }

  /** Python `s.find(c)` / JavaScript `s.indexOf(c)`: the first index of `c`, or -1. */
  function Find(s: string, c: char): (r: int)
    ensures -1 <= r < |s|
    ensures r == -1 <==> c !in s
    ensures r >= 0 ==> s[r] == c && c !in s[..r]
  {
    if s == [] then -1
    else if s[0] == c then 0
    else
      var k := Find(s[1..], c);
      assert s[1..] == s[1..];
      if k == -1 then -1
      else
        assert s[..k + 1] == [s[0]] + s[1..][..k];
        k + 1
  }

  /** Python `s.rfind(c)`: the last index of `c`, or -1. */
  function RFind(s: string, c: char): (r: int)
    ensures -1 <= r < |s|
    ensures r == -1 <==> c !in s
    ensures r >= 0 ==> s[r] == c && c !in s[r + 1..]
  {
    if s == [] then -1
    else if s[|s| - 1] == c then |s| - 1
    else
      var k := RFind(s[..|s| - 1], c);
      assert s == s[..|s| - 1] + [s[|s| - 1]];
      assert k >= 0 ==> s[k + 1..] == s[..|s| - 1][k + 1..] + [s[|s| - 1]];
      k
  }

  /** An occurrence with none before it is what `Find` returns. */
  lemma FindAt(s: string, c: char, k: nat)
    requires k < |s| && s[k] == c && c !in s[..k]
    ensures Find(s, c) == k
  {
  }

  /** An occurrence with none after it is what `RFind` returns. */
  lemma RFindAt(s: string, c: char, k: nat)
    requires k < |s| && s[k] == c && c !in s[k + 1..]
    ensures RFind(s, c) == k
  {
  }

  /** The number of occurrences of `c` in `s`. */
  function Count(s: string, c: char): nat {
    multiset(s)[c]
  }

  /** Python `s.split(sep)` for a one-character separator: the pieces between separators,
      empty pieces included. */
  function Split(s: string, sep: char): (r: seq<string>)
    ensures |r| >= 1
    decreases |s|
  {
    var k := Find(s, sep);
    if k == -1 then [s] else [s[..k]] + Split(s[k + 1..], sep)
  }

  /** `Split` yields one more piece than there are separators. */
  lemma {:induction false} SplitCount(s: string, sep: char)
    ensures |Split(s, sep)| == Count(s, sep) + 1
    decreases |s|
  {
    var k := Find(s, sep);
    if k == -1 {
      assert multiset(s)[sep] == 0;
    } else {
      var rest := s[k + 1..];
      SplitCount(rest, sep);
      assert s == s[..k] + ([s[k]] + rest);
      assert multiset(s) == multiset(s[..k]) + (multiset([s[k]]) + multiset(rest));
      assert multiset(s[..k])[sep] == 0;
    }
  }

  /** No piece of `Split` holds the separator. */
  lemma {:induction false} SplitPieces(s: string, sep: char)
    ensures forall i :: 0 <= i < |Split(s, sep)| ==> sep !in Split(s, sep)[i]
    decreases |s|
  {
    var k := Find(s, sep);
    if k != -1 {
      var rest := s[k + 1..];
      SplitPieces(rest, sep);
      var r := Split(s, sep);
      assert r == [s[..k]] + Split(rest, sep);
      forall i | 0 <= i < |r| ensures sep !in r[i] {
        if i > 0 {
          assert r[i] == Split(rest, sep)[i - 1];
        }
      }
    }
  }

  /** Python `sep.join(parts)`. */
  function Join(parts: seq<string>, sep: string): string {
    if parts == [] then []
    else if |parts| == 1 then parts[0]
    else parts[0] + sep + Join(parts[1..], sep)
  }

  lemma JoinCons(x: string, rest: seq<string>, sep: string)
    requires rest != []
    ensures Join([x] + rest, sep) == x + sep + Join(rest, sep)
  {
    assert ([x] + rest)[0] == x && ([x] + rest)[1..] == rest;
  }

  /** Joining what `Split` cut on the same separator gives back the original string. */
  lemma {:induction false} JoinSplit(s: string, sep: char)
    ensures Join(Split(s, sep), [sep]) == s
    decreases |s|
  {
    var k := Find(s, sep);
    if k == -1 {
      assert Split(s, sep) == [s];
    } else {
      var rest := s[k + 1..];
      var tail := Split(rest, sep);
      JoinSplit(rest, sep);
      assert Split(s, sep) == [s[..k]] + tail;
      JoinCons(s[..k], tail, [sep]);
      assert s == s[..k] + [sep] + rest;
    }
  }
  /** Splitting pieces joined on a separator none of them contains gives the pieces back. */
  lemma {:induction false} SplitJoin(parts: seq<string>, sep: char)
    requires parts != [] && forall i :: 0 <= i < |parts| ==> sep !in parts[i]
    ensures Split(Join(parts, [sep]), sep) == parts
    decreases |parts|
  {
    var s := Join(parts, [sep]);
    if |parts| == 1 {
      assert Find(s, sep) == -1;
    } else {
      var head := parts[0];
      var rest := Join(parts[1..], [sep]);
      assert s == head + [sep] + rest;
      var n := |head|;
      assert s[..n] == head && s[n] == sep;
      assert Find(s, sep) == n;
      assert s[n + 1..] == rest;
      SplitJoin(parts[1..], sep);
      assert [head] + parts[1..] == parts;
    }
  }


  predicate IsDigit(c: char) {
    '0' <= c <= '9'
  }

  function DigitChar(d: nat): (c: char)
    requires d < 10
    ensures IsDigit(c) && c as int - '0' as int == d
  {
    ('0' as int + d) as char
  }

  /** The decimal rendering of `n`, as JavaScript's template literals and `str()` write it. */
  function NatToString(n: nat): (r: string)
    ensures |r| >= 1 && forall i :: 0 <= i < |r| ==> IsDigit(r[i])
  {
    if n < 10 then [DigitChar(n)] else NatToString(n / 10) + [DigitChar(n % 10)]
  }

  /** The decimal rendering of an integer, with a leading '-' when it is negative. */
  function IntToString(n: int): string {
    if n < 0 then "-" + NatToString(-n) else NatToString(n)
  }

  /** The value of a string of decimal digits. */
  function DigitsValue(s: string): nat
    requires forall i :: 0 <= i < |s| ==> IsDigit(s[i])
  {
    if s == [] then 0
    else
      assert IsDigit(s[|s| - 1]);
      10 * DigitsValue(s[..|s| - 1]) + (s[|s| - 1] as int - '0' as int)
  }

  /** Reading back a rendered number gives the number. */
  lemma {:induction false} NatToStringRoundTrip(n: nat)
    ensures DigitsValue(NatToString(n)) == n
  {
    if n >= 10 {
      var s := NatToString(n);
      NatToStringRoundTrip(n / 10);
      assert s[..|s| - 1] == NatToString(n / 10);
    }
  }

  /** The length of the run of digits at the front of `s`. */
  function DigitRun(s: string): (k: nat)
    ensures k <= |s|
    ensures forall i :: 0 <= i < k ==> IsDigit(s[i])
    ensures k < |s| ==> !IsDigit(s[k])
  {
    if s != [] && IsDigit(s[0]) then 1 + DigitRun(s[1..]) else 0
  }

  /** The digit run of a rendered number followed by a non-digit is exactly the rendering. */
  lemma {:induction false} DigitRunOfRendering(digits: string, rest: string)
    requires forall i :: 0 <= i < |digits| ==> IsDigit(digits[i])
    requires rest == [] || !IsDigit(rest[0])
    ensures DigitRun(digits + rest) == |digits|
  {
    if digits != [] {
      DigitRunOfRendering(digits[1..], rest);
      assert (digits + rest)[1..] == digits[1..] + rest;
    }
  }
}
