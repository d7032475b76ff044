/**
 * Values shared by every part of the model: optional and fallible results,
 * the insertion-ordered dictionary that both Python and Ruby use, and the
 * text primitives (whitespace, digits, splitting, joining, replacing,
 * number parsing) that the scripts lean on.
 */
module Common {

  datatype Option<+T> = None | Some(value: T)

  /** A computation that either yields a value or stops with an error
      (a raised exception or an `exit` with a non-zero status). */
  datatype Result<+T, +E> = Ok(value: T) | Err(error: E)

  // ---------------------------------------------------------------------
  // Insertion-ordered dictionaries (Python dict, Ruby Hash)
  // ---------------------------------------------------------------------

  /** A dictionary with string keys that remembers the order in which its
      keys were first inserted. */
  datatype OMap<+V> = OMap(keys: seq<string>, vals: map<string, V>)

  predicate Distinct(s: seq<string>)
  {
    forall i, j :: 0 <= i < j < |s| ==> s[i] != s[j]
  }

  predicate WellFormed<V>(m: OMap<V>)
  {
    Distinct(m.keys) && (forall k | k in m.vals :: k in m.keys) && (forall k | k in m.keys :: k in m.vals)
  }

  function EmptyMap<V>(): (m: OMap<V>)
    ensures WellFormed(m) && m.keys == [] && m.vals == map[]
  {
    OMap([], map[])
  }

  /** Assignment `d[k] = v`: an existing key keeps its place, a new key goes last. */
  function Put<V>(m: OMap<V>, k: string, v: V): (r: OMap<V>)
    requires WellFormed(m)
    ensures WellFormed(r)
    ensures r.vals == m.vals[k := v]
    ensures k in m.vals ==> r.keys == m.keys
    ensures k !in m.vals ==> r.keys == m.keys + [k]
  {
    if k in m.vals then OMap(m.keys, m.vals[k := v])
    else
      var r := OMap(m.keys + [k], m.vals[k := v]);
      assert forall i :: 0 <= i < |m.keys| ==> r.keys[i] == m.keys[i] && m.keys[i] in m.vals;
      r
  }

  // ---------------------------------------------------------------------
  // Characters
  // ---------------------------------------------------------------------

  /** The ASCII whitespace class matched by `\s` and removed by `strip`. */
  predicate IsSpace(c: char)
  {
    c == ' ' || c == '\t' || c == '\n' || c == '\r' || c == '\U{000B}' || c == '\U{000C}'
  }

  predicate IsDigit(c: char)
  {
    '0' <= c <= '9'
  }

  predicate AllDigits(s: string)
  {
    forall i :: 0 <= i < |s| ==> IsDigit(s[i])
  }

  predicate NoSpace(s: string)
  {
    forall i :: 0 <= i < |s| ==> !IsSpace(s[i])
  }

  /** ASCII upper-casing of one character, as `upcase` does for plain text. */
  function UpChar(c: char): char
  {
    if 'a' <= c <= 'z' then (c as int - 'a' as int + 'A' as int) as char else c
  }

  function Upcase(s: string): (r: string)
    ensures |r| == |s|
    ensures forall i :: 0 <= i < |s| ==> r[i] == UpChar(s[i])
  {
    if s == [] then [] else [UpChar(s[0])] + Upcase(s[1..])
  }

  // ---------------------------------------------------------------------
  // Searching
  // ---------------------------------------------------------------------

  predicate StartsWith(s: string, p: string)
  {
    |p| <= |s| && s[..|p|] == p
  }

  predicate EndsWith(s: string, p: string)
  {
    |p| <= |s| && s[|s| - |p|..] == p
  }

  predicate OccursAt(s: string, w: string, i: int)
  {
    0 <= i && i + |w| <= |s| && s[i..i + |w|] == w
  }

  predicate Contains(s: string, w: string)
  {
    exists i | 0 <= i <= |s| :: OccursAt(s, w, i)
  }

  /** Index of the first occurrence of `c`, if any. */
  function Find(s: string, c: char): (r: Option<nat>)
    ensures r.None? <==> c !in s
    ensures r.Some? ==> r.value < |s| && s[r.value] == c && c !in s[..r.value]
  {
    if s == [] then None
    else if s[0] == c then Some(0)
    else match Find(s[1..], c)
      case None => None
      case Some(i) =>
        assert s[1..][..i] == s[1..i + 1];
        Some(i + 1)
  }

  /** Python `s.split(c, 1)` unpacked into two parts: the text before the first
      `c` and the text after it; None when `c` does not occur. */
  function SplitOnce(s: string, c: char): (r: Option<(string, string)>)
    ensures r.None? <==> c !in s
    ensures r.Some? ==> s == r.value.0 + [c] + r.value.1 && c !in r.value.0
  {
    match Find(s, c)
    case None => None
    case Some(i) =>
      assert s == s[..i] + [c] + s[i + 1..];
      Some((s[..i], s[i + 1..]))
  }

  /** Python `s.split(c)`: every piece, empty ones included. */
  function SplitChar(s: string, c: char): (r: seq<string>)
    ensures |r| >= 1
    decreases |s|
  {
    match SplitOnce(s, c)
    case None => [s]
    case Some((a, b)) => [a] + SplitChar(b, c)
  }

  /** The last piece of `a`, a separator and `b`, with no separator in `b`, is `b`. */
  lemma SplitCharLast(a: string, b: string, c: char)
    requires c !in b
    ensures var parts := SplitChar(a + [c] + b, c); parts[|parts| - 1] == b
  {
    SplitCharAppend(a, b, c);
    assert SplitChar(b, c) == [b];
  }

  /** Splitting at a separator splits both sides: the pieces of `a + [c] + b`
      are the pieces of `a` followed by the pieces of `b`. */
  lemma {:induction false} SplitCharAppend(a: string, b: string, c: char)
    ensures SplitChar(a + [c] + b, c) == SplitChar(a, c) + SplitChar(b, c)
    decreases |a|
  {
    if c !in a {
      SplitOnceFirst(a, b, c);
      assert SplitChar(a, c) == [a];
    } else {
      var x, y := SplitOnce(a, c).value.0, SplitOnce(a, c).value.1;
      SplitOnceInPrefix(a, [c] + b, c);
      assert a + [c] + b == a + ([c] + b);
      assert y + ([c] + b) == y + [c] + b;
      SplitCharAppend(y, b, c);
    }
  }

  /** When `a` has no separator, the first one is the one right after `a`. */
  lemma SplitOnceFirst(a: string, b: string, c: char)
    requires c !in a
    ensures SplitOnce(a + [c] + b, c) == Some((a, b))
  {
    var s := a + [c] + b;
    assert s[|a|] == c;
    assert forall i | 0 <= i < |a| :: s[i] == a[i];
    assert s[..|a|] == a && s[|a| + 1..] == b;
  }

  /** When `a` holds the separator, text after `a` does not move the first one. */
  lemma SplitOnceInPrefix(a: string, t: string, c: char)
    requires c in a
    ensures SplitOnce(a + t, c).Some? && SplitOnce(a, c).Some?
    ensures SplitOnce(a + t, c).value == (SplitOnce(a, c).value.0, SplitOnce(a, c).value.1 + t)
  {
    var s := a + t;
    var i := Find(a, c).value;
    assert s[i] == a[i] == c;
    assert s[..i] == a[..i];
    var j := Find(s, c).value;
    FirstIndexUnique(s, c, i, j);
    assert s[i + 1..] == a[i + 1..] + t;
  }

  /** There is only one first occurrence. */
  lemma FirstIndexUnique(s: string, c: char, i: nat, j: nat)
    requires i < |s| && j < |s| && s[i] == c && s[j] == c && c !in s[..i] && c !in s[..j]
    ensures i == j
  {
    assert forall k | 0 <= k < i :: s[..i][k] == s[k];
    assert forall k | 0 <= k < j :: s[..j][k] == s[k];
  }

  /** `sep.join(parts)` / `parts.join(sep)`. */
  function Join(parts: seq<string>, sep: string): string
  {
    if parts == [] then ""
    else if |parts| == 1 then parts[0]
    else parts[0] + sep + Join(parts[1..], sep)
  }

  /** Splitting pieces joined with a separator they do not hold gives the
      pieces back. */
  lemma {:induction false} SplitJoin(parts: seq<string>, c: char)
    requires parts != []
    requires forall i | 0 <= i < |parts| :: c !in parts[i]
    ensures SplitChar(Join(parts, [c]), c) == parts
  {
    if |parts| > 1 {
      SplitJoin(parts[1..], c);
      var a := parts[0];
      var rest := Join(parts[1..], [c]);
      SplitOnceFirst(a, rest, c);
      assert SplitChar(a + [c] + rest, c) == [a] + SplitChar(rest, c);
      assert parts == [a] + parts[1..];
    } else {
      assert SplitOnce(parts[0], c).None?;
    }
  }

  lemma {:induction false} SplitCharJoin(s: string, c: char)
    ensures Join(SplitChar(s, c), [c]) == s
    decreases |s|
  {
    match SplitOnce(s, c)
    case None =>
    case Some((a, b)) =>
      SplitCharJoin(b, c);
      assert SplitChar(s, c) == [a] + SplitChar(b, c);
  }

  // ---------------------------------------------------------------------
  // Whitespace handling
  // ---------------------------------------------------------------------

  /** Python `rstrip()`: drop trailing whitespace. */
  function RStrip(s: string): (r: string)
    ensures StartsWith(s, r)
    ensures r == [] || !IsSpace(r[|r| - 1])
    ensures forall i :: |r| <= i < |s| ==> IsSpace(s[i])
  {
    if s == [] || !IsSpace(s[|s| - 1]) then s else RStrip(s[..|s| - 1])
  }

  /** Python `lstrip()`: drop leading whitespace. */
  function LStrip(s: string): (r: string)
    ensures EndsWith(s, r)
    ensures r == [] || !IsSpace(r[0])
    ensures forall i :: 0 <= i < |s| - |r| ==> IsSpace(s[i])
  {
    s[RunEnd(s, 0)..]
  }

  /** Python `strip()`. */
  function Strip(s: string): string
  {
    LStrip(RStrip(s))
  }

  /** Python `rstrip(c)` for a single character `c`. */
  function RStripChar(s: string, c: char): (r: string)
    ensures StartsWith(s, r)
    ensures r == [] || r[|r| - 1] != c
    ensures forall i :: |r| <= i < |s| ==> s[i] == c
  {
    if s == [] || s[|s| - 1] != c then s else RStripChar(s[..|s| - 1], c)
  }

  /** Index of the first whitespace character, if any. */
  function FindSpace(s: string): (r: Option<nat>)
    ensures r.None? <==> NoSpace(s)
    ensures r.Some? ==> r.value < |s| && IsSpace(s[r.value]) && NoSpace(s[..r.value])
  {
    if s == [] then None
    else if IsSpace(s[0]) then Some(0)
    else match FindSpace(s[1..])
      case None => None
      case Some(i) =>
        assert s[1..][..i] == s[1..i + 1];
        Some(i + 1)
  }

  /** End of the whitespace run that starts at `i`. */
  function RunEnd(s: string, i: nat): (j: nat)
    requires i <= |s|
    ensures i <= j <= |s|
    ensures j == |s| || !IsSpace(s[j])
    ensures forall k :: i <= k < j ==> IsSpace(s[k])
    decreases |s| - i
  {
    if i == |s| || !IsSpace(s[i]) then i else RunEnd(s, i + 1)
  }

  /** Python `re.split(r'\s+', s)`: the pieces between maximal whitespace runs,
      with an empty first or last piece when `s` starts or ends with whitespace. */
  function SplitWs(s: string): (r: seq<string>)
    ensures |r| >= 1
    ensures forall k :: 0 <= k < |r| ==> NoSpace(r[k])
    ensures |r| == 1 <==> NoSpace(s)
    ensures NoSpace(s) ==> r == [s]
    decreases |s|
  {
    match FindSpace(s)
    case None => [s]
    case Some(i) =>
      var j := RunEnd(s, i);
      [s[..i]] + SplitWs(s[j..])
  }

  // ---------------------------------------------------------------------
  // Literal replacement
  // ---------------------------------------------------------------------

  /** Replace every occurrence of `needle`, scanning left to right without
      overlaps (`gsub` with a plain string, `re.sub` with a pattern that has
      no special characters). An empty needle matches before every
      character and at the end. */
  function ReplaceAll(s: string, needle: string, repl: string): string
    decreases |s|
  {
    if needle == [] then
      (if s == [] then repl else repl + [s[0]] + ReplaceAll(s[1..], needle, repl))
    else if s == [] then []
    else if StartsWith(s, needle) then repl + ReplaceAll(s[|needle|..], needle, repl)
    else [s[0]] + ReplaceAll(s[1..], needle, repl)
  }

  /** Replacing a non-empty text by itself changes nothing. */
  lemma {:induction false} ReplaceAllSelf(s: string, needle: string)
    requires needle != []
    ensures ReplaceAll(s, needle, needle) == s
    decreases |s|
  {
    if s == [] {
    } else if StartsWith(s, needle) {
      ReplaceAllSelf(s[|needle|..], needle);
      assert s == needle + s[|needle|..];
    } else {
      ReplaceAllSelf(s[1..], needle);
      assert s == [s[0]] + s[1..];
    }
  }

  /** Text without an occurrence of the needle is left alone. */
  lemma {:induction false} ReplaceAllAbsent(s: string, needle: string, repl: string)
    requires needle != [] && !Contains(s, needle)
    ensures ReplaceAll(s, needle, repl) == s
    decreases |s|
  {
    if s != [] {
      if StartsWith(s, needle) {
        assert OccursAt(s, needle, 0);
      }
      if Contains(s[1..], needle) {
        var i :| 0 <= i <= |s[1..]| && OccursAt(s[1..], needle, i);
        assert s[i + 1..i + 1 + |needle|] == s[1..][i..i + |needle|];
        assert OccursAt(s, needle, i + 1);
      }
      ReplaceAllAbsent(s[1..], needle, repl);
      assert s == [s[0]] + s[1..];
    }
  }

  // ---------------------------------------------------------------------
  // Numbers as text
  // ---------------------------------------------------------------------

  function DigitValue(c: char): nat
    requires IsDigit(c)
  {
    c as int - '0' as int
  }

  /** Decimal value of a string of digits (most significant first). */
  function DigitsValue(s: string): nat
    requires AllDigits(s)
  {
    if s == [] then 0 else 10 * DigitsValue(s[..|s| - 1]) + DigitValue(s[|s| - 1])
  }

  function DigitChar(d: nat): (c: char)
    requires d < 10
    ensures IsDigit(c) && DigitValue(c) == d
  {
    ('0' as int + d) as char
  }

  /** Decimal spelling of a natural number, without leading zeros. */
  function NatToString(n: nat): (r: string)
    ensures |r| >= 1 && AllDigits(r)
    ensures DigitsValue(r) == n
    ensures n > 0 ==> r[0] != '0'
  {
    if n < 10 then [DigitChar(n)]
    else
      var r := NatToString(n / 10) + [DigitChar(n % 10)];
      assert r[..|r| - 1] == NatToString(n / 10);
      r
  }

  /** Decimal spelling of an integer, with a leading `-` when negative. */
  function IntToString(n: int): (r: string)
    ensures |r| >= 1
    ensures n >= 0 ==> r == NatToString(n)
    ensures n < 0 ==> r == "-" + NatToString(-n)
  {
    if n >= 0 then NatToString(n) else "-" + NatToString(-n)
  }

  /** Digits separated by single underscores, as Python's `int()` accepts. */
  predicate UnderscoredDigits(s: string)
  {
    |s| >= 1 && IsDigit(s[0]) && IsDigit(s[|s| - 1]) &&
    (forall i :: 0 <= i < |s| ==> IsDigit(s[i]) || s[i] == '_') &&
    (forall i :: 0 <= i < |s| - 1 ==> !(s[i] == '_' && s[i + 1] == '_'))
  }

  function DropUnderscores(s: string): (r: string)
    requires forall i :: 0 <= i < |s| ==> IsDigit(s[i]) || s[i] == '_'
    ensures AllDigits(r)
    ensures AllDigits(s) ==> r == s
  {
    if s == [] then []
    else if s[0] == '_' then DropUnderscores(s[1..])
    else [s[0]] + DropUnderscores(s[1..])
  }

  /** Python `int(s)` on text: surrounding whitespace, an optional sign and
      underscore-separated decimal digits; None where Python raises. */
  function PyInt(s: string): (r: Option<int>)
    ensures AllDigits(s) && s != [] ==> r == Some(DigitsValue(s) as int)
  {
    var t := Strip(s);
    var neg := |t| >= 1 && t[0] == '-';
    var body := if |t| >= 1 && (t[0] == '-' || t[0] == '+') then t[1..] else t;
    if !UnderscoredDigits(body) then None
    else
      var v := DigitsValue(DropUnderscores(body));
      Some(if neg then -(v as int) else v as int)
  }
}
