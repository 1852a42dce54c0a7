/** Small shared vocabulary: optional values, results and the string
    operations the Python code relies on (`in`, `startswith`, `lower`, `str`). */
module Util {

  datatype Option<+T> = None | Some(value: T) {
    function GetOr(default: T): T {
      match this
      case Some(v) => v
      case None => default
    }
  }

  datatype Result<+T> = Ok(value: T) | Err(msg: string) {
    predicate IsFailure() { Err? }

    function PropagateFailure<U>(): Result<U>
      requires Err?
    {
      Err(msg)
    }

    function Extract(): T
      requires Ok?
    {
      value
    }
  }

  /** A decoded JSON value (numbers are integers here). */
  datatype Json = JNull | JBool(b: bool) | JInt(i: int) | JStr(s: string) | JArr(items: seq<Json>) | JObj(fields: map<string, Json>)

  /** The outcome of one `subprocess.run`: the command ran and exited with a
      code and its output, its timeout expired, or starting it raised. */
  datatype Run = Exited(code: int, stdout: string, stderr: string) | TimeoutExpired | Errored(error: string)

  /** Python truthiness of a decoded JSON value. */
  predicate Truthy(j: Json) {
    match j
    case JNull => false
    case JBool(b) => b
    case JInt(i) => i != 0
    case JStr(s) => s != []
    case JArr(items) => items != []
    case JObj(fields) => fields != map[]
  }

  /** The integer a JSON number stands for in Python arithmetic (`bool` is an `int`). */
  function IntValue(j: Json): Option<int> {
    match j
    case JInt(i) => Some(i)
    case JBool(b) => Some(if b then 1 else 0)
    case _ => None
  }

  /** Python's `key in params`: dictionary keys, list items or substrings; None where `in` raises. */
  function Has(params: Json, key: string): Option<bool> {
    match params
    case JObj(fields) => Some(key in fields)
    case JArr(items) => Some(JStr(key) in items)
    case JStr(s) => Some(Contains(s, key))
    case _ => None
  }

  /** `d.get(key, default)`. */
  function Get(d: map<string, Json>, key: string, default: Json): (r: Json)
    ensures key in d ==> r == d[key]
    ensures key !in d ==> r == default
  {
    if key in d then d[key] else default
  }

  /** Some element of a non-empty set; used to walk a dictionary's keys. */
  method Pick<T>(s: set<T>) returns (x: T)
    requires s != {}
    ensures x in s
  {
    x :| x in s;
  }

  /** `sub` occurs in `s` starting at index `i`. */
  predicate OccursAt(s: string, sub: string, i: int) {
    0 <= i && i + |sub| <= |s| && s[i..i + |sub|] == sub
  }

  /** `sub in s` for strings. */
  predicate Contains(s: string, sub: string) {
    exists i :: 0 <= i <= |s| && OccursAt(s, sub, i)
  }

  predicate StartsWith(s: string, prefix: string) {
    |prefix| <= |s| && s[..|prefix|] == prefix
  }

  predicate EndsWith(s: string, suffix: string) {
    |suffix| <= |s| && s[|s| - |suffix|..] == suffix
  }

  /** Index of the first occurrence of `sub` in `s` (Python's `str.find`), or None. */
  function Find(s: string, sub: string): (r: Option<nat>)
    ensures r.Some? ==> OccursAt(s, sub, r.value)
    ensures r.Some? ==> forall j :: 0 <= j < r.value ==> !OccursAt(s, sub, j)
    ensures r.None? <==> !Contains(s, sub)
  {
    FindFrom(s, sub, 0)
  }

  function FindFrom(s: string, sub: string, k: nat): (r: Option<nat>)
    requires k <= |s| + 1
    ensures r.Some? ==> k <= r.value && OccursAt(s, sub, r.value)
    ensures r.Some? ==> forall j :: k <= j < r.value ==> !OccursAt(s, sub, j)
    ensures r.None? ==> forall j :: k <= j ==> !OccursAt(s, sub, j)
    decreases |s| + 1 - k
  {
    if k + |sub| > |s| then None
    else if s[k..k + |sub|] == sub then Some(k)
    else FindFrom(s, sub, k + 1)
  }

  /** Positions where `sub` cannot start may be skipped by the scan. */
  lemma {:induction false} FindFromSkip(s: string, sub: string, k: nat, n: nat)
    requires k <= n <= |s| + 1
    requires forall j :: k <= j < n ==> !OccursAt(s, sub, j)
    ensures FindFrom(s, sub, k) == FindFrom(s, sub, n)
    decreases n - k
  {
    if k < n && k + |sub| <= |s| {
      FindFromSkip(s, sub, k + 1, n);
    }
  }

  /** No occurrence of `sub` starts at a position holding a character other than its first. */
  lemma NoOccurrenceAt(s: string, sub: string, j: int)
    requires sub != [] && 0 <= j < |s| && s[j] != sub[0]
    ensures !OccursAt(s, sub, j)
  {
  }

  /** An occurrence inside a slice is an occurrence in the whole text. */
  lemma OccursInSlice(s: string, lo: nat, hi: nat, sub: string, k: nat)
    requires lo <= hi <= |s| && OccursAt(s[lo..hi], sub, k)
    ensures OccursAt(s, sub, lo + k)
  {
    forall t | 0 <= t < |sub|
      ensures s[lo + k..lo + k + |sub|][t] == sub[t]
    {
      assert s[lo..hi][k..k + |sub|][t] == sub[t];
    }
  }

  /** A slice of a text without `sub` has none either. */
  lemma SliceLacks(s: string, i: nat, j: nat, sub: string)
    requires i <= j <= |s| && !Contains(s, sub)
    ensures !Contains(s[i..j], sub)
  {
    if Contains(s[i..j], sub) {
      var k :| 0 <= k <= |s[i..j]| && OccursAt(s[i..j], sub, k);
      OccursInSlice(s, i, j, sub, k);
    }
  }

  /** An occurrence at `j` would put `sub[d]` at `j + d`. */
  lemma NotAt(s: string, sub: string, j: nat, d: nat)
    requires d < |sub| && j + d < |s| && s[j + d] != sub[d]
    ensures !OccursAt(s, sub, j)
  {
  }

  /** The scan for `sub` passes over a stretch `u` lacking its first character. */
  lemma {:induction false} SkipRegion(s: string, sub: string, lo: nat, u: string)
    requires sub != [] && sub[0] !in u && lo + |u| <= |s| && s[lo..lo + |u|] == u
    ensures FindFrom(s, sub, lo) == FindFrom(s, sub, lo + |u|)
    decreases |u|
  {
    if u != [] {
      assert s[lo] == u[0];
      NoOccurrenceAt(s, sub, lo);
      assert s[lo + 1..lo + 1 + |u[1..]|] == u[1..];
      SkipRegion(s, sub, lo + 1, u[1..]);
    }
  }

  /** In `u + sub + w`, when no occurrence starts inside `u`, the first one is right after `u`. */
  lemma FindAfterPrefix(u: string, sub: string, w: string)
    requires forall j :: 0 <= j < |u| ==> !OccursAt(u + sub + w, sub, j)
    ensures Find(u + sub + w, sub) == Some(|u|)
  {
    var s := u + sub + w;
    FindFromSkip(s, sub, 0, |u|);
    assert s[|u|..|u| + |sub|] == sub;
  }

  /** Index of the last occurrence of `sub` in `s` (Python's `str.rfind`), or None. */
  function RFind(s: string, sub: string): (r: Option<nat>)
    ensures r.Some? ==> OccursAt(s, sub, r.value)
    ensures r.Some? ==> forall j :: r.value < j ==> !OccursAt(s, sub, j)
    ensures r.None? <==> !Contains(s, sub)
  {
    RFindBelow(s, sub, |s| + 1)
  }

  /** The last occurrence of `sub` starting before `k`. */
  function RFindBelow(s: string, sub: string, k: nat): (r: Option<nat>)
    requires k <= |s| + 1
    ensures r.Some? ==> r.value < k && OccursAt(s, sub, r.value)
    ensures r.Some? ==> forall j :: r.value < j < k ==> !OccursAt(s, sub, j)
    ensures r.None? ==> forall j :: j < k ==> !OccursAt(s, sub, j)
  {
    if k == 0 then None
    else if OccursAt(s, sub, k - 1) then Some(k - 1)
    else RFindBelow(s, sub, k - 1)
  }

  function LowerChar(c: char): char {
    if 'A' <= c <= 'Z' then (c as int + 32) as char else c
  }

  /** ASCII `str.lower()`; other characters are left alone. */
  function Lower(s: string): (r: string)
    ensures |r| == |s|
    ensures forall i :: 0 <= i < |s| ==> r[i] == LowerChar(s[i])
  {
    if s == [] then [] else [LowerChar(s[0])] + Lower(s[1..])
  }

  function DigitChar(d: nat): (c: char)
    requires d < 10
    ensures '0' <= c <= '9' && c as int == '0' as int + d
  {
    ('0' as int + d) as char
  }

  predicate IsDigit(c: char) {
    '0' <= c <= '9'
  }

  /** `str(n)` for a natural number. */
  function NatToString(n: nat): (r: string)
    ensures |r| >= 1
    ensures forall i :: 0 <= i < |r| ==> IsDigit(r[i])
    decreases n
  {
    if n < 10 then [DigitChar(n)] else NatToString(n / 10) + [DigitChar(n % 10)]
  }

  lemma NatToStringLength(n: nat)
    ensures n >= 10 ==> |NatToString(n)| >= 2
  {
  }

  /** Different numbers print differently. */
  lemma {:induction false} NatToStringInjective(a: nat, b: nat)
    requires NatToString(a) == NatToString(b)
    ensures a == b
  {
    NatToStringLength(a);
    NatToStringLength(b);
    if a >= 10 && b >= 10 {
      var sa, sb := NatToString(a), NatToString(b);
      assert sa[..|sa| - 1] == NatToString(a / 10);
      assert sb[..|sb| - 1] == NatToString(b / 10);
      NatToStringInjective(a / 10, b / 10);
    }
  }

  /** `str(i)` for an integer. */
  function IntToString(i: int): (r: string)
    ensures r != [] && (r[0] == '-' <==> i < 0)
  {
    if i < 0 then "-" + NatToString(-i) else NatToString(i)
  }

  lemma IntToStringInjective(a: int, b: int)
    requires IntToString(a) == IntToString(b)
    ensures a == b
  {
    if a < 0 && b < 0 {
      assert NatToString(-a) == IntToString(a)[1..];
      NatToStringInjective(-a, -b);
    } else if a >= 0 && b >= 0 {
      NatToStringInjective(a, b);
    }
  }

  /** Reading back the digits `str(n)` prints gives `n`. */
  lemma {:induction false} DigitsValueOfNatToString(n: nat)
    ensures AllDigits(NatToString(n)) && DigitsValue(NatToString(n)) == n
    decreases n
  {
    if n >= 10 {
      DigitsValueOfNatToString(n / 10);
      var s := NatToString(n);
      assert s[..|s| - 1] == NatToString(n / 10);
    }
  }

  function DigitValue(c: char): nat
    requires IsDigit(c)
  {
    c as int - '0' as int
  }

  predicate AllDigits(s: string) {
    forall i :: 0 <= i < |s| ==> IsDigit(s[i])
  }

  /** Value of a non-empty run of decimal digits (`int(s)`). */
  function DigitsValue(s: string): nat
    requires AllDigits(s)
  {
    if s == [] then 0 else DigitsValue(s[..|s| - 1]) * 10 + DigitValue(s[|s| - 1])
  }

  /** The longest run of digits at the start of `s`. */
  function LeadingDigits(s: string): (r: string)
    ensures AllDigits(r) && r <= s
    ensures |r| < |s| ==> !IsDigit(s[|r|])
  {
    if s == [] || !IsDigit(s[0]) then [] else [s[0]] + LeadingDigits(s[1..])
  }

  /** `int(s)` on a decimal literal: surrounding white space, an optional sign, then digits. */
  function ParseInt(s: string): (r: Option<int>)
    ensures r.Some? ==> Strip(s) != []
    ensures Strip(s) != [] && AllDigits(Strip(s)) ==> r == Some(DigitsValue(Strip(s)))
  {
    var t := Strip(s);
    if t != [] && (t[0] == '-' || t[0] == '+') then
      var d := t[1..];
      if d != [] && AllDigits(d) then Some(if t[0] == '-' then 0 - DigitsValue(d) as int else DigitsValue(d)) else None
    else if t != [] && AllDigits(t) then Some(DigitsValue(t))
    else None
  }

  /** A printed integer has no surrounding whitespace. */
  lemma IntToStringStripped(i: int)
    ensures Strip(IntToString(i)) == IntToString(i)
  {
    var s := IntToString(i);
    var n: nat := if i < 0 then -i else i;
    var digits := NatToString(n);
    assert s[|s| - 1] == digits[|digits| - 1];
    assert IsDigit(digits[|digits| - 1]);
    assert !IsSpace(s[0]) && !IsSpace(s[|s| - 1]);
    StripTrimmed(s);
  }

  /** `int(str(i)) == i`. */
  lemma ParseIntOfIntToString(i: int)
    ensures ParseInt(IntToString(i)) == Some(i)
  {
    var n: nat := if i < 0 then -i else i;
    var d, s := NatToString(n), IntToString(i);
    DigitsValueOfNatToString(n);
    IntToStringStripped(i);
    if i < 0 {
      assert s[0] == '-' && s[1..] == d;
    } else {
      assert s == d && IsDigit(d[0]);
    }
  }

  /** Python truthiness of a string. */
  predicate NonEmpty(s: string) { s != [] }

  predicate IsSpace(c: char) {
    c == ' ' || c == '\t' || c == '\n' || c == '\r'
  }

  function TrimStart(s: string): (r: string)
    ensures |r| <= |s| && (r != [] ==> !IsSpace(r[0]))
  {
    if s != [] && IsSpace(s[0]) then TrimStart(s[1..]) else s
  }

  function TrimEnd(s: string): (r: string)
    ensures |r| <= |s| && (r != [] ==> !IsSpace(r[|r| - 1]) && r[0] == s[0])
  {
    if s != [] && IsSpace(s[|s| - 1]) then TrimEnd(s[..|s| - 1]) else s
  }

  /** The index of the first white space at or after `i`, or `|t|`. */
  function TokenEnd(t: string, i: nat): (r: nat)
    requires i <= |t|
    requires forall k :: 0 <= k < i ==> !IsSpace(t[k])
    ensures i <= r <= |t| && forall k :: 0 <= k < r ==> !IsSpace(t[k])
    ensures r > 0 ==> (t != [] && !IsSpace(t[0]) ==> r >= 1)
    ensures t != [] && !IsSpace(t[0]) ==> r >= 1
    decreases |t| - i
  {
    if i == |t| || IsSpace(t[i]) then i else TokenEnd(t, i + 1)
  }

  /** `s.split()` with no separator: the maximal runs of characters that are
      not white space, in order. */
  function Words(s: string): (r: seq<string>)
    ensures forall i :: 0 <= i < |r| ==> r[i] != [] && forall k :: 0 <= k < |r[i]| ==> !IsSpace(r[i][k])
    decreases |s|
  {
    var t := TrimStart(s);
    if t == [] then []
    else
      var n := TokenEnd(t, 0);
      [t[..n]] + Words(t[n..])
  }

  /** Neither end is white space. */
  predicate Trimmed(s: string) {
    s == [] || (!IsSpace(s[0]) && !IsSpace(s[|s| - 1]))
  }

  /** `str.strip()` over ASCII white space. */
  function Strip(s: string): (r: string)
    ensures Trimmed(r) && |r| <= |s|
  {
    TrimEnd(TrimStart(s))
  }

  /** Stripping a string that has no white space at either end changes nothing. */
  lemma StripTrimmed(s: string)
    requires Trimmed(s)
    ensures Strip(s) == s
  {
    assert TrimStart(s) == s;
  }

  /** What `Strip` keeps is one slice of its input. */
  lemma StripBounds(s: string) returns (i: nat, j: nat)
    ensures i <= j <= |s| && Strip(s) == s[i..j]
  {
    var t := TrimStart(s);
    TrimStartSuffix(s);
    TrimEndPrefix(t);
    i := |s| - |t|;
    j := i + |TrimEnd(t)|;
  }

  /** `TrimStart` keeps a suffix. */
  lemma {:induction false} TrimStartSuffix(s: string)
    ensures TrimStart(s) == s[|s| - |TrimStart(s)|..]
    decreases |s|
  {
    if s != [] && IsSpace(s[0]) {
      TrimStartSuffix(s[1..]);
      assert s[1..][|s| - 1 - |TrimStart(s)|..] == s[|s| - |TrimStart(s)|..];
    }
  }

  /** `TrimEnd` keeps a prefix. */
  lemma {:induction false} TrimEndPrefix(s: string)
    ensures TrimEnd(s) == s[..|TrimEnd(s)|]
    decreases |s|
  {
    if s != [] && IsSpace(s[|s| - 1]) {
      TrimEndPrefix(s[..|s| - 1]);
      assert s[..|s| - 1][..|TrimEnd(s)|] == s[..|TrimEnd(s)|];
    }
  }

  /** No element occurs twice (the key order of a Python dict). */
  predicate Distinct<T(==)>(s: seq<T>) {
    forall i, j :: 0 <= i < j < |s| ==> s[i] != s[j]
  }

  /** Appending a new element keeps a sequence duplicate-free. */
  lemma DistinctAppend<T>(s: seq<T>, x: T)
    requires Distinct(s) && x !in s
    ensures Distinct(s + [x])
  {
    forall i, j | 0 <= i < j < |s + [x]| ensures (s + [x])[i] != (s + [x])[j] {
      if j == |s| {
        assert (s + [x])[i] == s[i] && s[i] in s;
      }
    }
  }

  /** `s` with every occurrence of `x` removed, order kept. */
  function Without<T(==, !new)>(s: seq<T>, x: T): (r: seq<T>)
    ensures forall y :: y in r <==> y in s && y != x
    ensures Distinct(s) ==> Distinct(r)
    ensures x !in s ==> r == s
  {
    if s == [] then []
    else if s[0] == x then Without(s[1..], x)
    else
      var rest := Without(s[1..], x);
      assert Distinct(s) ==> s[0] !in s[1..];
      [s[0]] + rest
  }

  /** A duplicate-free sequence has as many elements as the set of its elements. */
  lemma {:induction false} DistinctCard<T>(s: seq<T>)
    requires Distinct(s)
    ensures |set x | x in s| == |s|
  {
    if s != [] {
      DistinctCard(s[1..]);
      assert (set x | x in s) == (set x | x in s[1..]) + {s[0]};
      assert s[0] !in s[1..] by {
        forall k | 0 <= k < |s[1..]| ensures s[1..][k] != s[0] {
          assert s[1..][k] == s[k + 1];
        }
      }
    }
  }

  /** `s.split(c)`: the pieces between occurrences of `c`. */
  function Split(s: string, c: char): (r: seq<string>)
    ensures |r| >= 1
    ensures forall i :: 0 <= i < |r| ==> c !in r[i]
    ensures c !in s ==> r == [s]
  {
    if s == [] then [[]]
    else
      var rest := Split(s[1..], c);
      assert s == [s[0]] + s[1..];
      if s[0] == c then [[]] + rest else [[s[0]] + rest[0]] + rest[1..]
  }

  /** Every character of `s` other than the separator lies in one of the
      pieces `s.split(c)` gives. */
  lemma {:induction false} SplitKeepsChars(s: string, c: char, i: nat)
    requires i < |s| && s[i] != c
    ensures exists j :: 0 <= j < |Split(s, c)| && s[i] in Split(s, c)[j]
    decreases |s|
  {
    var rest := Split(s[1..], c);
    assert s == [s[0]] + s[1..];
    if i == 0 {
      assert s[0] in Split(s, c)[0];
    } else {
      SplitKeepsChars(s[1..], c, i - 1);
      var j :| 0 <= j < |rest| && s[1..][i - 1] in rest[j];
      if s[0] == c {
        assert Split(s, c)[j + 1] == rest[j];
      } else if j == 0 {
        assert Split(s, c)[0] == [s[0]] + rest[0];
      } else {
        assert Split(s, c)[j] == rest[j];
      }
    }
  }

  /** `c.join(parts)`. */
  function Join(parts: seq<string>, c: char): (r: string)
    ensures |parts| == 1 ==> r == parts[0]
  {
    if parts == [] then []
    else if |parts| == 1 then parts[0]
    else parts[0] + [c] + Join(parts[1..], c)
  }

  /** Splitting and joining again gives the original string back. */
  lemma {:induction false} JoinSplit(s: string, c: char)
    ensures Join(Split(s, c), c) == s
  {
    if s != [] {
      JoinSplit(s[1..], c);
      var rest := Split(s[1..], c);
      if s[0] == c {
        assert Split(s, c) == [[]] + rest;
        assert Join(Split(s, c), c) == [] + [c] + Join(rest, c);
      } else {
        assert Split(s, c) == [[s[0]] + rest[0]] + rest[1..];
        if |rest| == 1 {
        } else {
          assert Join(rest, c) == rest[0] + [c] + Join(rest[1..], c);
        }
      }
    }
  }

  /** Integer division truncating toward zero, as `int(a / b)` does. */
  function TruncDiv(a: int, b: int): (q: int)
    requires b > 0
    ensures a >= 0 ==> q == a / b
    ensures a < 0 ==> q == -((-a) / b)
  {
    if a >= 0 then a / b else -((-a) / b)
  }

  /** `int(v / den * num)` for a non-zero `den` (truncation toward zero). */
  function Scale(v: int, num: int, den: int): (r: int)
    requires den != 0
  {
    if den > 0 then TruncDiv(v * num, den) else TruncDiv(-v * num, -den)
  }

  /** `max(lo, min(hi, v))`. */
  function Clamp(v: int, lo: int, hi: int): (r: int)
    ensures r >= lo
    ensures lo <= hi ==> lo <= r <= hi
    ensures lo <= v <= hi ==> r == v
  {
    if v > hi then (if hi > lo then hi else lo) else if v < lo then lo else v
  }

  function Min(a: int, b: int): int { if a <= b then a else b }

  function Max(a: int, b: int): int { if a >= b then a else b }

  /** `s.replace(pat, rep)`: non-overlapping occurrences, left to right. */
  function ReplaceAll(s: string, pat: string, rep: string): (r: string)
    requires |pat| > 0
    ensures !Contains(s, pat) ==> r == s
    decreases |s|
  {
    if s == [] then []
    else if StartsWith(s, pat) then
      assert OccursAt(s, pat, 0);
      rep + ReplaceAll(s[|pat|..], pat, rep)
    else
      var rest := ReplaceAll(s[1..], pat, rep);
      assert !Contains(s, pat) ==> !Contains(s[1..], pat) by {
        if Contains(s[1..], pat) {
          var i :| 0 <= i <= |s[1..]| && OccursAt(s[1..], pat, i);
          assert s[i + 1..i + 1 + |pat|] == s[1..][i..i + |pat|];
          assert OccursAt(s, pat, i + 1);
        }
      }
      assert !Contains(s, pat) ==> s == [s[0]] + s[1..];
      [s[0]] + rest
  }

  /** One step of `ReplaceAll` where the pattern does not start the text. */
  lemma ReplaceStep(s: string, pat: string, rep: string)
    requires |pat| > 0 && s != [] && !StartsWith(s, pat)
    ensures ReplaceAll(s, pat, rep) == [s[0]] + ReplaceAll(s[1..], pat, rep)
  {
  }

  /** One step of `ReplaceAll` where the pattern starts the text. */
  lemma ReplaceAtStart(s: string, pat: string, rep: string)
    requires |pat| > 0 && StartsWith(s, pat)
    ensures ReplaceAll(s, pat, rep) == rep + ReplaceAll(s[|pat|..], pat, rep)
  {
  }

  lemma NotStartsWith(s: string, pat: string)
    requires s != [] && pat != [] && s[0] != pat[0]
    ensures !StartsWith(s, pat)
  {
    if |pat| <= |s| {
      assert s[..|pat|][0] == s[0];
    }
  }

  lemma ConsRegroup(u: string, x: string)
    requires u != []
    ensures [u[0]] + (u[1..] + x) == u + x
  {
    assert u == [u[0]] + u[1..];
  }

  lemma ConcatTail(u: string, t: string)
    requires u != []
    ensures u + t != [] && (u + t)[0] == u[0] && (u + t)[1..] == u[1..] + t
  {
  }

  lemma TailLacks(u: string, c: char)
    requires u != [] && c !in u
    ensures c !in u[1..] && u[0] != c
  {
    assert u[0] in u;
    assert forall d :: d in u[1..] ==> d in u;
  }

  /** Replacing within a text whose prefix cannot start the pattern leaves
      the prefix alone. */
  lemma {:induction false} ReplaceSkipsPlain(u: string, t: string, pat: string, rep: string)
    requires |pat| > 0 && pat[0] !in u
    ensures ReplaceAll(u + t, pat, rep) == u + ReplaceAll(t, pat, rep)
    decreases |u|
  {
    if u == [] {
      assert u + t == t;
    } else {
      ConcatTail(u, t);
      TailLacks(u, pat[0]);
      NotStartsWith(u + t, pat);
      ReplaceStep(u + t, pat, rep);
      ReplaceSkipsPlain(u[1..], t, pat, rep);
      ConsRegroup(u, ReplaceAll(t, pat, rep));
    }
  }

  /** A character `\w` matches, over ASCII. */
  predicate IsWordChar(c: char) {
    'a' <= c <= 'z' || 'A' <= c <= 'Z' || '0' <= c <= '9' || c == '_'
  }

  /** A string lacking one of the characters of `sub` does not contain `sub`. */
  lemma MissingCharNotContained(s: string, sub: string, c: char)
    requires c in sub && c !in s
    ensures !Contains(s, sub)
  {
  }

  // ---------------------------------------------------------------------
  // Decimal text: `float(s)` on plain decimal literals
  // ---------------------------------------------------------------------

  /** `10^n`. */
  function Pow10(n: nat): (r: nat)
    ensures r >= 1
  {
    if n == 0 then 1 else 10 * Pow10(n - 1)
  }

  /** A run of `n` digits denotes less than `10^n`. */
  lemma {:induction false} DigitsBelowPow(digits: string)
    requires AllDigits(digits)
    ensures DigitsValue(digits) < Pow10(|digits|)
    decreases |digits|
  {
    if digits != [] {
      var init := digits[..|digits| - 1];
      assert AllDigits(init);
      DigitsBelowPow(init);
      assert DigitsValue(digits) == 10 * DigitsValue(init) + DigitValue(digits[|digits| - 1]);
    }
  }

  lemma RatioBelowOne(n: nat, p: nat)
    requires n < p
    ensures 0.0 <= (n as real) / (p as real) < 1.0
  {
    assert (n as real) < (p as real);
  }

  /** The value of a digit string read as a fraction after the point. */
  function Fraction(digits: string): (r: real)
    requires AllDigits(digits)
    ensures 0.0 <= r < 1.0
  {
    var n := DigitsValue(digits);
    var p := Pow10(|digits|);
    DigitsBelowPow(digits);
    RatioBelowOne(n, p);
    (n as real) / (p as real)
  }

  /** Digits with at most one point among them and at least one digit. */
  predicate UnsignedText(s: string) {
    (exists i :: 0 <= i < |s| && IsDigit(s[i]))
    && (forall i :: 0 <= i < |s| ==> IsDigit(s[i]) || s[i] == '.')
    && (forall i, j :: 0 <= i < j < |s| && s[i] == '.' ==> s[j] != '.')
  }

  /** `UnsignedText` after an optional sign. */
  predicate DecimalText(s: string) {
    UnsignedText(s) || (s != [] && (s[0] == '-' || s[0] == '+') && UnsignedText(s[1..]))
  }

  lemma CharContained(s: string, c: char, i: nat)
    requires i < |s| && s[i] == c
    ensures Contains(s, [c])
  {
    assert OccursAt(s, [c], i);
  }

  /** Splitting at the first point: unsigned text is digits, the point, digits. */
  lemma UnsignedTextAt(s: string, p: nat)
    requires p < |s| && s[p] == '.' && forall j :: 0 <= j < p ==> s[j] != '.'
    ensures UnsignedText(s) <==> (p > 0 || p + 1 < |s|) && AllDigits(s[..p]) && AllDigits(s[p + 1..])
  {
    var whole, frac := s[..p], s[p + 1..];
    if (p > 0 || p + 1 < |s|) && AllDigits(whole) && AllDigits(frac) {
      assert forall i :: 0 <= i < p ==> s[i] == whole[i];
      assert forall i :: p < i < |s| ==> s[i] == frac[i - p - 1];
      if p > 0 { assert IsDigit(s[0]); } else { assert IsDigit(s[p + 1]); }
    }
    if UnsignedText(s) {
      forall i | 0 <= i < |frac| ensures IsDigit(frac[i]) {
        assert s[p + 1 + i] == frac[i];
      }
      var i :| 0 <= i < |s| && IsDigit(s[i]);
      assert i != p;
    }
  }

  /** `float()` of unsigned decimal text. */
  function Unsigned(s: string): (r: Option<real>)
    ensures r.Some? <==> UnsignedText(s)
    ensures r.Some? ==> r.value >= 0.0
    ensures s != [] && AllDigits(s) ==> r == Some(DigitsValue(s) as real)
  {
    match Find(s, ".")
    case None =>
      assert forall i :: 0 <= i < |s| ==> s[i] != '.' by {
        forall i | 0 <= i < |s| ensures s[i] != '.' {
          if s[i] == '.' { CharContained(s, '.', i); }
        }
      }
      if s != [] && AllDigits(s) then Some(DigitsValue(s) as real) else None
    case Some(p) =>
      var whole := s[..p];
      var frac := s[p + 1..];
      assert s[p] == '.' by { assert OccursAt(s, ".", p); }
      assert forall j :: 0 <= j < p ==> s[j] != '.' by {
        forall j | 0 <= j < p ensures s[j] != '.' {
          assert !OccursAt(s, ".", j);
          assert s[j..j + 1] == [s[j]];
        }
      }
      UnsignedTextAt(s, p);
      assert !AllDigits(s) by { assert !IsDigit(s[p]); }
      if (whole != [] || frac != []) && AllDigits(whole) && AllDigits(frac) then
        Some(DigitsValue(whole) as real + Fraction(frac))
      else None
  }

  /** `float(s)` for plain decimal text: an optional sign, digits, and an
      optional point, with at least one digit in all. */
  function DecimalValue(s: string): (r: Option<real>)
    ensures r.Some? <==> DecimalText(s)
    ensures s != [] && s[0] == '-' ==> (r.Some? <==> Unsigned(s[1..]).Some?) && (r.Some? ==> r.value == -Unsigned(s[1..]).value)
    ensures s != [] && s[0] != '-' && s[0] != '+' ==> r == Unsigned(s)
  {
    if s == [] then None
    else if s[0] == '-' || s[0] == '+' then
      assert !UnsignedText(s) by { assert !IsDigit(s[0]) && s[0] != '.'; }
      match Unsigned(s[1..])
      case Some(v) => Some(if s[0] == '-' then -v else v)
      case None => None
    else Unsigned(s)
  }

  /** `float(str(i)) == i`: the printed integer reads back as itself. */
  lemma DecimalOfIntToString(i: int)
    ensures DecimalValue(IntToString(i)) == Some(i as real)
  {
    var n: nat := if i < 0 then -i else i;
    var d := NatToString(n);
    DigitsValueOfNatToString(n);
    if i < 0 {
      assert IntToString(i)[1..] == d;
    }
  }

  /** The first point of digits, a point and more text is the one after the digits. */
  lemma FirstPointAfterDigits(d: string, f: string)
    requires AllDigits(d)
    ensures Find(d + "." + f, ".") == Some(|d|)
  {
    var s := d + "." + f;
    assert OccursAt(s, ".", |d|);
    forall j | 0 <= j < |d| ensures !OccursAt(s, ".", j) {
      assert s[j] == d[j];
    }
  }

  /** `float(str(w) + "." + f)` is the whole part plus the fraction the digits denote. */
  lemma DecimalWithFraction(w: nat, f: string)
    requires AllDigits(f)
    ensures DecimalValue(NatToString(w) + "." + f) == Some(w as real + Fraction(f))
  {
    var d := NatToString(w);
    var s := d + "." + f;
    DigitsValueOfNatToString(w);
    FirstPointAfterDigits(d, f);
    assert s[..|d|] == d && s[|d| + 1..] == f;
    assert Unsigned(s) == Some(w as real + Fraction(f));
    assert s[0] == d[0];
  }
}
