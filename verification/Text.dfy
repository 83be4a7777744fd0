/** String operations of Go's strings and fmt packages, as far as the program uses them. */
module Text {

  datatype Option<+T> = None | Some(value: T)

  datatype Result<+T, +E> = Ok(value: T) | Err(error: E)

  // ---------- Sequences, sets and maps ----------

  lemma Assoc<T>(a: seq<T>, b: seq<T>, c: seq<T>)
    ensures (a + b) + c == a + (b + c)
  {}

  lemma DropDrop<T>(s: seq<T>, i: nat, n: nat)
    requires i + n <= |s|
    ensures s[i..][n..] == s[i + n..] && s[i..][..n] == s[i..i + n]
  {}

  lemma SubsetSize<T>(a: set<T>, b: set<T>)
    requires a <= b
    ensures |a| <= |b|
  {
    if a == {} {
    } else {
      var x :| x in a;
      SubsetSize(a - {x}, b - {x});
    }
  }

  /** Leaving out one key less. */
  lemma OneKeyMore<K, V>(m: map<K, V>, rest: set<K>, k: K)
    requires k in rest && k in m
    ensures m - (rest - {k}) == (m - rest)[k := m[k]]
  {}

  lemma TakeOne<T>(s: seq<T>)
    requires |s| >= 1
    ensures s[..1] == [s[0]]
  {}

  lemma TakeTwo<T>(s: seq<T>)
    requires |s| >= 2
    ensures s[..2] == [s[0]] + [s[1]]
  {}

  /** The head and the tail of a concatenation. */
  lemma ConcatHead<T>(a: seq<T>, b: seq<T>)
    requires a != []
    ensures |a + b| > 0 && (a + b)[0] == a[0] && (a + b)[1..] == a[1..] + b
  {}

  lemma SliceCons<T>(s: seq<T>, i: nat, j: nat)
    requires i < j <= |s|
    ensures s[i..j] == [s[i]] + s[i + 1..j]
  {}

  lemma SameHead<T>(c: T, a: seq<T>, b: seq<T>)
    ensures [c] + a == [c] + b <==> a == b
  {
    assert ([c] + a)[1..] == a && ([c] + b)[1..] == b;
  }

  lemma SliceDrop<T>(s: seq<T>, i: nat, n: nat, d: nat)
    requires d <= n && i + n <= |s|
    ensures s[i..i + n][d..] == s[i + d..i + n]
  {}

  lemma SliceBehind<T>(q: seq<T>, rest: seq<T>, i: nat, j: nat)
    requires |q| <= i <= j <= |q| + |rest|
    ensures (q + rest)[i..j] == rest[i - |q|..j - |q|]
  {}

  // ---------- Occurrences ----------

  /** sub occurs in s at position i. */
  predicate At(s: string, sub: string, i: nat) {
    i + |sub| <= |s| && s[i..i + |sub|] == sub
  }

  /** strings.Index, starting the search at position from. */
  function FindFrom(s: string, sub: string, from: nat): (r: int)
    requires from <= |s|
    ensures -1 <= r
    ensures r == -1 ==> forall i: nat :: from <= i ==> !At(s, sub, i)
    ensures r >= 0 ==> from <= r && At(s, sub, r) && forall i: nat :: from <= i < r ==> !At(s, sub, i)
    decreases |s| - from
  {
    if At(s, sub, from) then from
    else if from == |s| then -1
    else FindFrom(s, sub, from + 1)
  }

  /** strings.Index: the position of the first occurrence, or -1. */
  function Find(s: string, sub: string): (r: int)
    ensures -1 <= r
    ensures r == -1 ==> forall i: nat :: !At(s, sub, i)
    ensures r >= 0 ==> At(s, sub, r) && forall i: nat :: i < r ==> !At(s, sub, i)
  {
    FindFrom(s, sub, 0)
  }

  lemma FirstAt(s: string, sub: string, i: nat)
    requires At(s, sub, i) && forall k: nat :: k < i ==> !At(s, sub, k)
    ensures Find(s, sub) == i
  {}

  lemma Nowhere(s: string, sub: string)
    requires forall i: nat :: !At(s, sub, i)
    ensures Find(s, sub) == -1
  {}

  /** One character that differs is enough. */
  lemma NotAt(s: string, sub: string, i: nat, k: nat)
    requires k < |sub|
    requires i + |sub| <= |s| ==> s[i + k] != sub[k]
    ensures !At(s, sub, i)
  {
    if i + |sub| <= |s| {
      assert s[i..i + |sub|][k] == s[i + k];
    }
  }

  /** strings.HasPrefix */
  predicate HasPrefix(s: string, p: string) {
    |p| <= |s| && s[..|p|] == p
  }

  /** strings.HasSuffix */
  predicate HasSuffix(s: string, p: string) {
    |p| <= |s| && s[|s| - |p|..] == p
  }

  /** strings.Replace(s, old, new, 1) */
  function ReplaceFirst(s: string, was: string, with: string): string {
    var i := Find(s, was);
    if i < 0 then s else s[..i] + with + s[i + |was|..]
  }

  // ---------- Splitting ----------

  /** strings.Split on a one-character separator. */
  function Split(s: string, sep: char): (parts: seq<string>)
    ensures |parts| > 0
    ensures forall k :: 0 <= k < |parts| ==> sep !in parts[k]
  {
    if s == "" then [""]
    else
      var rest := Split(s[1..], sep);
      if s[0] == sep then [""] + rest
      else [[s[0]] + rest[0]] + rest[1..]
  }

  /** strings.Join with a one-character separator. */
  function Join(parts: seq<string>, sep: char): string {
    if parts == [] then ""
    else if |parts| == 1 then parts[0]
    else parts[0] + [sep] + Join(parts[1..], sep)
  }

  lemma {:induction false} SplitPrefix(p: string, s: string, sep: char)
    requires sep !in p
    ensures Split(p + [sep] + s, sep) == [p] + Split(s, sep)
  {
    var whole := p + [sep] + s;
    if p == "" {
      assert whole[1..] == s;
    } else {
      SplitPrefix(p[1..], s, sep);
      assert whole[1..] == p[1..] + [sep] + s;
      assert [p[0]] + p[1..] == p;
    }
  }

  lemma {:induction false} SplitWhole(p: string, sep: char)
    requires sep !in p
    ensures Split(p, sep) == [p]
  {
    if p == "" {
    } else {
      SplitWhole(p[1..], sep);
      assert [p[0]] + p[1..] == p;
    }
  }

  /** Splitting undoes joining when no part contains the separator. */
  lemma {:induction false} SplitJoin(parts: seq<string>, sep: char)
    requires parts != []
    requires forall k :: 0 <= k < |parts| ==> sep !in parts[k]
    ensures Split(Join(parts, sep), sep) == parts
  {
    if |parts| == 1 {
      SplitWhole(parts[0], sep);
    } else {
      SplitJoin(parts[1..], sep);
      SplitPrefix(parts[0], Join(parts[1..], sep), sep);
    }
  }

  lemma {:induction false} JoinAvoids(parts: seq<string>, sep: char, c: char)
    requires c != sep
    requires forall k :: 0 <= k < |parts| ==> c !in parts[k]
    ensures c !in Join(parts, sep)
  {
    if |parts| <= 1 {
    } else {
      JoinAvoids(parts[1..], sep, c);
    }
  }

  // ---------- Decimal numbers ----------

  predicate IsDigit(c: char) {
    '0' <= c <= '9'
  }

  function DigitChar(d: nat): (c: char)
    requires d < 10
    ensures IsDigit(c) && DigitValue(c) == d
  {
    (d + '0' as int) as char
  }

  function DigitValue(c: char): nat
    requires IsDigit(c)
  {
    c as int - '0' as int
  }

  /** The %d rendering of a natural number. */
  function Dec(n: nat): (s: string)
    ensures s != "" && forall k :: 0 <= k < |s| ==> IsDigit(s[k])
  {
    if n < 10 then [DigitChar(n)] else Dec(n / 10) + [DigitChar(n % 10)]
  }

  /** The value of a digit string. */
  function Value(s: string): nat
    requires forall k :: 0 <= k < |s| ==> IsDigit(s[k])
  {
    if s == "" then 0 else Value(s[..|s| - 1]) * 10 + DigitValue(s[|s| - 1])
  }

  lemma {:induction false} ValueOfDec(n: nat)
    ensures Value(Dec(n)) == n
  {
    if n < 10 {
      assert Dec(n)[..0] == "";
    } else {
      ValueOfDec(n / 10);
      assert Dec(n)[..|Dec(n)| - 1] == Dec(n / 10);
    }
  }

  lemma DecInjective(a: nat, b: nat)
    requires Dec(a) == Dec(b)
    ensures a == b
  {
    ValueOfDec(a);
    ValueOfDec(b);
  }

  const MAX_INT64: int := 0x7fff_ffff_ffff_ffff

  /** The runes fmt.Sscanf skips before a number; a newline is an error instead. */
  predicate IsScanSpace(c: char) {
    var v := c as int;
    || (0x09 <= v <= 0x0d && v != 0x0a)
    || v == 0x20 || v == 0x85 || v == 0xa0 || v == 0x1680
    || 0x2000 <= v <= 0x200a || v == 0x2028 || v == 0x2029
    || v == 0x202f || v == 0x205f || v == 0x3000
  }

  function SkipSpaces(s: string): string {
    if s != "" && IsScanSpace(s[0]) then SkipSpaces(s[1..]) else s
  }

  function LeadingDigits(s: string): (d: string)
    ensures forall k :: 0 <= k < |d| ==> IsDigit(d[k])
    ensures d <= s
  {
    if s != "" && IsDigit(s[0]) then [s[0]] + LeadingDigits(s[1..]) else ""
  }

  /** fmt.Sscanf(s, "%d", &x) for a 64-bit x: None when x is left alone. */
  function ScanInt(s: string): (r: Option<int>)
    ensures r.Some? ==> -MAX_INT64 - 1 <= r.value <= MAX_INT64
  {
    var t := SkipSpaces(s);
    var neg := HasPrefix(t, "-");
    var digits := LeadingDigits(if neg || HasPrefix(t, "+") then t[1..] else t);
    if digits == "" then None
    else
      var v: int := (if neg then -1 else 1) * Value(digits);
      if -MAX_INT64 - 1 <= v <= MAX_INT64 then Some(v) else None
  }

  lemma {:induction false} LeadingDigitsAll(d: string, tail: string)
    requires forall k :: 0 <= k < |d| ==> IsDigit(d[k])
    requires tail == "" || !IsDigit(tail[0])
    ensures LeadingDigits(d + tail) == d
  {
    if d == "" {
      assert d + tail == tail;
    } else {
      assert (d + tail)[1..] == d[1..] + tail;
      LeadingDigitsAll(d[1..], tail);
    }
  }

  lemma DigitFirst(d: string)
    requires d != "" && forall k :: 0 <= k < |d| ==> IsDigit(d[k])
    ensures SkipSpaces(d) == d && !HasPrefix(d, "-") && !HasPrefix(d, "+")
    ensures LeadingDigits(d) == d
  {
    assert IsDigit(d[0]) && d[..1][0] == d[0];
    LeadingDigitsAll(d, "");
    assert d + "" == d;
  }

  /** Scanning undoes printing for every non-negative 64-bit number. */
  lemma ScanOfDec(n: nat)
    ensures ScanInt(Dec(n)) == if n <= MAX_INT64 then Some(n) else None
  {
    DigitFirst(Dec(n));
    ValueOfDec(n);
  }

  /** Printed numbers have no leading zeros. */
  lemma {:induction false} DecLeads(n: nat)
    ensures Dec(n)[0] == '0' <==> n == 0
  {
    if n < 10 {
    } else {
      DecLeads(n / 10);
      assert Dec(n)[0] == Dec(n / 10)[0];
    }
  }

  lemma {:induction false} SpacesSkipped(spaces: string, s: string)
    requires forall k :: 0 <= k < |spaces| ==> IsScanSpace(spaces[k])
    requires s != "" && !IsScanSpace(s[0])
    ensures SkipSpaces(spaces + s) == s
  {
    if spaces == "" {
      assert spaces + s == s;
    } else {
      assert (spaces + s)[0] == spaces[0] && (spaces + s)[1..] == spaces[1..] + s;
      SpacesSkipped(spaces[1..], s);
    }
  }

  /** The number at the start of a string whose sign and digits are known. */
  lemma ScanParts(s: string, t: string, neg: bool, digits: string)
    requires SkipSpaces(s) == t && neg == HasPrefix(t, "-") && digits != ""
    requires LeadingDigits(if neg || HasPrefix(t, "+") then t[1..] else t) == digits
    ensures var v: int := (if neg then -1 else 1) * Value(digits);
            ScanInt(s) == if -MAX_INT64 - 1 <= v <= MAX_INT64 then Some(v) else None
  {}

  lemma SignIs(sign: string, d: string, tail: string)
    requires sign in {"", "+", "-"} && d != "" && IsDigit(d[0])
    ensures var t := sign + d + tail;
            && t != "" && !IsScanSpace(t[0])
            && (HasPrefix(t, "-") <==> sign == "-") && (HasPrefix(t, "+") <==> sign == "+")
            && (sign == "" ==> t == d + tail) && (sign != "" ==> t[1..] == d + tail)
  {
    var t := sign + d + tail;
    assert t[0] == if sign == "" then d[0] else sign[0];
    assert t[..1] == [t[0]];
  }

  /** What is scanned: blanks may stand in front, then at most one sign, and what stands behind the digits does not
      matter; the number must fit an int64. */
  lemma ScanPrinted(spaces: string, sign: string, n: nat, tail: string)
    requires forall k :: 0 <= k < |spaces| ==> spaces[k] in " \t\r"
    requires sign in {"", "+", "-"} && (tail == "" || !IsDigit(tail[0]))
    ensures var v: int := if sign == "-" then 0 - n else n;
            ScanInt(spaces + (sign + Dec(n) + tail)) ==
            if -0x8000_0000_0000_0000 <= v <= 0x7fff_ffff_ffff_ffff then Some(v) else None
  {
    var t := sign + Dec(n) + tail;
    SignIs(sign, Dec(n), tail);
    SpacesSkipped(spaces, t);
    LeadingDigitsAll(Dec(n), tail);
    ValueOfDec(n);
    ScanParts(spaces + t, t, sign == "-", Dec(n));
  }

  /** And nothing is scanned where no digit leads. */
  lemma ScanNothing(s: string)
    requires s == "" || (!IsDigit(s[0]) && !IsScanSpace(s[0]) && s[0] !in "+-")
    ensures ScanInt(s) == None
  {
    assert s != "" ==> s[..1] == [s[0]];
  }
}
