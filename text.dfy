/** Text handling shared by the counter readers.

    A C string is modelled as the sequence of its bytes before the
    terminating NUL, one `char` per byte. A file is modelled by what the
    reader's fgets() calls return, in order: one string per call, each at
    most one line (a line longer than the buffer arrives in several pieces).

    The scanners model the subset of sscanf() the readers use: a
    literal prefix, whitespace skipping, and decimal conversions. */
module Text {
  import opened Limits

  datatype Option<T> = None | Some(value: T)

  /** The outcome of opening a file and reading its first line:
      fopen() failed, the first fgets() returned nothing, or a line. */
  datatype FileRead = Missing | Empty | Line(text: string)

  function Min(a: nat, b: nat): nat
  {
    if a <= b then a else b
  }

  /** strncpy() of at most n bytes followed by a forced NUL. */
  function Truncate(s: string, n: nat): string
  {
    s[..Min(|s|, n)]
  }

  predicate StartsWith(s: string, prefix: string)
  {
    |prefix| <= |s| && s[..|prefix|] == prefix
  }

  /** sub occurs in s starting at index i. */
  predicate OccursAt(s: string, sub: string, i: nat)
  {
    i + |sub| <= |s| && s[i..i + |sub|] == sub
  }

  /** strstr(s, sub) != NULL */
  predicate Contains(s: string, sub: string)
  {
    exists i: nat :: i <= |s| && OccursAt(s, sub, i)
  }

  /** strcspn(s, {c}) / the position strchr(s, c) finds: the first
      occurrence of c, or |s| when there is none. */
  function IndexOf(s: string, c: char): (r: nat)
    ensures r <= |s|
    ensures forall k :: 0 <= k < r ==> s[k] != c
    ensures r < |s| ==> s[r] == c
  {
    if s == [] then 0
    else if s[0] == c then 0
    else 1 + IndexOf(s[1..], c)
  }

  /** `buf[strcspn(buf, "\n")] = '\0'`: the text before the first newline. */
  function UpToNewline(s: string): string
  {
    s[..IndexOf(s, '\n')]
  }

  /** isspace() in the C locale. */
  predicate IsSpace(c: char)
  {
    c == ' ' || c == '\t' || c == '\n' || c == '\r' || c == '\U{000B}' || c == '\U{000C}'
  }

  predicate IsDigit(c: char)
  {
    '0' <= c <= '9'
  }

  predicate AllDigits(s: string)
  {
    forall k :: 0 <= k < |s| ==> IsDigit(s[k])
  }

  /** First index at or after i that is not whitespace. */
  function SkipSpaces(s: string, i: nat): (r: nat)
    requires i <= |s|
    ensures i <= r <= |s|
    ensures r < |s| ==> !IsSpace(s[r])
    decreases |s| - i
  {
    if i == |s| || !IsSpace(s[i]) then i else SkipSpaces(s, i + 1)
  }

  /** First index at or after i that is not a decimal digit. */
  function DigitsEnd(s: string, i: nat): (r: nat)
    requires i <= |s|
    ensures i <= r <= |s|
    ensures r > i ==> IsDigit(s[r - 1])
    ensures r < |s| ==> !IsDigit(s[r])
    decreases |s| - i
  {
    if i == |s| || !IsDigit(s[i]) then i else DigitsEnd(s, i + 1)
  }

  /** The value of a decimal digit; the scanners apply it to nothing else. */
  function DigitValue(c: char): nat
  {
    if IsDigit(c) then (c as int - '0' as int) as nat else 0
  }

  /** The value of a string of decimal digits. */
  function DecimalValue(ds: string): nat
  {
    if ds == [] then 0 else DecimalValue(ds[..|ds| - 1]) * 10 + DigitValue(ds[|ds| - 1])
  }

  function Pow10(n: nat): (r: nat)
    ensures r >= 1
  {
    if n == 0 then 1 else 10 * Pow10(n - 1)
  }

  /** A value a conversion produced and the index just after the text it used. */
  datatype Scanned<T> = Scanned(value: T, next: nat)

  /** One %ld conversion as the kB readers use it: optional whitespace,
      then one or more decimal digits. */
  function ScanUnsigned(s: string, i: nat): (r: Option<Scanned<nat>>)
    requires i <= |s|
    ensures r.Some? ==> i < r.value.next <= |s| && IsDigit(s[r.value.next - 1])
  {
    var j := SkipSpaces(s, i);
    var k := DigitsEnd(s, j);
    if k == j then None else Some(Scanned(DecimalValue(s[j..k]), k))
  }

  /** The negation of m in unsigned long long arithmetic. */
  function NegateU64(m: nat): nat
    requires m <= U64_MAX
  {
    if m == 0 then 0 else TWO_64 - m
  }

  /** NegateU64 is negation modulo 2^64. */
  lemma NegateU64IsWrap(m: nat)
    requires m <= U64_MAX
    ensures NegateU64(m) == WrapU64(-(m as int)) && NegateU64(m) <= U64_MAX
  {
    if m > 0 {
      assert -(m as int) == (TWO_64 - m) - TWO_64;
    }
  }

  /** One %llu conversion starting at i, as strtoull() performs it:
      optional whitespace, an optional '+' or '-', then one or more
      decimal digits. A magnitude above ULLONG_MAX gives ULLONG_MAX
      whatever the sign; otherwise a '-' negates modulo 2^64. */
  function ScanU64(s: string, i: nat): (r: Option<Scanned<nat>>)
    requires i <= |s|
    ensures r.Some? ==> i < r.value.next <= |s| && IsDigit(s[r.value.next - 1])
    ensures r.Some? ==> r.value.value <= U64_MAX
  {
    var j := SkipSpaces(s, i);
    var negative := j < |s| && s[j] == '-';
    var d := if j < |s| && (s[j] == '+' || s[j] == '-') then j + 1 else j;
    var k := DigitsEnd(s, d);
    if k == d then None
    else
      Some(Scanned(StoredU64(negative, DecimalValue(s[d..k])), k))
  }

  /** What strtoull() returns for the sign and magnitude it read. */
  function StoredU64(negative: bool, magnitude: nat): (r: nat)
    ensures r <= U64_MAX
  {
    if magnitude > U64_MAX then U64_MAX else if negative then NegateU64(magnitude) else magnitude
  }

  /** The value of a signed number as unsigned long long: ULLONG_MAX when
      its magnitude does not fit, the number modulo 2^64 otherwise. */
  function U64Of(x: int): nat
  {
    if x < -(U64_MAX as int) || x > U64_MAX then U64_MAX else WrapU64(x)
  }

  /** strtoull() stores U64Of of the number it read. */
  lemma StoredU64IsU64Of(negative: bool, magnitude: nat)
    ensures StoredU64(negative, magnitude) == U64Of(if negative then -(magnitude as int) else magnitude)
  {
    if magnitude <= U64_MAX {
      if negative {
        NegateU64IsWrap(magnitude);
      } else {
        WrapU64Small(magnitude);
      }
    }
  }

  /** The numbers successive %llu conversions read from i on, up to the
      first one that fails. */
  function U64Run(s: string, i: nat): seq<nat>
    requires i <= |s|
    decreases |s| - i
  {
    match ScanU64(s, i)
    case None => []
    case Some(first) => [first.value] + U64Run(s, first.next)
  }

  /** Every number in a run fits in 64 bits. */
  lemma {:induction false} U64RunBounded(s: string, i: nat)
    requires i <= |s|
    ensures forall k :: 0 <= k < |U64Run(s, i)| ==> U64Run(s, i)[k] <= U64_MAX
    decreases |s| - i
  {
    match ScanU64(s, i)
    case None =>
    case Some(first) =>
      U64RunBounded(s, first.next);
  }

  /** A run that starts with a successful conversion is its value
      followed by the run from where it stopped. */
  lemma U64RunStep(s: string, i: nat, v: nat, next: nat)
    requires i <= |s|
    requires ScanU64(s, i) == Some(Scanned(v, next))
    ensures next <= |s| && U64Run(s, i) == [v] + U64Run(s, next)
  {
  }

  /** n consecutive %llu conversions, as a format "%llu %llu ..." reads
      them: all n succeed exactly when the run holds at least n numbers,
      and they are its first n. */
  function ScanU64List(s: string, i: nat, n: nat): (r: Option<seq<nat>>)
    requires i <= |s|
    ensures r.Some? ==> |r.value| == n && forall k :: 0 <= k < n ==> r.value[k] <= U64_MAX
  {
    U64RunBounded(s, i);
    var run := U64Run(s, i);
    if |run| >= n then Some(run[..n]) else None
  }

  /** The text of a number as a %llu conversion takes it: an optional
      '+' or '-', then one or more decimal digits. */
  predicate IsNumberText(t: string)
  {
    t != [] && if t[0] == '+' || t[0] == '-' then |t| > 1 && AllDigits(t[1..]) else AllDigits(t)
  }

  /** The integer such a text denotes. */
  function NumberValue(t: string): int
    requires IsNumberText(t)
  {
    if t[0] == '-' then -(DecimalValue(t[1..]) as int)
    else if t[0] == '+' then DecimalValue(t[1..])
    else DecimalValue(t)
  }

  /** A run of n digits ending at the end of s or before a non-digit is
      what DigitsEnd skips. */
  lemma {:induction false} DigitsEndAt(s: string, i: nat, n: nat)
    requires i + n <= |s|
    requires forall k :: i <= k < i + n ==> IsDigit(s[k])
    requires i + n == |s| || !IsDigit(s[i + n])
    ensures DigitsEnd(s, i) == i + n
    decreases n
  {
    if n > 0 {
      DigitsEndAt(s, i + 1, n - 1);
    }
  }

  /** The conversion of a digit string that starts at d and runs to the
      end of s or to a non-digit. */
  lemma ScanDigitsAt(s: string, d: nat, ds: string)
    requires d + |ds| <= |s| && s[d..d + |ds|] == ds
    requires ds != [] && AllDigits(ds)
    requires d + |ds| == |s| || !IsDigit(s[d + |ds|])
    ensures DigitsEnd(s, d) == d + |ds| && s[d..DigitsEnd(s, d)] == ds
  {
    assert forall k :: d <= k < d + |ds| ==> s[k] == ds[k - d];
    DigitsEndAt(s, d, |ds|);
  }

  /** The digits of a number text: after its sign, if any. */
  function NumberDigits(t: string): string
    requires IsNumberText(t)
  {
    if t[0] == '+' || t[0] == '-' then t[1..] else t
  }

  /** A %llu conversion at a space followed by a number text t, followed
      in turn by the end of s or a non-digit, stores U64Of of the number
      and stops after the text. */
  lemma ScanU64At(s: string, i: nat, t: string)
    requires IsNumberText(t)
    requires i + 1 + |t| <= |s| && s[i] == ' ' && s[i + 1..i + 1 + |t|] == t
    requires i + 1 + |t| == |s| || !IsDigit(s[i + 1 + |t|])
    ensures ScanU64(s, i) == Some(Scanned(U64Of(NumberValue(t)), i + 1 + |t|))
  {
    NumberStartsAfterSpace(s, i, t);
    NumberDigitsAt(s, i, t);
    StoredU64IsU64Of(t[0] == '-', DecimalValue(NumberDigits(t)));
  }

  /** Whitespace skipping stops at the number text after the space. */
  lemma NumberStartsAfterSpace(s: string, i: nat, t: string)
    requires IsNumberText(t)
    requires i + 1 + |t| <= |s| && s[i] == ' ' && s[i + 1..i + 1 + |t|] == t
    ensures SkipSpaces(s, i) == i + 1 && s[i + 1] == t[0]
  {
    assert s[i + 1] == t[0];
    assert !IsSpace(s[i + 1]) by {
      if t[0] != '+' && t[0] != '-' { assert IsDigit(t[0]); }
    }
    assert SkipSpaces(s, i + 1) == i + 1;
  }

  /** The digits of the number text are those DigitsEnd skips after the
      sign. */
  lemma NumberDigitsAt(s: string, i: nat, t: string)
    requires IsNumberText(t)
    requires i + 1 + |t| <= |s| && s[i + 1..i + 1 + |t|] == t
    requires i + 1 + |t| == |s| || !IsDigit(s[i + 1 + |t|])
    ensures var d := if t[0] == '+' || t[0] == '-' then i + 2 else i + 1;
      DigitsEnd(s, d) == i + 1 + |t| && s[d..i + 1 + |t|] == NumberDigits(t)
  {
    if t[0] == '+' || t[0] == '-' {
      SignedDigitsAt(s, i, t);
    } else {
      UnsignedDigitsAt(s, i, t);
    }
  }

  lemma SignedDigitsAt(s: string, i: nat, t: string)
    requires IsNumberText(t)
    requires i + 1 + |t| <= |s| && s[i + 1..i + 1 + |t|] == t
    requires i + 1 + |t| == |s| || !IsDigit(s[i + 1 + |t|])
    requires t[0] == '+' || t[0] == '-'
    ensures DigitsEnd(s, i + 2) == i + 1 + |t| && s[i + 2..i + 1 + |t|] == t[1..]
  {
    assert s[i + 2..i + 1 + |t|] == s[i + 1..i + 1 + |t|][1..];
    ScanDigitsAt(s, i + 2, t[1..]);
  }

  lemma UnsignedDigitsAt(s: string, i: nat, t: string)
    requires IsNumberText(t)
    requires i + 1 + |t| <= |s| && s[i + 1..i + 1 + |t|] == t
    requires i + 1 + |t| == |s| || !IsDigit(s[i + 1 + |t|])
    requires t[0] != '+' && t[0] != '-'
    ensures DigitsEnd(s, i + 1) == i + 1 + |t|
  {
    ScanDigitsAt(s, i + 1, t);
  }

  /** The number texts ts are written in s from i on, each after a space,
      and no digit follows the last one. */
  predicate FieldsAt(s: string, i: nat, ts: seq<string>)
    decreases |ts|
  {
    if ts == [] then i <= |s| && (i == |s| || !IsDigit(s[i]))
    else
      var next := i + 1 + |ts[0]|;
      next <= |s| && s[i] == ' ' && s[i + 1..next] == ts[0] && FieldsAt(s, next, ts[1..])
  }

  predicate AllNumberTexts(ts: seq<string>)
  {
    forall k :: 0 <= k < |ts| ==> IsNumberText(ts[k])
  }

  /** The %llu conversions over number texts written at i read their
      values, in order, whatever their signs. */
  lemma {:induction false} U64RunFields(s: string, i: nat, ts: seq<string>)
    requires AllNumberTexts(ts) && FieldsAt(s, i, ts)
    ensures i <= |s|
    ensures |U64Run(s, i)| >= |ts|
    ensures forall k :: 0 <= k < |ts| ==> U64Run(s, i)[k] == U64Of(NumberValue(ts[k]))
    decreases |ts|
  {
    if ts != [] {
      var next := i + 1 + |ts[0]|;
      FieldsAtTail(s, i, ts);
      FieldRunStep(s, i, ts[0]);
      U64RunFields(s, next, ts[1..]);
      ConsPrefix(U64Run(s, i), U64Run(s, next), ts);
    }
  }

  /** A run of %llu conversions over space-separated number texts reads
      their values as unsigned long long, whatever their signs. */
  lemma ScanU64ListReadsFields(s: string, i: nat, ts: seq<string>, n: nat)
    requires AllNumberTexts(ts) && FieldsAt(s, i, ts) && n <= |ts|
    ensures i <= |s| && ScanU64List(s, i, n).Some?
    ensures forall k :: 0 <= k < n ==> ScanU64List(s, i, n).value[k] == U64Of(NumberValue(ts[k]))
  {
    U64RunFields(s, i, ts);
  }

  /** The first text of fields written at i, and the fields after it. */
  lemma FieldsAtTail(s: string, i: nat, ts: seq<string>)
    requires FieldsAt(s, i, ts) && ts != []
    ensures i + 1 + |ts[0]| <= |s| && s[i] == ' ' && s[i + 1..i + 1 + |ts[0]|] == ts[0]
    ensures i + 1 + |ts[0]| == |s| || !IsDigit(s[i + 1 + |ts[0]|])
    ensures FieldsAt(s, i + 1 + |ts[0]|, ts[1..])
  {
    var next := i + 1 + |ts[0]|;
    if ts[1..] != [] {
      assert s[next] == ' ';
    }
  }

  /** The run at a space followed by a number text t is its value
      followed by the run after t. */
  lemma FieldRunStep(s: string, i: nat, t: string)
    requires IsNumberText(t)
    requires i + 1 + |t| <= |s| && s[i] == ' ' && s[i + 1..i + 1 + |t|] == t
    requires i + 1 + |t| == |s| || !IsDigit(s[i + 1 + |t|])
    ensures U64Run(s, i) == [U64Of(NumberValue(t))] + U64Run(s, i + 1 + |t|)
  {
    ScanU64At(s, i, t);
    U64RunStep(s, i, U64Of(NumberValue(t)), i + 1 + |t|);
  }

  /** If run is the value of ts[0] followed by rest, and rest starts with
      the values of the rest of ts, then run starts with the values of ts. */
  lemma ConsPrefix(run: seq<nat>, rest: seq<nat>, ts: seq<string>)
    requires AllNumberTexts(ts) && ts != [] && run == [U64Of(NumberValue(ts[0]))] + rest
    requires |rest| >= |ts| - 1
    requires forall k :: 0 <= k < |ts| - 1 ==> rest[k] == U64Of(NumberValue(ts[1..][k]))
    ensures |run| >= |ts| && forall k :: 0 <= k < |ts| ==> run[k] == U64Of(NumberValue(ts[k]))
  {
    forall k | 1 <= k < |ts|
      ensures run[k] == U64Of(NumberValue(ts[k]))
    {
      assert run[k] == rest[k - 1] && ts[1..][k - 1] == ts[k];
    }
  }

  /** sscanf(line, "<key> %ld ...", &v) == 1: the line starts with the
      literal key and a number follows after optional whitespace. */
  function ScanKeyed(line: string, key: string): Option<nat>
  {
    if !StartsWith(line, key) then None
    else
      match ScanUnsigned(line, |key|)
      case None => None
      case Some(n) => Some(n.value)
  }

  /** One %lf conversion, limited to plain decimals: optional whitespace,
      digits, and an optional fraction, with at least one digit in all. */
  function ScanDecimal(s: string, i: nat): (r: Option<Scanned<real>>)
    requires i <= |s|
    ensures r.Some? ==> i < r.value.next <= |s| && r.value.value >= 0.0
  {
    var j := SkipSpaces(s, i);
    var k := DigitsEnd(s, j);
    var whole := DecimalValue(s[j..k]);
    if k < |s| && s[k] == '.' then
      var m := DigitsEnd(s, k + 1);
      if k == j && m == k + 1 then None
      else
        var fraction := DecimalValue(s[k + 1..m]);
        Some(Scanned(whole as real + fraction as real / Pow10(m - k - 1) as real, m))
    else if k == j then None
    else Some(Scanned(whole as real, k))
  }

  /** n consecutive %lf conversions. */
  function ScanDecimalList(s: string, i: nat, n: nat): (r: Option<seq<real>>)
    requires i <= |s|
    ensures r.Some? ==> |r.value| == n && forall k :: 0 <= k < n ==> r.value[k] >= 0.0
    decreases n
  {
    if n == 0 then Some([])
    else
      match ScanDecimal(s, i)
      case None => None
      case Some(first) =>
        match ScanDecimalList(s, first.next, n - 1)
        case None => None
        case Some(rest) => Some([first.value] + rest)
  }
}
