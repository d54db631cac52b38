/** Character and string helpers shared by the configuration parser, the
    authentication system and the error formatter: the C library's notions
    of digit, white space and lower case, `std::stoi`, `std::getline`
    line splitting, and the byte-wise order `std::string` compares by. */
module Text {

  datatype Option<T> = None | Some(value: T)

  /** Bounds of a 32-bit C++ `int`. */
  const IntMin: int := -0x8000_0000
  const IntMax: int := 0x7FFF_FFFF

  predicate IsDigit(c: char) { '0' <= c <= '9' }

  /** `isspace` in the "C" locale. */
  predicate IsSpace(c: char) {
    c == ' ' || c == '\t' || c == '\n' || c == '\r' || c == 11 as char || c == 12 as char
  }

  /** The blank characters `" \t"` that the key/value trimming removes. */
  predicate IsBlank(c: char) { c == ' ' || c == '\t' }

  function DigitValue(c: char): (d: nat)
    requires IsDigit(c)
    ensures d < 10
  {
    (c as int) - ('0' as int)
  }

  /** `::tolower` in the "C" locale: only 'A'..'Z' change. */
  function LowerChar(c: char): (r: char)
    ensures 'A' <= c <= 'Z' ==> r as int == c as int + 32
    ensures !('A' <= c <= 'Z') ==> r == c
  {
    if 'A' <= c <= 'Z' then (c as int + 32) as char else c
  }

  function ToLower(s: string): (r: string)
    ensures |r| == |s|
    ensures forall i :: 0 <= i < |s| ==> r[i] == LowerChar(s[i])
  {
    seq(|s|, i requires 0 <= i < |s| => LowerChar(s[i]))
  }

  /** Index of the first occurrence of `c` in `s` (`std::string::find`). */
  function Find(s: string, c: char): (r: Option<nat>)
    ensures r.None? ==> forall i :: 0 <= i < |s| ==> s[i] != c
    ensures r.Some? ==> r.value < |s| && s[r.value] == c
                        && forall i :: 0 <= i < r.value ==> s[i] != c
  {
    if s == [] then None
    else if s[0] == c then Some(0)
    else match Find(s[1..], c)
      case None => None
      case Some(k) => Some(k + 1)
  }

  /** Number of leading characters of `s` satisfying the C-locale blank test `p`. */
  function LeadingBlanks(s: string): (n: nat)
    ensures n <= |s|
    ensures forall i :: 0 <= i < n ==> IsBlank(s[i])
    ensures n < |s| ==> !IsBlank(s[n])
  {
    if s == [] || !IsBlank(s[0]) then 0 else 1 + LeadingBlanks(s[1..])
  }

  function TrailingBlanks(s: string): (n: nat)
    ensures n <= |s|
    ensures forall i :: |s| - n <= i < |s| ==> IsBlank(s[i])
    ensures n < |s| ==> !IsBlank(s[|s| - n - 1])
  {
    if s == [] || !IsBlank(s[|s| - 1]) then 0 else 1 + TrailingBlanks(s[..|s| - 1])
  }

  /** The two `erase` calls of the key/value split: leading and trailing
      spaces and tabs removed; an all-blank string becomes empty. */
  function Trim(s: string): (r: string)
    ensures |r| <= |s|
    ensures r != [] ==> !IsBlank(r[0]) && !IsBlank(r[|r| - 1])
    ensures (forall i :: 0 <= i < |s| ==> !IsBlank(s[i])) ==> r == s
  {
    var t := s[LeadingBlanks(s)..];
    t[..|t| - TrailingBlanks(t)]
  }

  /** Number of leading characters of `s` that `isspace` accepts. */
  function LeadingSpaces(s: string): (n: nat)
    ensures n <= |s|
    ensures forall i :: 0 <= i < n ==> IsSpace(s[i])
    ensures n < |s| ==> !IsSpace(s[n])
  {
    if s == [] || !IsSpace(s[0]) then 0 else 1 + LeadingSpaces(s[1..])
  }

  function LeadingDigits(s: string): (n: nat)
    ensures n <= |s|
    ensures forall i :: 0 <= i < n ==> IsDigit(s[i])
    ensures n < |s| ==> !IsDigit(s[n])
  {
    if s == [] || !IsDigit(s[0]) then 0 else 1 + LeadingDigits(s[1..])
  }

  predicate AllDigits(s: string) {
    forall i :: 0 <= i < |s| ==> IsDigit(s[i])
  }

  /** Decimal value of a digit string, most significant digit first. */
  function DigitsValue(s: string): nat
    requires AllDigits(s)
  {
    if s == [] then 0 else 10 * DigitsValue(s[..|s| - 1]) + DigitValue(s[|s| - 1])
  }

  /** `std::stoi(s)` (base 10): optional leading white space, an optional
      sign, then at least one digit; characters after the digits are
      ignored. `None` stands for the `invalid_argument` exception (no
      digits) and for `out_of_range` (the value does not fit an `int`). */
  function StoI(s: string): (r: Option<int>)
    ensures r.Some? ==> IntMin <= r.value <= IntMax
  {
    var t := s[LeadingSpaces(s)..];
    var neg := |t| > 0 && t[0] == '-';
    var u := if |t| > 0 && (t[0] == '-' || t[0] == '+') then t[1..] else t;
    var k := LeadingDigits(u);
    if k == 0 then None
    else
      var magnitude: int := DigitsValue(u[..k]);
      var v: int := if neg then -magnitude else magnitude;
      if IntMin <= v <= IntMax then Some(v) else None
  }

  /** Decimal rendering of a natural number, as `operator<<` writes it. */
  function NatToString(n: nat): (s: string)
    ensures |s| > 0 && AllDigits(s)
    decreases n
  {
    if n < 10 then [('0' as int + n) as char]
    else NatToString(n / 10) + [('0' as int + n % 10) as char]
  }

  /** Decimal rendering of a C++ `int`, with a '-' for negatives. */
  function IntToString(n: int): (s: string)
    ensures |s| > 0
  {
    if n < 0 then "-" + NatToString(-n) else NatToString(n)
  }

  lemma {:induction false} DigitsOfNatToString(n: nat)
    ensures DigitsValue(NatToString(n)) == n
    decreases n
  {
    var s := NatToString(n);
    if n >= 10 {
      DigitsOfNatToString(n / 10);
      assert s[..|s| - 1] == NatToString(n / 10);
    }
  }

  lemma {:induction false} LeadingDigitsOfAllDigits(s: string)
    requires AllDigits(s)
    ensures LeadingDigits(s) == |s|
  {
    if s != [] {
      LeadingDigitsOfAllDigits(s[1..]);
    }
  }

  /** `std::stoi` reads back what `operator<<` writes for every `int`
      (a negative number keeps its sign). */
  lemma StoIOfIntToString(n: int)
    requires IntMin <= n <= IntMax
    ensures StoI(IntToString(n)) == Some(n)
  {
    var s := IntToString(n);
    var m: nat := if n < 0 then -n else n;
    var d := NatToString(m);
    LeadingDigitsOfAllDigits(d);
    DigitsOfNatToString(m);
    assert !IsSpace(s[0]);
    if n < 0 {
      assert s[1..] == d;
    } else {
      assert !IsDigit('-') && !IsDigit('+');
      assert s[0] != '-' && s[0] != '+';
    }
    assert d[..|d|] == d;
  }

  /** Characters after the digits never change what `std::stoi` reads. */
  lemma StoITrailingJunk(digits: string, junk: string)
    requires |digits| > 0 && AllDigits(digits)
    requires junk == [] || !IsDigit(junk[0])
    ensures StoI(digits + junk) == StoI(digits)
  {
    var s := digits + junk;
    assert !IsSpace(s[0]) && !IsSpace(digits[0]);
    assert s[0] != '-' && s[0] != '+';
    assert LeadingSpaces(s) == 0 && LeadingSpaces(digits) == 0;
    assert s[0..] == s && digits[0..] == digits;
    LeadingDigitsPrefix(digits, junk);
    LeadingDigitsOfAllDigits(digits);
    assert s[..|digits|] == digits[..|digits|];
  }

  lemma {:induction false} LeadingDigitsPrefix(digits: string, junk: string)
    requires AllDigits(digits)
    requires junk == [] || !IsDigit(junk[0])
    ensures LeadingDigits(digits + junk) == |digits|
  {
    if digits == [] {
      assert digits + junk == junk;
    } else {
      assert (digits + junk)[1..] == digits[1..] + junk;
      LeadingDigitsPrefix(digits[1..], junk);
    }
  }

  /** `std::getline` over a string stream: one line per '\n'; a final
      line without a newline is still returned; the stream ends without
      an empty line after a final '\n'. */
  function Lines(text: string): (ls: seq<string>)
    ensures forall i :: 0 <= i < |ls| ==> '\n' !in ls[i]
    decreases |text|
  {
    if text == [] then []
    else match Find(text, '\n')
      case None => [text]
      case Some(i) => [text[..i]] + Lines(text[i + 1..])
  }

  /** The text a sequence of `<< line << "\n"` writes. */
  function Unlines(ls: seq<string>): string
  {
    if ls == [] then "" else ls[0] + "\n" + Unlines(ls[1..])
  }

  /** Splitting what `Unlines` wrote gives back the lines. */
  lemma {:induction false} LinesOfUnlines(ls: seq<string>)
    requires forall i :: 0 <= i < |ls| ==> '\n' !in ls[i]
    ensures Lines(Unlines(ls)) == ls
  {
    if ls != [] {
      var text := Unlines(ls);
      var l := ls[0];
      assert text == l + ("\n" + Unlines(ls[1..]));
      FindAfterPrefix(l, "\n" + Unlines(ls[1..]), '\n');
      assert text[..|l|] == l;
      assert text[|l| + 1..] == Unlines(ls[1..]);
      LinesOfUnlines(ls[1..]);
    }
  }

  lemma FindAfterPrefix(p: string, s: string, c: char)
    requires c !in p && |s| > 0 && s[0] == c
    ensures Find(p + s, c) == Some(|p|)
  {
    var t := p + s;
    var r := Find(t, c);
    assert t[|p|] == c;
    assert forall i :: 0 <= i < |p| ==> t[i] == p[i] && t[i] != c;
  }

  /** Lexicographic order of `std::string::compare` on single characters. */
  predicate StrLess(a: string, b: string)
    decreases |a|
  {
    if a == [] then b != []
    else if b == [] then false
    else if a[0] != b[0] then a[0] < b[0]
    else StrLess(a[1..], b[1..])
  }

  lemma {:induction false} StrLessIrreflexive(a: string)
    ensures !StrLess(a, a)
  {
    if a != [] { StrLessIrreflexive(a[1..]); }
  }

  lemma {:induction false} StrLessTransitive(a: string, b: string, c: string)
    requires StrLess(a, b) && StrLess(b, c)
    ensures StrLess(a, c)
    decreases |a|
  {
    if a != [] && a[0] == b[0] && b[0] == c[0] {
      StrLessTransitive(a[1..], b[1..], c[1..]);
    }
  }

  lemma {:induction false} StrLessTotal(a: string, b: string)
    requires a != b
    ensures StrLess(a, b) || StrLess(b, a)
    decreases |a|
  {
    if a != [] && b != [] && a[0] == b[0] {
      assert a == [a[0]] + a[1..] && b == [b[0]] + b[1..];
      StrLessTotal(a[1..], b[1..]);
    }
  }

  /** Keys in the order a `std::map<std::string, _>` visits them. */
  predicate StrictlySorted(s: seq<string>) {
    forall i, j :: 0 <= i < j < |s| ==> StrLess(s[i], s[j])
  }

  /** A strictly sorted key list has no repeated key. */
  lemma SortedDistinct(s: seq<string>)
    requires StrictlySorted(s)
    ensures forall i, j :: 0 <= i < |s| && 0 <= j < |s| && i != j ==> s[i] != s[j]
  {
    forall i, j | 0 <= i < |s| && 0 <= j < |s| && i != j ensures s[i] != s[j] {
      StrLessIrreflexive(s[i]);
    }
  }

  /** Insert a new key at its place in a strictly sorted key list. */
  function InsertSorted(s: seq<string>, k: string): (r: seq<string>)
    requires StrictlySorted(s) && k !in s
    ensures StrictlySorted(r)
    ensures |r| == |s| + 1
    ensures forall x :: x in r <==> x in s || x == k
  {
    if s == [] then [k]
    else if StrLess(k, s[0]) then
      forall j | 0 < j < |s| ensures StrLess(k, s[j]) { StrLessTransitive(k, s[0], s[j]); }
      [k] + s
    else
      StrLessTotal(k, s[0]);
      var tail := InsertSorted(s[1..], k);
      assert forall x :: x in s[1..] ==> x in s;
      forall j | 0 <= j < |tail| ensures StrLess(s[0], tail[j]) {
        if tail[j] != k {
          assert tail[j] in s[1..];
          var m :| 0 <= m < |s[1..]| && s[1..][m] == tail[j];
          assert s[m + 1] == tail[j];
        }
      }
      forall x ensures x in s <==> x == s[0] || x in s[1..] {
        assert s == [s[0]] + s[1..];
      }
      [s[0]] + tail
  }
}
