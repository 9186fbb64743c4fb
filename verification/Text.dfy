/** Strings as the program uses them: the code-point order behind Python's `max` and
    SQLite's text comparison, and decimal numbers in their printed forms. */
module Text {

  datatype Option<+T> = None | Some(value: T)

  datatype Result<+T> = Ok(value: T) | Raised(message: string)

  /** Python's two-argument `min` on numbers. */
  function Min(a: int, b: int): int { if b < a then b else a }

  // ---------- lexicographic order ----------

  predicate Less(a: string, b: string) {
    if b == "" then false
    else if a == "" then true
    else a[0] < b[0] || (a[0] == b[0] && Less(a[1..], b[1..]))
  }

  /** Python's two-argument `max`: the left argument unless the right one is strictly greater. */
  function Max(a: string, b: string): string {
    if Less(a, b) then b else a
  }

  lemma {:induction false} LessTotal(a: string, b: string)
    ensures a == b || Less(a, b) || Less(b, a)
    ensures !(Less(a, b) && Less(b, a)) && !Less(a, a)
  {
    if a != "" && b != "" {
      LessTotal(a[1..], b[1..]);
      LessTotal(a[1..], a[1..]);
      assert a == [a[0]] + a[1..] && b == [b[0]] + b[1..];
    } else if a != "" {
      LessTotal(a[1..], a[1..]);
    }
  }

  lemma {:induction false} LessTransitive(a: string, b: string, c: string)
    requires Less(a, b) && Less(b, c)
    ensures Less(a, c)
  {
    if a != "" && a[0] == b[0] == c[0] {
      LessTransitive(a[1..], b[1..], c[1..]);
    }
  }

  lemma MaxAssociative(a: string, b: string, c: string)
    ensures Max(Max(a, b), c) == Max(a, Max(b, c))
    ensures Max(a, b) == Max(b, a)
    ensures Max(a, "") == a == Max("", a)
  {
    LessTotal(a, b);
    LessTotal(b, c);
    LessTotal(a, c);
    if Less(a, b) && Less(b, c) { LessTransitive(a, b, c); }
    if Less(c, b) && Less(b, a) { LessTransitive(c, b, a); }
    if Less(b, a) && Less(a, c) { LessTransitive(b, a, c); }
    if Less(b, c) && Less(c, a) { LessTransitive(b, c, a); }
  }

  /** Blocks of equal width are compared first; what follows decides only between equal blocks. */
  lemma {:induction false} LessOfBlocks(a: string, b: string, c: string, d: string)
    requires |a| == |c|
    ensures Less(a + b, c + d) <==> Less(a, c) || (a == c && Less(b, d))
  {
    if a == "" {
      assert a + b == b && c + d == d;
    } else {
      assert (a + b)[1..] == a[1..] + b && (c + d)[1..] == c[1..] + d;
      assert a == [a[0]] + a[1..] && c == [c[0]] + c[1..];
      LessOfBlocks(a[1..], b, c[1..], d);
    }
  }

  // ---------- decimal numbers ----------

  function Digit(d: nat): char
    requires d < 10
  {
    (d + 48) as char
  }

  predicate IsDigit(c: char) { '0' <= c <= '9' }

  predicate AllDigits(s: string) { forall i :: 0 <= i < |s| ==> IsDigit(s[i]) }

  function Digits(n: nat): (s: string)
    ensures |s| > 0 && AllDigits(s)
  {
    if n < 10 then [Digit(n)] else Digits(n / 10) + [Digit(n % 10)]
  }

  function ValueOf(s: string): nat
    requires AllDigits(s)
  {
    if s == "" then 0 else ValueOf(s[..|s| - 1]) * 10 + (s[|s| - 1] as int - 48)
  }

  lemma {:induction false} ValueOfDigits(n: nat)
    ensures ValueOf(Digits(n)) == n
  {
    if n < 10 {
      assert Digits(n) == [Digit(n)];
      assert Digits(n)[..0] == "";
    } else {
      ValueOfDigits(n / 10);
      assert Digits(n)[..|Digits(n)| - 1] == Digits(n / 10);
    }
  }

  function Zeros(k: nat): (s: string)
    ensures |s| == k && AllDigits(s)
  {
    if k == 0 then "" else "0" + Zeros(k - 1)
  }

  /** Python's `f"{n:0{w}d}"`: at least `w` digits, more when the number needs them. */
  function Padded(n: nat, w: nat): (s: string)
    ensures |s| > 0 && AllDigits(s)
  {
    var d := Digits(n);
    if |d| >= w then d else Zeros(w - |d|) + d
  }

  lemma {:induction false} ValueOfLeadingZeros(k: nat, s: string)
    requires AllDigits(s)
    ensures ValueOf(Zeros(k) + s) == ValueOf(s)
  {
    if s == "" {
      assert Zeros(k) + s == Zeros(k);
      if k > 0 {
        ValueOfLeadingZeros(k - 1, "");
        ZerosEndInZero(k);
        assert Zeros(k - 1) + "" == Zeros(k - 1);
      }
    } else {
      var t := Zeros(k) + s;
      assert t[..|t| - 1] == Zeros(k) + s[..|s| - 1];
      ValueOfLeadingZeros(k, s[..|s| - 1]);
    }
  }

  lemma {:induction false} ZerosEndInZero(k: nat)
    requires k > 0
    ensures Zeros(k) == Zeros(k - 1) + "0"
  {
    if k > 1 {
      ZerosEndInZero(k - 1);
    }
  }

  lemma ValueOfPadded(n: nat, w: nat)
    ensures ValueOf(Padded(n, w)) == n
  {
    ValueOfDigits(n);
    if |Digits(n)| < w {
      ValueOfLeadingZeros(w - |Digits(n)|, Digits(n));
    }
  }

  /** A prefix and a digit-free mark can be removed again, so a printed number is recovered. */
  lemma SplitAtMark(a: string, b: string, c: string, d: string, mark: char)
    requires AllDigits(a) && AllDigits(c) && !IsDigit(mark)
    requires a + [mark] + b == c + [mark] + d
    ensures a == c && b == d
  {
    var s, t := a + [mark] + b, c + [mark] + d;
    assert s[|a|] == mark && t[|c|] == mark;
    assert a == s[..|a|] && c == t[..|c|];
    assert b == s[|a| + 1..] && d == t[|c| + 1..];
  }

  // ---------- trimming and case ----------

  /** The characters `str.strip()` removes. */
  predicate IsSpace(c: char) {
    || '\t' <= c <= '\r'
    || '\U{001c}' <= c <= ' '
    || c == '\U{0085}' || c == '\U{00a0}' || c == '\U{1680}'
    || '\U{2000}' <= c <= '\U{200a}'
    || c == '\U{2028}' || c == '\U{2029}' || c == '\U{202f}' || c == '\U{205f}' || c == '\U{3000}'
  }

  function StripLeft(s: string): string {
    if s != "" && IsSpace(s[0]) then StripLeft(s[1..]) else s
  }

  function StripRight(s: string): (r: string)
    ensures |r| <= |s| && r == s[..|r|]
    ensures r != "" ==> !IsSpace(r[|r| - 1])
  {
    if s != "" && IsSpace(s[|s| - 1]) then StripRight(s[..|s| - 1]) else s
  }

  function Strip(s: string): string {
    StripRight(StripLeft(s))
  }

  lemma {:induction false} StripLeftStops(s: string)
    ensures StripLeft(s) != "" ==> !IsSpace(StripLeft(s)[0])
  {
    if s != "" && IsSpace(s[0]) {
      StripLeftStops(s[1..]);
    }
  }

  /** Trimming twice changes nothing more. */
  lemma StripIdempotent(s: string)
    ensures Strip(Strip(s)) == Strip(s)
  {
    StripLeftStops(s);
    var r := Strip(s);
    if r != "" {
      assert r[0] == StripLeft(s)[0];
    }
    assert StripLeft(r) == r;
  }

  function LowerChar(c: char): char {
    if 'A' <= c <= 'Z' then (c as int + 32) as char else c
  }

  function Lower(s: string): (r: string)
    ensures |r| == |s|
  {
    seq(|s|, i requires 0 <= i < |s| => LowerChar(s[i]))
  }
}
