/**
 * The handful of Ruby String and Integer operations the provider and the
 * type rely on: `strip`, ASCII `downcase`, `include?`, `gsub('/', '%2F')`,
 * `Integer#to_s`, `String#to_i` and the decimal part of `Kernel#Integer`.
 */
module RubyString {
  import opened Wrappers

  // ---------------------------------------------------------------------
  // Character classes
  // ---------------------------------------------------------------------

  /** Ruby's `\s` (and the C `isspace` used by `to_i`): space, \t, \n, \v, \f, \r. */
  predicate IsSpace(c: char) {
    c == ' ' || c == '\t' || c == '\n' || c == '\U{B}' || c == '\U{C}' || c == '\r'
  }

  /** What `String#strip` removes at either end: the `\s` set plus NUL. */
  predicate IsStripped(c: char) {
    c == '\0' || IsSpace(c)
  }

  predicate AllStripped(s: string) {
    forall i :: 0 <= i < |s| ==> IsStripped(s[i])
  }

  predicate IsDigit(c: char) {
    '0' <= c <= '9'
  }

  predicate AllDigits(s: string) {
    forall i :: 0 <= i < |s| ==> IsDigit(s[i])
  }

  function DigitValue(c: char): (d: nat)
    requires IsDigit(c)
    ensures d < 10
  {
    c as int - '0' as int
  }

  function DigitChar(d: nat): (c: char)
    requires d < 10
    ensures IsDigit(c) && DigitValue(c) == d
  {
    ('0' as int + d) as char
  }

  // ---------------------------------------------------------------------
  // String#strip
  // ---------------------------------------------------------------------

  /** `String#lstrip`: the longest suffix that does not start with a stripped character. */
  function StripLeft(s: string): (r: string)
    ensures |r| <= |s| && r == s[|s| - |r|..]
    ensures AllStripped(s[..|s| - |r|])
    ensures r == [] || !IsStripped(r[0])
  {
    if s != [] && IsStripped(s[0]) then
      var r := StripLeft(s[1..]);
      DroppedFront(s, |r|);
      r
    else
      s
  }

  /** Dropping a stripped first character extends the stripped front by one. */
  lemma DroppedFront(s: string, n: nat)
    requires s != [] && IsStripped(s[0]) && n < |s|
    requires AllStripped(s[1..][..|s| - 1 - n])
    ensures AllStripped(s[..|s| - n]) && s[1..][|s| - 1 - n..] == s[|s| - n..]
  {
    var dropped := s[..|s| - n];
    forall j | 0 <= j < |dropped| ensures IsStripped(dropped[j]) {
      if j > 0 {
        assert dropped[j] == s[1..][..|s| - 1 - n][j - 1];
      }
    }
  }

  /** `String#rstrip`: the longest prefix that does not end with a stripped character. */
  function StripRight(s: string): (r: string)
    ensures |r| <= |s| && r == s[..|r|]
    ensures AllStripped(s[|r|..])
    ensures r == [] || !IsStripped(r[|r| - 1])
  {
    if s != [] && IsStripped(s[|s| - 1]) then
      var r := StripRight(s[..|s| - 1]);
      DroppedBack(s, |r|);
      r
    else
      s
  }

  /** Dropping a stripped last character extends the stripped back by one. */
  lemma DroppedBack(s: string, n: nat)
    requires s != [] && IsStripped(s[|s| - 1]) && n < |s|
    requires AllStripped(s[..|s| - 1][n..])
    ensures AllStripped(s[n..]) && s[..|s| - 1][..n] == s[..n]
  {
    var dropped := s[n..];
    forall j | 0 <= j < |dropped| ensures IsStripped(dropped[j]) {
      if j < |dropped| - 1 {
        assert dropped[j] == s[..|s| - 1][n..][j];
      }
    }
  }

  /** Where `strip` starts keeping characters: the length of the leading run it drops. */
  function StripOffset(s: string): (i: nat)
    ensures i <= |s|
  {
    |s| - |StripLeft(s)|
  }

  /**
   * `String#strip`: the input without its leading and trailing whitespace
   * and NULs. The result is the piece of the input starting at `StripOffset`;
   * everything before and after that piece is stripped.
   */
  function Strip(s: string): (r: string)
    ensures r == [] || (!IsStripped(r[0]) && !IsStripped(r[|r| - 1]))
    ensures StripOffset(s) + |r| <= |s|
    ensures forall j :: 0 <= j < |r| ==> r[j] == s[StripOffset(s) + j]
    ensures forall j :: 0 <= j < |s| && !(StripOffset(s) <= j < StripOffset(s) + |r|) ==> IsStripped(s[j])
  {
    StripEnds(StripLeft(s));
    StripPieceOf(s);
    StripOutsideOf(s);
    StripRight(StripLeft(s))
  }

  lemma StripPieceOf(s: string)
    ensures var r := StripRight(StripLeft(s));
      && StripOffset(s) + |r| <= |s|
      && forall j :: 0 <= j < |r| ==> r[j] == s[StripOffset(s) + j]
  {
    var l := StripLeft(s);
    StripPiece(s, StripOffset(s), l, StripRight(l));
  }

  lemma StripOutsideOf(s: string)
    ensures var r := StripRight(StripLeft(s));
      forall j :: 0 <= j < |s| && !(StripOffset(s) <= j < StripOffset(s) + |r|) ==> IsStripped(s[j])
  {
    var l := StripLeft(s);
    StripOutside(s, StripOffset(s), l, |StripRight(l)|);
  }

  /** Neither end of the right-stripped left-stripped string is stripped. */
  lemma StripEnds(l: string)
    requires l == [] || !IsStripped(l[0])
    ensures var r := StripRight(l); r == [] || (!IsStripped(r[0]) && !IsStripped(r[|r| - 1]))
  {
    var r := StripRight(l);
    if r != [] {
      assert r[0] == l[0];
    }
  }

  /** The kept piece is the slice of the input that starts at the offset. */
  lemma StripPiece(s: string, i: nat, l: string, r: string)
    requires i <= |s| && l == s[i..] && |r| <= |l| && r == l[..|r|]
    ensures i + |r| <= |s|
    ensures forall j :: 0 <= j < |r| ==> r[j] == s[i + j]
  {
  }

  /** What lies before the kept piece, or after it, is stripped. */
  lemma StripOutside(s: string, i: nat, l: string, n: nat)
    requires i <= |s| && l == s[i..] && n <= |l|
    requires AllStripped(s[..i]) && AllStripped(l[n..])
    ensures forall j :: 0 <= j < |s| && !(i <= j < i + n) ==> IsStripped(s[j])
  {
    forall j | 0 <= j < |s| && !(i <= j < i + n) ensures IsStripped(s[j]) {
      if j < i {
        assert s[..i][j] == s[j];
      } else {
        assert l[n..][j - i - n] == s[j];
      }
    }
  }

  lemma {:induction false} StripLeftExact(pre: string, m: string)
    requires AllStripped(pre)
    requires m == [] || !IsStripped(m[0])
    ensures StripLeft(pre + m) == m
    decreases |pre|
  {
    if pre == [] {
      assert pre + m == m;
    } else {
      assert (pre + m)[1..] == pre[1..] + m;
      StripLeftExact(pre[1..], m);
    }
  }

  lemma {:induction false} StripRightExact(m: string, post: string)
    requires AllStripped(post)
    requires m == [] || !IsStripped(m[|m| - 1])
    ensures StripRight(m + post) == m
    decreases |post|
  {
    if post == [] {
      assert m + post == m;
    } else {
      var p := post[..|post| - 1];
      assert (m + post)[..|m + post| - 1] == m + p;
      StripRightExact(m, p);
    }
  }

  /** Strip undoes padding: whatever is wrapped in whitespace comes back unchanged. */
  lemma StripExact(pre: string, m: string, post: string)
    requires AllStripped(pre) && AllStripped(post)
    requires m == [] || (!IsStripped(m[0]) && !IsStripped(m[|m| - 1]))
    ensures Strip(pre + m + post) == m
  {
    if m == [] {
      assert pre + m + post == (pre + post) + [];
      StripLeftExact(pre + post, []);
    } else {
      assert pre + m + post == pre + (m + post);
      StripLeftExact(pre, m + post);
      StripRightExact(m, post);
    }
  }

  /** Stripping adds no character: one absent from the input is absent from the result. */
  lemma StripAddsNothing(s: string, c: char)
    requires forall i :: 0 <= i < |s| ==> s[i] != c
    ensures forall i :: 0 <= i < |Strip(s)| ==> Strip(s)[i] != c
  {
    var r := Strip(s);
    forall i | 0 <= i < |r| ensures r[i] != c {
      assert r[i] == s[StripOffset(s) + i];
    }
  }

  /** A prefix ending in a character strip keeps survives `rstrip`. */
  lemma StripRightKeepsPrefix(a: string, b: string)
    requires a != [] && !IsStripped(a[|a| - 1])
    ensures |a| <= |StripRight(a + b)| && StripRight(a + b)[..|a|] == a
  {
    var s := a + b;
    var r := StripRight(s);
    assert forall j :: |r| <= j < |s| ==> IsStripped(s[j]) by {
      forall j | |r| <= j < |s| ensures IsStripped(s[j]) {
        assert s[|r|..][j - |r|] == s[j];
      }
    }
    assert s[|a| - 1] == a[|a| - 1];
  }

  /** A prefix that begins and ends with kept characters survives `strip`, and the result is a prefix of the input. */
  lemma StripKeepsPrefix(p: string, s: string)
    requires p != [] && |p| <= |s| && s[..|p|] == p
    requires !IsStripped(p[0]) && !IsStripped(p[|p| - 1])
    ensures |p| <= |Strip(s)| && Strip(s)[..|p|] == p
    ensures Strip(s) == s[..|Strip(s)|]
  {
    assert s[0] == p[0];
    assert [] + s == s;
    StripLeftExact([], s);
    assert s == s[..|p|] + s[|p|..];
    assert s[|p| - 1] == p[|p| - 1];
    StripRightKeepsPrefix(s[..|p|], s[|p|..]);
  }

  // ---------------------------------------------------------------------
  // ASCII case folding and substring search
  // ---------------------------------------------------------------------

  function Lower(c: char): char {
    if 'A' <= c <= 'Z' then (c as int + 32) as char else c
  }

  /** `String#downcase`, restricted to ASCII letters. */
  function Downcase(s: string): (r: string)
    ensures |r| == |s|
    ensures forall i :: 0 <= i < |s| ==> r[i] == Lower(s[i])
  {
    seq(|s|, i requires 0 <= i < |s| => Lower(s[i]))
  }

  /** `p` occurs in `s` starting at index `i`. */
  predicate OccursAt(s: string, p: string, i: int) {
    0 <= i && i + |p| <= |s| && s[i..i + |p|] == p
  }

  /** `String#include?`: `p` occurs in `s` as a contiguous substring. */
  function Includes(s: string, p: string): (b: bool)
    ensures b <==> exists i :: OccursAt(s, p, i)
    decreases |s|
  {
    if |s| < |p| then false
    else if s[..|p|] == p then
      assert OccursAt(s, p, 0);
      true
    else
      var b := Includes(s[1..], p);
      assert forall i :: OccursAt(s[1..], p, i) ==> OccursAt(s, p, i + 1);
      assert (exists i :: OccursAt(s, p, i)) ==> b by {
        forall i | OccursAt(s, p, i) ensures b {
          assert s[1..][i - 1..i - 1 + |p|] == s[i..i + |p|];
          assert OccursAt(s[1..], p, i - 1);
        }
      }
      b
  }

  // ---------------------------------------------------------------------
  // gsub('/', '%2F')
  // ---------------------------------------------------------------------

  /** `s.gsub('/', '%2F')`: every slash becomes the three characters `%2F`. */
  function EscapeSlashes(s: string): (r: string)
    ensures forall i :: 0 <= i < |r| ==> r[i] != '/'
    ensures |r| >= |s|
  {
    if s == [] then []
    else (if s[0] == '/' then "%2F" else [s[0]]) + EscapeSlashes(s[1..])
  }

  /** The escape works character by character: it distributes over concatenation. */
  lemma {:induction false} EscapeSlashesAppend(a: string, b: string)
    ensures EscapeSlashes(a + b) == EscapeSlashes(a) + EscapeSlashes(b)
    decreases |a|
  {
    if a == [] {
      assert a + b == b;
    } else {
      assert (a + b)[1..] == a[1..] + b;
      EscapeSlashesAppend(a[1..], b);
    }
  }

  /** A single character: a slash becomes `%2F`, anything else is kept. */
  lemma EscapeSlashesChar(c: char)
    ensures EscapeSlashes([c]) == if c == '/' then "%2F" else [c]
  {
    assert [c][1..] == [];
  }

  /** Two slash-free words joined by a slash are escaped into one segment joined by `%2F`. */
  lemma EscapeAroundSlash(a: string, b: string)
    requires forall i :: 0 <= i < |a| ==> a[i] != '/'
    requires forall i :: 0 <= i < |b| ==> b[i] != '/'
    ensures EscapeSlashes(a + "/" + b) == a + "%2F" + b
  {
    EscapeSlashesAppend(a + "/", b);
    EscapeSlashesAppend(a, "/");
    EscapeSlashesChar('/');
    EscapeSlashesNoSlash(a);
    EscapeSlashesNoSlash(b);
  }

  /** Whatever sits between a common prefix and a common suffix is determined by the whole. */
  lemma MiddleDetermined(p: string, x: string, y: string, q: string)
    requires p + x + q == p + y + q
    ensures x == y
  {
    var w := p + x + q;
    assert |x| == |y|;
    assert x == w[|p|..|p| + |x|];
    assert y == (p + y + q)[|p|..|p| + |y|];
  }

  /** Reads every `%2F` back as a slash, left to right. */
  function UnescapeSlashes(s: string): (r: string)
    ensures |r| <= |s|
  {
    if |s| >= 3 && s[..3] == "%2F" then "/" + UnescapeSlashes(s[3..])
    else if s == [] then []
    else [s[0]] + UnescapeSlashes(s[1..])
  }

  /** On strings without '%' the escape loses nothing: unescaping gives the input back. */
  lemma {:induction false} UnescapeEscapeSlashes(s: string)
    requires forall i :: 0 <= i < |s| ==> s[i] != '%'
    ensures UnescapeSlashes(EscapeSlashes(s)) == s
    decreases |s|
  {
    if s != [] {
      var t := EscapeSlashes(s[1..]);
      UnescapeEscapeSlashes(s[1..]);
      if s[0] == '/' {
        var e := "%2F" + t;
        assert e[..3] == "%2F" && e[3..] == t;
        assert s == "/" + s[1..];
      } else {
        var e := [s[0]] + t;
        if |e| >= 3 {
          assert e[..3][0] == s[0];
        }
        assert e[1..] == t;
        assert s == [s[0]] + s[1..];
      }
    }
  }

  /** A string without a slash is left exactly as it is. */
  lemma {:induction false} EscapeSlashesNoSlash(s: string)
    requires forall i :: 0 <= i < |s| ==> s[i] != '/'
    ensures EscapeSlashes(s) == s
    decreases |s|
  {
    if s != [] {
      EscapeSlashesNoSlash(s[1..]);
    }
  }

  // ---------------------------------------------------------------------
  // Integer#to_s, String#to_i, Kernel#Integer
  // ---------------------------------------------------------------------

  /** Decimal digits of a natural number, most significant first, no leading zero. */
  function NatToString(n: nat): (r: string)
    ensures |r| > 0 && AllDigits(r)
    ensures n > 0 ==> r[0] != '0'
    decreases n
  {
    if n < 10 then [DigitChar(n)]
    else NatToString(n / 10) + [DigitChar(n % 10)]
  }

  /** `Integer#to_s`, as string interpolation uses it. */
  function IntToString(n: int): (r: string)
    ensures |r| > 0
    ensures n >= 0 <==> IsDigit(r[0])
    ensures n < 0 <==> r[0] == '-'
  {
    if n < 0 then "-" + NatToString(-n) else NatToString(n)
  }

  /**
   * Scans a run of decimal digits the way Ruby's integer reader does: a single
   * underscore between two digits is skipped, anything else ends the run.
   * Returns the accumulated value and how many characters were consumed.
   */
  function ScanDigits(s: string, acc: int): (r: (int, nat))
    ensures r.1 <= |s|
    ensures r.1 == 0 ==> r.0 == acc
  {
    if s == [] then (acc, 0)
    else if IsDigit(s[0]) then
      var (v, k) := ScanDigits(s[1..], acc * 10 + DigitValue(s[0]));
      (v, k + 1)
    else if s[0] == '_' && |s| > 1 && IsDigit(s[1]) then
      var (v, k) := ScanDigits(s[1..], acc);
      (v, k + 1)
    else (acc, 0)
  }

  /** Drops leading `\s` characters. */
  function SkipSpace(s: string): (r: string)
    ensures |r| <= |s| && r == s[|s| - |r|..]
    ensures r == [] || !IsSpace(r[0])
  {
    if s != [] && IsSpace(s[0]) then SkipSpace(s[1..]) else s
  }

  /** Splits an optional leading `+` or `-` off: (negative?, rest). */
  function Sign(s: string): (r: (bool, string))
    ensures r.0 ==> s != [] && s[0] == '-'
    ensures |r.1| <= |s|
  {
    if s != [] && (s[0] == '-' || s[0] == '+') then (s[0] == '-', s[1..]) else (false, s)
  }

  /** The base-10 prefix `0d` or `0D`, directly followed by a digit. */
  predicate HasDecimalPrefix(u: string) {
    |u| > 2 && u[0] == '0' && (u[1] == 'd' || u[1] == 'D') && IsDigit(u[2])
  }

  /** Drops a `0d`/`0D` prefix that a digit follows; anything else is kept. */
  function DropDecimalPrefix(w: string): (u: string)
    ensures HasDecimalPrefix(w) ==> u == w[2..]
    ensures !HasDecimalPrefix(w) ==> u == w
  {
    if HasDecimalPrefix(w) then w[2..] else w
  }

  /**
   * `String#to_i`: skip leading whitespace, read an optional sign, skip a
   * `0d`/`0D` prefix that a digit follows, and read the longest run of
   * digits; no digits at all reads as 0. It never fails.
   */
  function ToI(s: string): (n: int)
    ensures (forall i :: 0 <= i < |s| ==> !IsDigit(s[i])) ==> n == 0
  {
    var (neg, w) := Sign(SkipSpace(s));
    var u := DropDecimalPrefix(w);
    if u != [] && IsDigit(u[0]) then
      assert u[0] == s[|s| - |u|];
      var v := ScanDigits(u, 0).0;
      if neg then -v else v
    else
      0
  }

  /**
   * `Integer(s)` for a decimal string: optional whitespace, an optional sign,
   * digits (single underscores between digits allowed), optional whitespace,
   * and nothing else; anything else raises ArgumentError (None). A run of two
   * or more digits that starts with '0' is Ruby's octal notation, which the
   * model does not read: it is rejected too.
   */
  function ParseInteger(s: string): (r: Option<int>)
    ensures r.Some? ==> exists i :: 0 <= i < |s| && IsDigit(s[i])
  {
    var (neg, u) := Sign(SkipSpace(s));
    var r := ReadNumeral(neg, u);
    if r.Some? then
      assert u[0] == s[|s| - |u|];
      r
    else r
  }

  /** The part of `Integer(s)` after the sign: the digits, then nothing but whitespace. */
  function ReadNumeral(neg: bool, u: string): (r: Option<int>)
    ensures r.Some? ==> u != [] && IsDigit(u[0])
  {
    if u != [] && IsDigit(u[0]) then
      var (v, k) := ScanDigits(u, 0);
      if u[0] == '0' && k > 1 then None
      else if SkipSpace(u[k..]) == [] then Some(if neg then -v else v)
      else None
    else None
  }

  // The grammar ParseInteger accepts, stated on its own.

  predicate AllSpace(s: string) {
    forall i :: 0 <= i < |s| ==> IsSpace(s[i])
  }

  predicate IsSign(sign: string) {
    sign == "" || sign == "+" || sign == "-"
  }

  /** Every character is a digit, or an underscore directly followed by a digit. */
  predicate RunBody(t: string) {
    forall k :: 0 <= k < |t| ==> IsDigit(t[k]) || (t[k] == '_' && k + 1 < |t| && IsDigit(t[k + 1]))
  }

  /** A run of digits with single underscores between them; leading zeros allowed. */
  predicate DigitRun(t: string) {
    |t| > 0 && IsDigit(t[0]) && RunBody(t)
  }

  /** A decimal numeral: digits with single underscores between them, and no leading zero unless it is "0". */
  predicate DecimalDigits(t: string) {
    |t| > 0 && IsDigit(t[0]) && RunBody(t) && (t[0] == '0' ==> |t| == 1)
  }

  /** What may follow a run of digits without extending it. */
  predicate EndsRun(s: string) {
    s == [] || (!IsDigit(s[0]) && !(s[0] == '_' && |s| > 1 && IsDigit(s[1])))
  }

  /** The digits of `t`, in order, without anything else. */
  function DigitsOf(t: string): (r: string)
    ensures AllDigits(r)
  {
    if t == [] then []
    else if IsDigit(t[0]) then [t[0]] + DigitsOf(t[1..])
    else DigitsOf(t[1..])
  }

  /** The positional value of a digit string, most significant digit first. */
  function DecimalValue(ds: string): nat
    requires AllDigits(ds)
  {
    if ds == [] then 0 else DecimalValue(ds[..|ds| - 1]) * 10 + DigitValue(ds[|ds| - 1])
  }

  /** The integer an optional sign and a numeral denote. */
  function SignedValue(sign: string, t: string): int {
    var v: int := DecimalValue(DigitsOf(t));
    if sign == "-" then -v else v
  }

  /** `s` spells `n`: whitespace, an optional sign, a decimal numeral, whitespace. */
  ghost predicate IntegerText(s: string, n: int) {
    exists pre: string, sign: string, t: string, post: string ::
      && s == pre + sign + t + post
      && AllSpace(pre) && IsSign(sign) && DecimalDigits(t) && AllSpace(post)
      && n == SignedValue(sign, t)
  }

  lemma {:induction false} ScanDigitsSnoc(x: string, d: char, acc: int)
    requires AllDigits(x) && IsDigit(d)
    ensures ScanDigits(x + [d], acc) == (ScanDigits(x, acc).0 * 10 + DigitValue(d), |x| + 1)
    decreases |x|
  {
    if x == [] {
      assert x + [d] == [d];
      assert [d][1..] == [];
    } else {
      assert (x + [d])[1..] == x[1..] + [d];
      ScanDigitsSnoc(x[1..], d, acc * 10 + DigitValue(x[0]));
    }
  }

  /** Reading back the digits of a natural number consumes all of them and gives the number. */
  lemma {:induction false} ScanNatToString(n: nat)
    ensures ScanDigits(NatToString(n), 0) == (n, |NatToString(n)|)
    decreases n
  {
    if n < 10 {
      assert NatToString(n)[1..] == [];
    } else {
      ScanNatToString(n / 10);
      ScanDigitsSnoc(NatToString(n / 10), DigitChar(n % 10), 0);
    }
  }

  lemma ToINatToString(n: nat)
    ensures ToI(NatToString(n)) == n
  {
    var s := NatToString(n);
    DigitsHaveNoPrefix(s);
    assert "" + "" + s == s;
    SignedStart("", "", s);
    ScanNatToString(n);
  }

  lemma ToINegatedNatToString(n: nat)
    ensures ToI("-" + NatToString(n)) == -(n as int)
  {
    var d := NatToString(n);
    DigitsHaveNoPrefix(d);
    assert "" + "-" + d == "-" + d;
    SignedStart("", "-", d);
    ScanNatToString(n);
  }

  /** A string of digits does not start with the `0d` prefix. */
  lemma DigitsHaveNoPrefix(s: string)
    requires |s| > 0 && AllDigits(s)
    ensures !HasDecimalPrefix(s) && IsDigit(s[0])
  {
    assert |s| > 1 ==> IsDigit(s[1]);
  }

  /** `n.to_s.to_i == n` for every integer. */
  lemma ToIIntToString(n: int)
    ensures ToI(IntToString(n)) == n
  {
    if n < 0 {
      var m: nat := -n;
      assert IntToString(n) == "-" + NatToString(m);
      ToINegatedNatToString(m);
    } else {
      assert IntToString(n) == NatToString(n);
      ToINatToString(n);
    }
  }


  /** Different integers have different decimal texts. */
  lemma IntToStringInjective(a: int, b: int)
    requires IntToString(a) == IntToString(b)
    ensures a == b
  {
    ToIIntToString(a);
    ToIIntToString(b);
  }

  /** `Integer(n.to_s) == n` for every integer. */
  lemma ParseIntegerIntToString(n: int)
    ensures ParseInteger(IntToString(n)) == Some(n)
  {
    var s := IntToString(n);
    assert SkipSpace(s) == s;
    var m: nat := if n < 0 then -n else n;
    ScanNatToString(m);
    var u := NatToString(m);
    assert Sign(s).1 == u;
    assert u[0] == '0' ==> |u| == 1;
    assert u[|u|..] == [];
  }

  // ---------------------------------------------------------------------
  // Integer() accepts exactly IntegerText
  // ---------------------------------------------------------------------

  /** SkipSpace drops only whitespace. */
  lemma {:induction false} SkipSpaceDrops(s: string)
    ensures AllSpace(s[..|s| - |SkipSpace(s)|])
    decreases |s|
  {
    if s != [] && IsSpace(s[0]) {
      SkipSpaceDrops(s[1..]);
      var d := s[..|s| - |SkipSpace(s)|];
      forall j | 0 <= j < |d| ensures IsSpace(d[j]) {
        if j > 0 {
          assert d[j] == s[1..][..|s| - 1 - |SkipSpace(s)|][j - 1];
        }
      }
    }
  }

  /** Whitespace in front of a string that does not start with whitespace is skipped exactly. */
  lemma {:induction false} SkipSpaceOver(pre: string, x: string)
    requires AllSpace(pre)
    requires x == [] || !IsSpace(x[0])
    ensures SkipSpace(pre + x) == x
    decreases |pre|
  {
    if pre == [] {
      assert pre + x == x;
    } else {
      assert (pre + x)[1..] == pre[1..] + x;
      SkipSpaceOver(pre[1..], x);
    }
  }

  lemma RunBodyCons(c: char, t: string)
    requires RunBody(t)
    requires IsDigit(c) || (c == '_' && t != [] && IsDigit(t[0]))
    ensures RunBody([c] + t)
  {
    var ct := [c] + t;
    forall j | 0 <= j < |ct| ensures IsDigit(ct[j]) || (ct[j] == '_' && j + 1 < |ct| && IsDigit(ct[j + 1])) {
      if j > 0 {
        assert ct[j] == t[j - 1];
        if j + 1 < |ct| {
          assert ct[j + 1] == t[j];
        }
      }
    }
  }

  lemma RunBodyTail(t: string)
    requires t != [] && RunBody(t)
    ensures RunBody(t[1..])
  {
    var u := t[1..];
    forall j | 0 <= j < |u| ensures IsDigit(u[j]) || (u[j] == '_' && j + 1 < |u| && IsDigit(u[j + 1])) {
      var k := j + 1;
      assert 0 <= k < |t|;
      assert IsDigit(t[k]) || (t[k] == '_' && k + 1 < |t| && IsDigit(t[k + 1]));
      assert u[j] == t[k];
      if j + 1 < |u| {
        assert u[j + 1] == t[j + 2];
      }
    }
  }

  /** ScanDigits consumes a run of digits and underscores, and stops exactly where the run ends. */
  lemma {:induction false} ScanDigitsShape(s: string, acc: int)
    ensures var k := ScanDigits(s, acc).1;
      RunBody(s[..k]) && EndsRun(s[k..]) && (s != [] && IsDigit(s[0]) ==> k > 0)
    decreases |s|
  {
    var k := ScanDigits(s, acc).1;
    if s == [] {
    } else if IsDigit(s[0]) || (s[0] == '_' && |s| > 1 && IsDigit(s[1])) {
      var acc' := if IsDigit(s[0]) then acc * 10 + DigitValue(s[0]) else acc;
      ScanDigitsShape(s[1..], acc');
      var k' := ScanDigits(s[1..], acc').1;
      assert k == k' + 1;
      assert s[k..] == s[1..][k'..];
      assert s[..k] == [s[0]] + s[1..][..k'];
      if !IsDigit(s[0]) {
        assert s[1..][0] == s[1];
        assert s[1..][..k'][0] == s[1];
      }
      RunBodyCons(s[0], s[1..][..k']);
    } else {
      assert k == 0;
      assert s[..0] == [] && s[0..] == s;
    }
  }

  /** Reading a run followed by something that ends it consumes exactly the run and reads its digits. */
  lemma {:induction false} ScanRun(t: string, rest: string, acc: int)
    requires RunBody(t) && EndsRun(rest)
    ensures ScanDigits(t + rest, acc) == (ScanDigits(DigitsOf(t), acc).0, |t|)
    decreases |t|
  {
    if t == [] {
      assert t + rest == rest;
    } else {
      RunBodyTail(t);
      var acc' := if IsDigit(t[0]) then acc * 10 + DigitValue(t[0]) else acc;
      ScanStep(t, rest, acc);
      ScanRun(t[1..], rest, acc');
    }
  }

  /** One step of ScanDigits over a run: the first character is consumed, a digit into the value. */
  lemma ScanStep(t: string, rest: string, acc: int)
    requires t != [] && RunBody(t)
    ensures var acc' := if IsDigit(t[0]) then acc * 10 + DigitValue(t[0]) else acc;
      && ScanDigits(t + rest, acc) == (ScanDigits(t[1..] + rest, acc').0, ScanDigits(t[1..] + rest, acc').1 + 1)
      && ScanDigits(DigitsOf(t), acc).0 == ScanDigits(DigitsOf(t[1..]), acc').0
  {
    assert (t + rest)[1..] == t[1..] + rest;
    if IsDigit(t[0]) {
      assert DigitsOf(t)[1..] == DigitsOf(t[1..]);
    } else {
      assert t[0] == '_' && |t| > 1 && IsDigit(t[1]);
      assert (t + rest)[1] == t[1];
    }
  }

  /** Scanning a digit string gives its positional value. */
  lemma {:induction false} ScanDigitsValue(ds: string)
    requires AllDigits(ds)
    ensures ScanDigits(ds, 0).0 == DecimalValue(ds)
    decreases |ds|
  {
    if ds != [] {
      var x := ds[..|ds| - 1];
      ScanDigitsValue(x);
      ScanDigitsSnoc(x, ds[|ds| - 1], 0);
      assert x + [ds[|ds| - 1]] == ds;
    }
  }

  /** Whitespace ends a run of digits and is skipped entirely. */
  lemma SpaceEndsRun(post: string)
    requires AllSpace(post)
    ensures EndsRun(post) && SkipSpace(post) == []
  {
    assert post == [] || IsSpace(post[0]);
    assert post + [] == post;
    SkipSpaceOver(post, []);
  }

  /** Scanning a numeral followed by whitespace consumes the numeral and gives its value. */
  lemma ScanNumeral(t: string, post: string)
    requires DecimalDigits(t) && AllSpace(post)
    ensures ScanDigits(t + post, 0) == (DecimalValue(DigitsOf(t)), |t|)
    ensures (t + post)[|t|..] == post
  {
    SpaceEndsRun(post);
    ScanRun(t, post, 0);
    ScanDigitsValue(DigitsOf(t));
  }

  /** A numeral followed by whitespace is read with its value. */
  lemma NumeralAccepts(neg: bool, t: string, post: string)
    requires DecimalDigits(t) && AllSpace(post)
    ensures ReadNumeral(neg, t + post) == Some(SignedValue(if neg then "-" else "", t))
  {
    var u := t + post;
    assert u[0] == t[0];
    ScanNumeral(t, post);
    SpaceEndsRun(post);
  }

  /** A sign in front of a digit is split off. */
  lemma SignBeforeDigit(sign: string, u: string)
    requires IsSign(sign) && u != [] && IsDigit(u[0])
    ensures Sign(sign + u) == (sign == "-", u)
  {
    if sign != "" {
      assert (sign + u)[1..] == u;
    } else {
      assert sign + u == u;
    }
  }

  /** Every string of the grammar is accepted, with the value it spells. */
  lemma ParseIntegerAccepts(pre: string, sign: string, t: string, post: string)
    requires AllSpace(pre) && IsSign(sign) && DecimalDigits(t) && AllSpace(post)
    ensures ParseInteger(pre + sign + t + post) == Some(SignedValue(sign, t))
  {
    var x := sign + (t + post);
    assert pre + sign + t + post == pre + x;
    assert x[0] == if sign == "" then t[0] else sign[0];
    SkipSpaceOver(pre, x);
    SignBeforeDigit(sign, t + post);
    NumeralAccepts(sign == "-", t, post);
  }

  /** What ReadNumeral accepts is a numeral followed by whitespace. */
  lemma NumeralSplit(neg: bool, u: string, n: int) returns (t: string, post: string)
    requires ReadNumeral(neg, u) == Some(n)
    ensures u == t + post && DecimalDigits(t) && AllSpace(post)
    ensures n == SignedValue(if neg then "-" else "", t)
  {
    var k := ScanDigits(u, 0).1;
    ScanDigitsShape(u, 0);
    t := u[..k];
    post := u[k..];
    assert u == t + post;
    SkipSpaceDrops(post);
    assert post[..|post|] == post;
    ScanRun(t, post, 0);
    ScanDigitsValue(DigitsOf(t));
  }

  /** What Sign splits off is a sign. */
  lemma SignSplit(w: string) returns (sign: string)
    ensures IsSign(sign) && w == sign + Sign(w).1 && (Sign(w).0 <==> sign == "-")
  {
    if w != [] && (w[0] == '-' || w[0] == '+') {
      sign := [w[0]];
      assert w == sign + w[1..];
    } else {
      sign := "";
    }
  }

  /** SkipSpace splits a string into leading whitespace and the rest. */
  lemma SkipSpaceSplit(s: string) returns (pre: string)
    ensures AllSpace(pre) && s == pre + SkipSpace(s)
  {
    var w := SkipSpace(s);
    pre := s[..|s| - |w|];
    SkipSpaceDrops(s);
    assert s == pre + w;
  }

  /** What ParseInteger accepts is read as the grammar says. */
  lemma ParseIntegerSpells(s: string, n: int)
    requires ParseInteger(s) == Some(n)
    ensures IntegerText(s, n)
  {
    var w := SkipSpace(s);
    var pre := SkipSpaceSplit(s);
    var sign := SignSplit(w);
    var u := Sign(w).1;
    assert ReadNumeral(Sign(w).0, u) == Some(n);
    var t, post := NumeralSplit(Sign(w).0, u, n);
    assert w == sign + (t + post);
    Regroup(pre, sign, t, post);
    assert (if Sign(w).0 then "-" else "") == (if sign == "-" then "-" else "");
    IntegerTextIntro(pre, sign, t, post);
  }

  lemma Regroup(a: string, b: string, c: string, d: string)
    ensures a + (b + (c + d)) == a + b + c + d
  {
  }

  lemma IntegerTextIntro(pre: string, sign: string, t: string, post: string)
    requires AllSpace(pre) && IsSign(sign) && DecimalDigits(t) && AllSpace(post)
    ensures IntegerText(pre + sign + t + post, SignedValue(sign, t))
  {
  }

  /** ParseInteger(s) is Some(n) exactly when s spells n. */
  lemma ParseIntegerGrammar(s: string)
    ensures forall n :: ParseInteger(s) == Some(n) <==> IntegerText(s, n)
  {
    forall n ensures ParseInteger(s) == Some(n) <==> IntegerText(s, n) {
      if ParseInteger(s) == Some(n) {
        ParseIntegerSpells(s, n);
      }
      if IntegerText(s, n) {
        var pre: string, sign: string, t: string, post: string :|
          && s == pre + sign + t + post
          && AllSpace(pre) && IsSign(sign) && DecimalDigits(t) && AllSpace(post)
          && n == SignedValue(sign, t);
        ParseIntegerAccepts(pre, sign, t, post);
      }
    }
  }

  /** Numerals with a leading zero, which Ruby reads as octal, are refused. */
  lemma LeadingZeroRefused()
    ensures ParseInteger("012") == None
  {
    var a := "012";
    assert a[1..] == "12" && a[1..][1..] == "2" && a[1..][1..][1..] == [];
    assert ScanDigits("2", 1) == (12, 1);
    assert ScanDigits("12", 0) == (12, 2);
    assert ScanDigits(a, 0) == (12, 3);
    assert SkipSpace(a) == a;
    assert Sign(a) == (false, a);
  }

  /** A numeral with a leading zero and a digit 8 or 9, which Ruby refuses, is refused too. */
  lemma LeadingZeroNineRefused()
    ensures ParseInteger("09") == None
  {
    var b := "09";
    assert b[1..] == "9" && b[1..][1..] == [];
    assert ScanDigits("9", 0) == (9, 1);
    assert ScanDigits(b, 0) == (9, 2);
    assert SkipSpace(b) == b;
    assert Sign(b) == (false, b);
  }

  /** Single underscores between digits are skipped, and whitespace around the numeral is allowed. */
  lemma UnderscoreAndSpaceAccepted()
    ensures ParseInteger(" -1_0 ") == Some(-10)
  {
    var pre, sign, t, post := " ", "-", "1_0", " ";
    assert RunBody(t) by {
      forall k | 0 <= k < |t| ensures IsDigit(t[k]) || (t[k] == '_' && k + 1 < |t| && IsDigit(t[k + 1])) {
        assert k == 0 || k == 1 || k == 2;
      }
    }
    assert " -1_0 " == pre + sign + t + post;
    assert t[1..] == "_0" && t[1..][1..] == "0" && t[1..][1..][1..] == [];
    assert DigitsOf(t) == "10";
    assert "10"[..1] == "1";
    assert DecimalValue("10") == 10;
    ParseIntegerAccepts(pre, sign, t, post);
  }

  // ---------------------------------------------------------------------
  // String#to_i reads the leading integer
  // ---------------------------------------------------------------------

  /**
   * `to_i` of whitespace, an optional sign and a run of digits, followed by
   * anything that does not continue the run, is the signed value of the run.
   */
  lemma ToIReadsLeadingInteger(pre: string, sign: string, t: string, rest: string)
    requires AllSpace(pre) && IsSign(sign) && DigitRun(t) && EndsRun(rest)
    requires !(t == "0" && |rest| > 1 && (rest[0] == 'd' || rest[0] == 'D') && IsDigit(rest[1]))
    ensures ToI(pre + sign + t + rest) == SignedValue(sign, t)
  {
    var u := t + rest;
    Regroup(pre, sign, t, rest);
    assert pre + sign + t + rest == pre + sign + u;
    assert u[0] == t[0];
    if |t| > 1 {
      RunBodyAt(t, 1);
      assert u[1] == t[1];
    } else if |u| > 2 {
      assert u[1] == rest[0] && u[2] == rest[1];
    }
    assert !HasDecimalPrefix(u);
    ToIOfRun(pre, sign, u, t, rest);
  }

  /**
   * `to_i` skips a `0d` or `0D` prefix between the sign and a run of digits:
   * the result is the signed value of the run after it.
   */
  lemma ToIReadsPrefixedInteger(pre: string, sign: string, p: string, t: string, rest: string)
    requires AllSpace(pre) && IsSign(sign) && (p == "0d" || p == "0D") && DigitRun(t) && EndsRun(rest)
    ensures ToI(pre + sign + p + t + rest) == SignedValue(sign, t)
  {
    var u := p + (t + rest);
    assert pre + sign + p + t + rest == pre + sign + u;
    assert u[0] == '0' && u[1] == p[1] && u[2] == t[0];
    assert u[2..] == t + rest;
    ToIOfRun(pre, sign, u, t, rest);
  }

  /** Each character of a run is a digit or an underscore before a digit. */
  lemma RunBodyAt(t: string, k: nat)
    requires RunBody(t) && k < |t|
    ensures IsDigit(t[k]) || t[k] == '_'
  {
    var c := t[k];
    assert RunBody(t);
    assert 0 <= k < |t|;
    assert IsDigit(c) || (c == '_' && k + 1 < |t| && IsDigit(t[k + 1]));
  }

  /** Once the prefix is dropped, what follows the sign is a run and its end. */
  lemma ToIOfRun(pre: string, sign: string, u: string, t: string, rest: string)
    requires AllSpace(pre) && IsSign(sign) && u != [] && IsDigit(u[0])
    requires DigitRun(t) && EndsRun(rest) && DropDecimalPrefix(u) == t + rest
    ensures ToI(pre + sign + u) == SignedValue(sign, t)
  {
    SignedStart(pre, sign, u);
    assert (t + rest)[0] == t[0];
    ScanRun(t, rest, 0);
    ScanDigitsValue(DigitsOf(t));
  }

  /** Leading whitespace is skipped and a sign in front of a digit split off. */
  lemma SignedStart(pre: string, sign: string, u: string)
    requires AllSpace(pre) && IsSign(sign) && u != [] && IsDigit(u[0])
    ensures Sign(SkipSpace(pre + sign + u)) == (sign == "-", u)
  {
    var x := sign + u;
    assert pre + sign + u == pre + x;
    assert x[0] == if sign == "" then u[0] else sign[0];
    SkipSpaceOver(pre, x);
    SignBeforeDigit(sign, u);
  }

  /**
   * `to_i` is 0 when what follows the leading whitespace and the optional
   * sign does not start with a digit.
   */
  lemma ToINoLeadingDigit(pre: string, sign: string, x: string)
    requires AllSpace(pre) && IsSign(sign)
    requires x == [] || !IsDigit(x[0])
    requires sign == "" ==> x == [] || (!IsSpace(x[0]) && x[0] != '+' && x[0] != '-')
    ensures ToI(pre + sign + x) == 0
  {
    if sign == "" {
      assert pre + sign + x == pre + x;
      assert Sign(x).1 == x;
      ToIAfterSpace(pre, x, x);
    } else {
      var w := sign + x;
      assert pre + sign + x == pre + w;
      assert w[0] == sign[0];
      assert w[1..] == x;
      ToIAfterSpace(pre, w, x);
    }
  }

  /** Once whitespace is skipped and the sign read, a non-digit reads as 0. */
  lemma ToIAfterSpace(pre: string, w: string, u: string)
    requires AllSpace(pre) && (w == [] || !IsSpace(w[0]))
    requires Sign(w).1 == u && (u == [] || !IsDigit(u[0]))
    ensures ToI(pre + w) == 0
  {
    SkipSpaceOver(pre, w);
  }

  lemma ToITrailingText()
    ensures ToI("42abc") == 42
  {
    var t := "42";
    var rest := "abc";
    assert RunBody(t) by {
      forall k | 0 <= k < |t| ensures IsDigit(t[k]) {
        assert k == 0 || k == 1;
      }
    }
    assert EndsRun(rest);
    assert t[1..] == "2" && t[1..][1..] == [];
    assert DigitsOf(t) == "42";
    assert t[..1] == "4" && "4"[..0] == [];
    assert DecimalValue("4") == 4;
    assert DecimalValue(t) == 42;
    assert "" + "" + t + rest == "42abc";
    ToIReadsLeadingInteger("", "", t, rest);
  }

  lemma ToILeadingSpace()
    ensures ToI(" 7") == 7
  {
    var t := "7";
    assert RunBody(t) by {
      forall k | 0 <= k < |t| ensures IsDigit(t[k]) {
        assert k == 0;
      }
    }
    assert t[1..] == [] && DigitsOf(t) == t;
    assert " " + "" + t + "" == " 7";
    ToIReadsLeadingInteger(" ", "", t, "");
  }

  lemma ToIPlusSign()
    ensures ToI("+5") == 5
  {
    var t := "5";
    assert RunBody(t) by {
      forall k | 0 <= k < |t| ensures IsDigit(t[k]) {
        assert k == 0;
      }
    }
    assert t[1..] == [] && DigitsOf(t) == t;
    assert "" + "+" + t + "" == "+5";
    ToIReadsLeadingInteger("", "+", t, "");
  }

  lemma ToIDecimalPrefix()
    ensures ToI("0d10") == 10
  {
    RunOneZero();
    assert "" + "" + "0d" + "10" + "" == "0d10";
    ToIReadsPrefixedInteger("", "", "0d", "10", "");
  }

  lemma RunOneZero()
    ensures DigitRun("10") && SignedValue("", "10") == 10
  {
    var t := "10";
    assert RunBody(t) by {
      forall k | 0 <= k < |t| ensures IsDigit(t[k]) {
        assert k == 0 || k == 1;
      }
    }
    assert t[1..] == "0" && t[1..][1..] == [];
    assert DigitsOf(t) == "10";
    assert t[..1] == "1" && "1"[..0] == [];
  }

  lemma ToINegativeDecimalPrefix()
    ensures ToI(" -0D7") == -7
  {
    var t := "7";
    assert RunBody(t) by {
      forall k | 0 <= k < |t| ensures IsDigit(t[k]) {
        assert k == 0;
      }
    }
    assert t[1..] == [] && DigitsOf(t) == t;
    assert " " + "-" + "0D" + t + "" == " -0D7";
    ToIReadsPrefixedInteger(" ", "-", "0D", t, "");
  }

  lemma ToILetters()
    ensures ToI("abc") == 0
  {
    assert "" + "" + "abc" == "abc";
    ToINoLeadingDigit("", "", "abc");
  }

  lemma ToIUnderscore()
    ensures ToI("1_0") == 10
  {
    RunOneUnderscoreZero();
    assert "" + "" + "1_0" + "" == "1_0";
    ToIReadsLeadingInteger("", "", "1_0", "");
  }

  lemma RunOneUnderscoreZero()
    ensures DigitRun("1_0") && SignedValue("", "1_0") == 10
  {
    var t := "1_0";
    assert RunBody(t) by {
      forall k | 0 <= k < |t| ensures IsDigit(t[k]) || (t[k] == '_' && k + 1 < |t| && IsDigit(t[k + 1])) {
        assert k == 0 || k == 1 || k == 2;
      }
    }
    assert t[1..] == "_0" && t[1..][1..] == "0" && t[1..][1..][1..] == [];
    assert DigitsOf(t) == "10";
    assert "10"[..1] == "1" && "1"[..0] == [];
  }

  lemma ToILeadingZeros()
    ensures ToI("007") == 7
  {
    RunZeroZeroSeven();
    assert "" + "" + "007" + "" == "007";
    ToIReadsLeadingInteger("", "", "007", "");
  }

  lemma RunZeroZeroSeven()
    ensures DigitRun("007") && SignedValue("", "007") == 7
  {
    var t := "007";
    assert RunBody(t) by {
      forall k | 0 <= k < |t| ensures IsDigit(t[k]) {
        assert k == 0 || k == 1 || k == 2;
      }
    }
    assert t[1..] == "07" && t[1..][1..] == "7" && t[1..][1..][1..] == [];
    assert DigitsOf(t) == "007";
    assert t[..2] == "00" && t[..2][..1] == "0" && "0"[..0] == [];
    assert DecimalValue("0") == 0;
    assert DecimalValue("00") == 0;
    assert DecimalValue(t) == 7;
  }
}
